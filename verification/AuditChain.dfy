/** The audit hash chain: appending, verifying from a checkpoint, and what a head vouches for. */
module AuditChain {
  import opened Common
  import opened Uuid
  import opened AuditEncoding

  type Hash32 = s: string | |s| == 32 witness GENESIS

  /** How an event is tied to the hash before it: any function with 32-byte results. */
  type Link = (string, int, Body) -> Hash32

  /** The link the library uses, for any hash function. */
  function ComputeAuditHash(H: string -> Hash32): Link {
    (previous: string, sequence: int, body: Body) => H(Message(previous, sequence, body))
  }

  /** A chain position: a sequence number and the hash of the event that bears it. */
  datatype Position = Position(sequence: int, hash: string)

  const START := Position(0, GENESIS)

  datatype VerifyError = InvalidCheckpoint | CompromisedAt(sequence: int) | HeadMismatch

  datatype Verification = Verified(report: Position) | Failed(error: VerifyError)

  // ----- following a chain -----

  /** The event is the next one after a position. */
  predicate Extends(link: Link, at: Position, e: Event) {
    && e.sequence == at.sequence + 1
    && e.previousHash == at.hash && e.hash == link(at.hash, e.sequence, e.body)
  }

  /** Where a run of events leads from a position, if each extends the one before. */
  function Follow(link: Link, at: Position, events: seq<Event>): Option<Position>
    decreases |events|
  {
    if events == [] then Some(at)
    else if !Extends(link, at, events[0]) then None
    else Follow(link, Position(events[0].sequence, events[0].hash), events[1..])
  }

  /** Following a run of events splits at any prefix. */
  lemma {:induction false} FollowSplits(link: Link, at: Position, a: seq<Event>, b: seq<Event>)
    ensures var middle := Follow(link, at, a);
      Follow(link, at, a + b) == if middle.Some? then Follow(link, middle.value, b) else None
    decreases |a|
  {
    if a == [] {
      assert a + b == b;
    } else {
      assert (a + b)[1..] == a[1..] + b;
      if Extends(link, at, a[0]) {
        FollowSplits(link, Position(a[0].sequence, a[0].hash), a[1..], b);
      }
    }
  }

  lemma {:induction false} FollowCounts(link: Link, at: Position, events: seq<Event>)
    requires Follow(link, at, events).Some?
    ensures Follow(link, at, events).value.sequence == at.sequence + |events|
    ensures events != [] ==> |Follow(link, at, events).value.hash| == 32
    decreases |events|
  {
    if events != [] {
      var next := Position(events[0].sequence, events[0].hash);
      assert Follow(link, at, events) == Follow(link, next, events[1..]);
      FollowCounts(link, next, events[1..]);
    }
  }

  lemma {:induction false} FollowNumbers(link: Link, at: Position, events: seq<Event>, i: nat)
    requires Follow(link, at, events).Some? && i < |events|
    ensures events[i].sequence == at.sequence + 1 + i
    decreases |events|
  {
    if i > 0 {
      var next := Position(events[0].sequence, events[0].hash);
      assert Follow(link, at, events) == Follow(link, next, events[1..]);
      FollowNumbers(link, next, events[1..], i - 1);
    }
  }

  // ----- the head determines the log -----

  /** Two events agree in everything but the time below a microsecond. */
  predicate Agree(a: Event, b: Event) {
    SameBody(a.body, b.body) && a.sequence == b.sequence && a.previousHash == b.previousHash && a.hash == b.hash
  }

  predicate AgreeAll(a: seq<Event>, b: seq<Event>) {
    |a| == |b| && forall i | 0 <= i < |a| :: Agree(a[i], b[i])
  }

  /** Two events that say different things, or after different hashes, with one hash. */
  predicate Clash(link: Link, a: Event, b: Event) {
    && |a.previousHash| == |b.previousHash|
    && link(a.previousHash, a.sequence, a.body) == link(b.previousHash, b.sequence, b.body)
    && !(a.previousHash == b.previousHash && a.sequence == b.sequence && SameBody(a.body, b.body))
  }

  predicate ClashIn(link: Link, a: seq<Event>, b: seq<Event>, i: nat) {
    i < |a| && i < |b| && Clash(link, a[i], b[i])
  }

  /** One step back: two events that reach one head come from one position and agree, or
      clash. */
  lemma StepBack(link: Link, p: Position, a: Event, q: Position, b: Event)
    requires Extends(link, p, a) && Extends(link, q, b) && a.sequence == b.sequence && a.hash == b.hash
    requires |p.hash| == |q.hash|
    ensures (p == q && Agree(a, b)) || Clash(link, a, b)
  {
  }

  lemma AgreeLonger(a: seq<Event>, b: seq<Event>)
    requires a != [] && |a| == |b|
    requires AgreeAll(a[..|a| - 1], b[..|b| - 1]) && Agree(a[|a| - 1], b[|b| - 1])
    ensures AgreeAll(a, b)
  {
    forall i | 0 <= i < |a| ensures Agree(a[i], b[i]) {
      if i < |a| - 1 {
        assert a[i] == a[..|a| - 1][i] && b[i] == b[..|b| - 1][i];
      }
    }
  }

  lemma TakeDrop(s: seq<Event>, k: nat)
    requires k <= |s|
    ensures s == s[..k] + s[k..]
  {
  }

  lemma SplitLast(s: seq<Event>)
    requires s != []
    ensures s == s[..|s| - 1] + [s[|s| - 1]]
  {
  }

  lemma {:induction false} LinkedLogsAgree(link: Link, at: Position, a: seq<Event>, b: seq<Event>) returns (i: nat)
    requires Follow(link, at, a).Some? && Follow(link, at, a) == Follow(link, at, b)
    ensures AgreeAll(a, b) || ClashIn(link, a, b, i)
    decreases |a|
  {
    FollowCounts(link, at, a);
    FollowCounts(link, at, b);
    i := 0;
    if a != [] {
      var n := |a| - 1;
      var p := FollowLast(link, at, a);
      var q := FollowLast(link, at, b);
      StepBack(link, p, a[n], q, b[n]);
      if p == q && Agree(a[n], b[n]) {
        i := LinkedLogsAgree(link, at, a[..n], b[..n]);
        if AgreeAll(a[..n], b[..n]) {
          AgreeLonger(a, b);
        }
      } else {
        i := n;
      }
    }
  }

  /** Two logs that verify from one checkpoint to one head agree event by event, or two
      different messages with one hash are found at one place in them. */
  lemma HeadDeterminesLog(H: string -> Hash32, at: Position, a: seq<Event>, b: seq<Event>)
    returns (x: string, y: string)
    requires Follow(ComputeAuditHash(H), at, a).Some?
    requires Follow(ComputeAuditHash(H), at, a) == Follow(ComputeAuditHash(H), at, b)
    ensures AgreeAll(a, b) || (x != y && H(x) == H(y) && exists i | 0 <= i < |a| && i < |b| ::
      x == MessageOf(a[i]) && y == MessageOf(b[i]))
  {
    x, y := "", "";
    var i := LinkedLogsAgree(ComputeAuditHash(H), at, a, b);
    if !AgreeAll(a, b) {
      x, y := ClashIsCollision(H, a[i], b[i]);
    }
  }

  /** For the library's link, a clash is a collision of the hash function. */
  lemma ClashIsCollision(H: string -> Hash32, a: Event, b: Event) returns (x: string, y: string)
    requires Clash(ComputeAuditHash(H), a, b)
    ensures x == MessageOf(a) && y == MessageOf(b) && x != y && H(x) == H(y)
  {
    x, y := MessageOf(a), MessageOf(b);
    if x == y {
      MessageInjective(a.previousHash, a.sequence, a.body, b.previousHash, b.sequence, b.body);
    }
  }

  function MessageOf(e: Event): string {
    Message(e.previousHash, e.sequence, e.body)
  }

  /** The position a non-empty run has before its last event. */
  lemma FollowLast(link: Link, at: Position, events: seq<Event>) returns (before: Position)
    requires events != [] && Follow(link, at, events).Some?
    ensures var n := |events| - 1;
      && Follow(link, at, events[..n]) == Some(before) && Extends(link, before, events[n])
      && Follow(link, at, events) == Some(Position(events[n].sequence, events[n].hash))
      && (if n == 0 then before == at else |before.hash| == 32)
  {
    var n := |events| - 1;
    SplitLast(events);
    FollowSplits(link, at, events[..n], [events[n]]);
    before := Follow(link, at, events[..n]).value;
    FollowOne(link, before, events[n]);
    FollowCounts(link, at, events[..n]);
  }

  lemma FollowOne(link: Link, at: Position, e: Event)
    ensures Follow(link, at, [e]) == if Extends(link, at, e) then Some(Position(e.sequence, e.hash)) else None
  {
    if Extends(link, at, e) {
      assert [e][1..] == [];
      assert Follow(link, Position(e.sequence, e.hash), []) == Some(Position(e.sequence, e.hash));
    }
  }

  // ----- verification from a checkpoint -----

  /** A checkpoint pairs a positive sequence with its hash, or is the zero value. */
  predicate ValidCheckpoint(c: Position) {
    c.sequence >= 0 && (c.sequence == 0 <==> c.hash == "")
  }

  function Origin(c: Position): Position {
    if c.sequence > 0 then c else START
  }

  function Judge(link: Link, c: Position, stream: seq<Event>, head: Position): bool {
    ValidCheckpoint(c) && Follow(link, Origin(c), stream) == Some(head)
  }

  /** The verification loop over the events after the checkpoint. */
  method VerifyAuditChainFrom(link: Link, checkpoint: Position, stream: seq<Event>, head: Position)
    returns (v: Verification)
    ensures v.Verified? <==> Judge(link, checkpoint, stream, head)
    ensures v.Verified? ==> v.report == head
    ensures v == Failed(InvalidCheckpoint) <==> !ValidCheckpoint(checkpoint)
    ensures v.Failed? && v.error.CompromisedAt? <==>
      ValidCheckpoint(checkpoint) && Follow(link, Origin(checkpoint), stream).None?
    ensures v.Failed? && v.error.CompromisedAt? ==>
      exists k | 0 <= k < |stream| ::
        v.error.sequence == Origin(checkpoint).sequence + k + 1 &&
        Follow(link, Origin(checkpoint), stream[..k]).Some? && Follow(link, Origin(checkpoint), stream[..k + 1]).None?
  {
    if checkpoint.sequence < 0 || (checkpoint.sequence == 0) != (checkpoint.hash == "") {
      return Failed(InvalidCheckpoint);
    }
    var previous, sequence := GENESIS, 0;
    if checkpoint.sequence > 0 {
      previous, sequence := checkpoint.hash, checkpoint.sequence;
    }
    for k := 0 to |stream|
      invariant Follow(link, Origin(checkpoint), stream[..k]) == Some(Position(sequence, previous))
      invariant sequence == Origin(checkpoint).sequence + k
    {
      var event := stream[k];
      sequence := sequence + 1;
      ghost var at := Position(sequence - 1, previous);
      assert stream == stream[..k] + stream[k..] && stream[..k + 1] == stream[..k] + [event];
      FollowSplits(link, Origin(checkpoint), stream[..k], stream[k..]);
      FollowSplits(link, Origin(checkpoint), stream[..k], [event]);
      FollowOne(link, at, event);
      if event.sequence != sequence {
        return Failed(CompromisedAt(sequence));
      }
      if event.previousHash != previous || event.hash != link(previous, event.sequence, event.body) {
        return Failed(CompromisedAt(sequence));
      }
      previous := event.hash;
    }
    assert stream[..|stream|] == stream;
    if head != Position(sequence, previous) {
      return Failed(HeadMismatch);
    }
    return Verified(head);
  }

  /** The report of a verification is a checkpoint again exactly if it speaks of an event:
      not if it verified no event from the start of the log. */
  lemma ReportIsCheckpointIff(link: Link, c: Position, stream: seq<Event>, head: Position)
    requires Judge(link, c, stream, head)
    ensures ValidCheckpoint(head) <==> c.sequence > 0 || stream != []
  {
    FollowCounts(link, Origin(c), stream);
  }

  /** Verifying a whole log is verifying a prefix and then the rest from the report on that
      prefix, as long as that report speaks of an event. */
  lemma CheckpointSplits(link: Link, c: Position, prefix: seq<Event>, rest: seq<Event>, head: Position)
    requires ValidCheckpoint(c) && (c.sequence > 0 || prefix != [])
    ensures Judge(link, c, prefix + rest, head) <==>
      exists report :: Judge(link, c, prefix, report) && Judge(link, report, rest, head)
  {
    FollowSplits(link, Origin(c), prefix, rest);
    var middle := Follow(link, Origin(c), prefix);
    if middle.Some? {
      FollowCounts(link, Origin(c), prefix);
      assert Origin(middle.value) == middle.value;
      if Judge(link, c, prefix + rest, head) {
        assert Judge(link, c, prefix, middle.value) && Judge(link, middle.value, rest, head);
      }
    }
  }

  /** The report on an empty chain is no checkpoint: it pairs sequence zero with a hash. */
  lemma EmptyReportIsNoCheckpoint(link: Link)
    ensures Judge(link, Position(0, ""), [], START) && !ValidCheckpoint(START)
  {
    assert |GENESIS| == 32;
  }

  // ----- the store's log -----

  /** The events the store streams after a sequence number. */
  function After(events: seq<Event>, sequence: int): seq<Event> {
    if events == [] then []
    else (if events[0].sequence > sequence then [events[0]] else []) + After(events[1..], sequence)
  }

  lemma {:induction false} AfterAppends(events: seq<Event>, e: Event, sequence: int)
    ensures After(events + [e], sequence) == After(events, sequence) + (if e.sequence > sequence then [e] else [])
  {
    if events == [] {
      assert (events + [e])[1..] == [];
    } else {
      assert (events + [e])[1..] == events[1..] + [e];
      AfterAppends(events[1..], e, sequence);
    }
  }

  lemma {:induction false} AfterSelects(events: seq<Event>, sequence: int)
    ensures forall e | e in After(events, sequence) :: e.sequence > sequence
  {
    if events != [] {
      AfterSelects(events[1..], sequence);
    }
  }

  lemma {:induction false} AfterComposes(events: seq<Event>, low: int, high: int)
    requires low <= high
    ensures After(After(events, low), high) == After(events, high)
  {
    if events != [] {
      AfterComposes(events[1..], low, high);
      var rest := After(events[1..], low);
      if events[0].sequence > low {
        assert ([events[0]] + rest)[1..] == rest;
      } else {
        assert After(events, low) == rest;
      }
    }
  }

  /** On consecutively numbered events, streaming after the k-th number drops the first k. */
  lemma {:induction false} AfterIsSuffix(events: seq<Event>, base: int, k: nat)
    requires k <= |events| && forall i | 0 <= i < |events| :: events[i].sequence == base + 1 + i
    ensures After(events, base + k) == events[k..]
    decreases |events|
  {
    if events != [] {
      if k > 0 {
        AfterIsSuffix(events[1..], base + 1, k - 1);
        assert events[k..] == events[1..][k - 1..];
      } else {
        AfterAll(events, base);
      }
    }
  }

  lemma {:induction false} AfterAll(events: seq<Event>, sequence: int)
    requires forall e | e in events :: e.sequence > sequence
    ensures After(events, sequence) == events
  {
    if events != [] {
      AfterAll(events[1..], sequence);
    }
  }

  lemma ChainGrows(link: Link, audits: seq<Event>, at: Position, e: Event)
    requires Follow(link, START, After(audits, 0)) == Some(at) && Extends(link, at, e)
    ensures Follow(link, START, After(audits + [e], 0)) == Some(Position(e.sequence, e.hash))
  {
    FollowCounts(link, START, After(audits, 0));
    AfterAppends(audits, e, 0);
    FollowSplits(link, START, After(audits, 0), [e]);
    FollowOne(link, at, e);
  }

  /** The events a store holds, and the head of its chain. */
  datatype Store = Store(audits: seq<Event>, head: Position)

  /** An event to append, in the chain or outside it. */
  datatype Entry = Entry(body: Body, unchained: bool)

  function Attributed(body: Body): Body {
    if body.actorKind == "" then body.(actorKind := "user") else body
  }

  function Appended(link: Link, s: Store, e: Entry): Store {
    var body := Attributed(e.body);
    if e.unchained then s.(audits := s.audits + [Event(body, 0, "", "")])
    else
      var sequence := s.head.sequence + 1;
      var hash := link(s.head.hash, sequence, body);
      Store(s.audits + [Event(body, sequence, s.head.hash, hash)], Position(sequence, hash))
  }

  function AppendedAll(link: Link, s: Store, entries: seq<Entry>): Store
    decreases |entries|
  {
    if entries == [] then s else AppendedAll(link, Appended(link, s, entries[0]), entries[1..])
  }

  /** The chained events lead from the start to the head. */
  ghost predicate Chained(link: Link, s: Store) {
    Follow(link, START, After(s.audits, 0)) == Some(s.head)
  }

  lemma AppendKeepsChained(link: Link, s: Store, e: Entry)
    requires Chained(link, s)
    ensures Chained(link, Appended(link, s, e))
  {
    var next := Appended(link, s, e);
    var event := next.audits[|s.audits|];
    if e.unchained {
      AfterAppends(s.audits, event, 0);
      assert After(s.audits, 0) + [] == After(s.audits, 0);
    } else {
      ChainGrows(link, s.audits, s.head, event);
    }
  }

  lemma {:induction false} BuiltLogIsChained(link: Link, s: Store, entries: seq<Entry>)
    requires Chained(link, s)
    ensures Chained(link, AppendedAll(link, s, entries))
    decreases |entries|
  {
    if entries != [] {
      AppendKeepsChained(link, s, entries[0]);
      BuiltLogIsChained(link, Appended(link, s, entries[0]), entries[1..]);
    }
  }

  /** The log keeps what it holds and takes every event as it was given, in order; only an
      absent actor kind is filled in. */
  lemma {:induction false} LogKeepsEverything(link: Link, s: Store, entries: seq<Entry>)
    ensures var all := AppendedAll(link, s, entries).audits;
      && |all| == |s.audits| + |entries| && s.audits <= all
      && forall i | 0 <= i < |entries| ::
           var given, stored := entries[i].body, all[|s.audits| + i].body;
           stored == given.(actorKind := if given.actorKind == "" then "user" else given.actorKind) &&
           (all[|s.audits| + i].sequence == 0 <== entries[i].unchained)
    decreases |entries|
  {
    if entries != [] {
      var next := Appended(link, s, entries[0]);
      LogKeepsEverything(link, next, entries[1..]);
      var all := AppendedAll(link, s, entries).audits;
      assert all[|s.audits|] == next.audits[|s.audits|];
      assert forall i | 1 <= i < |entries| :: entries[i] == entries[1..][i - 1];
    }
  }

  class Log {
    const link: Link
    var audits: seq<Event>
    var sequence: int
    var head: string

    function View(): Store
      reads this
    {
      Store(audits, Position(sequence, head))
    }

    ghost predicate Valid()
      reads this
    {
      Chained(link, View())
    }

    constructor (link: Link)
      ensures this.link == link && Valid() && View() == Store([], START)
    {
      this.link, audits, sequence, head := link, [], 0, GENESIS;
    }

    /** Appends an event, extending the chain unless it is to stay out of it. */
    method Append(given: Body, unchained: bool)
      requires Valid()
      modifies this
      ensures Valid() && View() == Appended(link, old(View()), Entry(given, unchained))
    {
      AppendKeepsChained(link, View(), Entry(given, unchained));
      var body := given;
      if given.actorKind == "" {
        body := given.(actorKind := "user");
      }
      if unchained {
        audits := audits + [Event(body, 0, "", "")];
        return;
      }
      var event := Event(body, sequence + 1, head, link(head, sequence + 1, body));
      sequence, head := event.sequence, event.hash;
      audits := audits + [event];
    }
  }

  /** The checkpoint an earlier report on the first `k` chained events gave. */
  function CheckpointAt(s: Store, k: nat): Position
    requires k <= |After(s.audits, 0)|
  {
    if k == 0 then Position(0, "") else Position(k, After(s.audits, 0)[k - 1].hash)
  }

  /** A log built by appending verifies, from the start and from every checkpoint in it. */
  lemma AppendedLogVerifies(link: Link, s: Store, k: nat)
    requires Chained(link, s) && k <= |After(s.audits, 0)|
    ensures Judge(link, CheckpointAt(s, k), After(s.audits, k), s.head)
  {
    StreamIsSuffix(link, s.audits, k);
    ResumeAt(link, After(s.audits, 0), k);
  }

  lemma {:induction false} HeadMoves(link: Link, s: Store, entries: seq<Entry>)
    ensures AppendedAll(link, s, entries).head.sequence >= s.head.sequence
    ensures AppendedAll(link, s, entries).head == s.head <==> forall e | e in entries :: e.unchained
    ensures (exists e | e in entries :: !e.unchained) ==>
      AppendedAll(link, s, entries).head.sequence > s.head.sequence
    decreases |entries|
  {
    if entries != [] {
      HeadMoves(link, Appended(link, s, entries[0]), entries[1..]);
      assert entries == [entries[0]] + entries[1..];
    }
  }

  /** The stream and the head are read one after the other: an honest log verifies exactly
      if no event was chained in between. */
  lemma HonestLogVerifiesIff(link: Link, s: Store, k: nat, between: seq<Entry>)
    requires Chained(link, s) && k <= |After(s.audits, 0)|
    ensures Judge(link, CheckpointAt(s, k), After(s.audits, k), AppendedAll(link, s, between).head) <==>
      forall e | e in between :: e.unchained
  {
    AppendedLogVerifies(link, s, k);
    HeadMoves(link, s, between);
  }

  lemma StreamIsSuffix(link: Link, audits: seq<Event>, k: nat)
    requires Follow(link, START, After(audits, 0)).Some? && k <= |After(audits, 0)|
    ensures After(audits, k) == After(audits, 0)[k..]
  {
    var chain := After(audits, 0);
    forall i | 0 <= i < |chain| ensures chain[i].sequence == 1 + i {
      FollowNumbers(link, START, chain, i);
    }
    AfterIsSuffix(chain, 0, k);
    AfterComposes(audits, 0, k);
  }

  lemma PrefixEnds(link: Link, chain: seq<Event>, k: nat)
    requires 0 < k <= |chain| && Follow(link, START, chain[..k]).Some?
    ensures Follow(link, START, chain[..k]) == Some(Position(k, chain[k - 1].hash)) && chain[k - 1].hash != ""
  {
    var prefix := chain[..k];
    FollowCounts(link, START, prefix);
    FollowEnds(link, START, prefix);
  }

  /** A verified chain can be followed on from the k-th event. */
  lemma ResumeAt(link: Link, chain: seq<Event>, k: nat)
    requires Follow(link, START, chain).Some? && k <= |chain|
    ensures var position := if k == 0 then Position(0, "") else Position(k, chain[k - 1].hash);
      Judge(link, position, chain[k..], Follow(link, START, chain).value)
  {
    TakeDrop(chain, k);
    if k > 0 {
      FollowSplits(link, START, chain[..k], chain[k..]);
      PrefixEnds(link, chain, k);
    }
  }

  lemma {:induction false} FollowEnds(link: Link, at: Position, events: seq<Event>)
    requires events != [] && Follow(link, at, events).Some?
    ensures Follow(link, at, events).value.hash == events[|events| - 1].hash
    ensures events[|events| - 1].hash != ""
    decreases |events|
  {
    if |events| > 1 {
      FollowEnds(link, Position(events[0].sequence, events[0].hash), events[1..]);
    } else {
      assert events[1..] == [];
    }
  }
}
