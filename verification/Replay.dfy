/** The replay guard for client assertions (section 3 of RFC 7523): a pruned map against the
    full history of calls. The clock is read before the lock is taken, so the readings of
    successive calls may come in any order. */
module Replay {
  import opened Common

  /** One call: the clock reading it took, the client and assertion identifiers, the expiry. */
  datatype Use = Use(now: Time, clientId: string, jwtId: string, expiresAt: Time)

  type Entries = map<string, Time>

  function Key(clientId: string, jwtId: string): string {
    clientId + "\0" + jwtId
  }

  function KeyOf(u: Use): string {
    Key(u.clientId, u.jwtId)
  }

  predicate SamePair(u: Use, v: Use) {
    u.clientId == v.clientId && u.jwtId == v.jwtId
  }

  /** Two pairs share a key only if they are the same pair, when no client identifier
      contains a NUL. */
  lemma KeyInjective(c: string, j: string, d: string, k: string)
    requires '\0' !in c && '\0' !in d && Key(c, j) == Key(d, k)
    ensures c == d && j == k
  {
    var key := Key(c, j);
    assert key[|c|] == '\0' && key[|d|] == '\0' by {
      assert key == d + "\0" + k;
    }
    assert forall i | 0 <= i < |c| :: key[i] == c[i];
    assert forall i | 0 <= i < |d| :: key[i] == d[i] by {
      assert key == d + "\0" + k;
    }
    assert |c| == |d|;
    assert c == key[..|c|] && d == key[..|c|] && j == key[|c| + 1..] && k == key[|c| + 1..];
  }

  // ----- the pruned map -----

  function Pruned(entries: Entries, now: Time): Entries {
    map key | key in entries && now < entries[key] :: entries[key]
  }

  datatype Outcome = Outcome(entries: Entries, ok: bool)

  function Step(entries: Entries, u: Use): Outcome {
    var live := Pruned(entries, u.now);
    if KeyOf(u) in live then Outcome(live, false) else Outcome(live[KeyOf(u) := u.expiresAt], true)
  }

  class MemoryReplayStore {
    var entries: Entries

    constructor ()
      ensures entries == map[]
    {
      entries := map[];
    }

    /** Prunes in place, then inserts if absent. */
    method Record(u: Use) returns (ok: bool)
      modifies this
      ensures Outcome(entries, ok) == Step(old(entries), u)
    {
      var todo := entries.Keys;
      while todo != {}
        invariant todo <= old(entries).Keys
        invariant entries == map key | key in old(entries) && (key in todo || u.now < old(entries)[key]) :: old(entries)[key]
        decreases |todo|
      {
        var key :| key in todo;
        if u.now >= entries[key] {
          entries := entries - {key};
        }
        todo := todo - {key};
      }
      assert entries == Pruned(old(entries), u.now);
      var key := Key(u.clientId, u.jwtId);
      if key in entries {
        return false;
      }
      entries := entries[key := u.expiresAt];
      return true;
    }
  }

  // ----- the full history -----

  datatype Answer = Answer(use: Use, ok: bool)

  /** The map, and every call answered so far. */
  datatype Trace = Trace(entries: Entries, log: seq<Answer>)

  const EMPTY := Trace(map[], [])

  function Advance(t: Trace, u: Use): Trace {
    var o := Step(t.entries, u);
    Trace(o.entries, t.log + [Answer(u, o.ok)])
  }

  function Run(uses: seq<Use>): (t: Trace)
    ensures |t.log| == |uses| && forall i | 0 <= i < |uses| :: t.log[i].use == uses[i]
  {
    if uses == [] then EMPTY else Advance(Run(uses[..|uses| - 1]), uses[|uses| - 1])
  }

  /** The i-th call succeeded, and no call since has read a time at or after its expiry. */
  predicate Alive(log: seq<Answer>, i: int) {
    && 0 <= i < |log| && log[i].ok
    && forall j | i < j < |log| :: log[j].use.now < log[i].use.expiresAt
  }

  /** The map holds exactly the successful calls that are alive. */
  ghost predicate Refines(t: Trace) {
    && (forall i :: Alive(t.log, i) ==>
          KeyOf(t.log[i].use) in t.entries && t.entries[KeyOf(t.log[i].use)] == t.log[i].use.expiresAt)
    && (forall key | key in t.entries ::
          exists i :: Alive(t.log, i) && KeyOf(t.log[i].use) == key && t.entries[key] == t.log[i].use.expiresAt)
  }

  /** One more call leaves alive what it does not read past. */
  lemma AliveLonger(log: seq<Answer>, a: Answer, i: int)
    ensures Alive(log + [a], i) <==>
      (i == |log| && a.ok) || (Alive(log, i) && a.use.now < log[i].use.expiresAt)
  {
    var longer := log + [a];
    assert forall j | 0 <= j < |log| :: longer[j] == log[j];
    if Alive(longer, i) && i < |log| {
      assert longer[|log|] == a;
    }
  }

  /** For any readings and any identifiers, a call keeps that. */
  lemma StepRefines(t: Trace, u: Use)
    requires Refines(t)
    ensures Refines(Advance(t, u))
  {
    var next := Advance(t, u);
    var a := next.log[|t.log|];
    forall i | Alive(next.log, i)
      ensures KeyOf(next.log[i].use) in next.entries && next.entries[KeyOf(next.log[i].use)] == next.log[i].use.expiresAt
    {
      AliveLonger(t.log, a, i);
    }
    forall key | key in next.entries
      ensures exists i :: Alive(next.log, i) && KeyOf(next.log[i].use) == key && next.entries[key] == next.log[i].use.expiresAt
    {
      if key == KeyOf(u) && a.ok {
        AliveLonger(t.log, a, |t.log|);
        assert Alive(next.log, |t.log|);
      } else {
        var i :| Alive(t.log, i) && KeyOf(t.log[i].use) == key && t.entries[key] == t.log[i].use.expiresAt;
        AliveLonger(t.log, a, i);
        assert Alive(next.log, i) && next.log[i] == t.log[i];
      }
    }
  }

  lemma {:induction false} RunRefines(uses: seq<Use>)
    ensures Refines(Run(uses))
  {
    if uses != [] {
      RunRefines(uses[..|uses| - 1]);
      StepRefines(Run(uses[..|uses| - 1]), uses[|uses| - 1]);
    }
  }

  /** A call is answered with the key of an earlier success that is alive and still valid. */
  ghost predicate Blocked(log: seq<Answer>, u: Use) {
    exists i :: Alive(log, i) && KeyOf(log[i].use) == KeyOf(u) && u.now < log[i].use.expiresAt
  }

  /** Exactly those calls are refused, for any readings and any identifiers. */
  lemma RefusedIffBlocked(uses: seq<Use>, u: Use)
    ensures Step(Run(uses).entries, u).ok <==> !Blocked(Run(uses).log, u)
  {
    RunRefines(uses);
  }

  // ----- by pair, under any clock -----

  predicate NulFree(uses: seq<Use>) {
    forall u | u in uses :: '\0' !in u.clientId
  }

  /** The i-th call succeeded for the same pair and is still valid. */
  predicate ValidBefore(log: seq<Answer>, i: int, u: Use) {
    0 <= i < |log| && log[i].ok && SamePair(log[i].use, u) && u.now < log[i].use.expiresAt
  }

  /** Some call after the i-th has read a time at or after its expiry. */
  predicate Overtaken(log: seq<Answer>, i: int)
    requires 0 <= i < |log|
  {
    exists j | i < j < |log| :: log[j].use.now >= log[i].use.expiresAt
  }

  lemma NulFreeAt(uses: seq<Use>, u: Use, i: int)
    requires NulFree(uses + [u]) && 0 <= i < |uses|
    ensures KeyOf(uses[i]) == KeyOf(u) <==> SamePair(uses[i], u)
  {
    assert uses[i] in uses + [u] && u in uses + [u];
    if KeyOf(uses[i]) == KeyOf(u) {
      KeyInjective(uses[i].clientId, uses[i].jwtId, u.clientId, u.jwtId);
    }
  }

  /** A use succeeds exactly when every earlier successful use of its pair that is still
      valid was followed by a call that read a time at or after that expiry. */
  lemma UseSucceedsIff(uses: seq<Use>, u: Use)
    requires NulFree(uses + [u])
    ensures var log := Run(uses).log;
      Step(Run(uses).entries, u).ok <==> forall i :: ValidBefore(log, i, u) ==> Overtaken(log, i)
  {
    var log := Run(uses).log;
    RefusedIffBlocked(uses, u);
    if Blocked(log, u) {
      var i :| Alive(log, i) && KeyOf(log[i].use) == KeyOf(u) && u.now < log[i].use.expiresAt;
      NulFreeAt(uses, u, i);
      assert ValidBefore(log, i, u) && !Overtaken(log, i);
    }
    forall i | ValidBefore(log, i, u) && !Overtaken(log, i) ensures Blocked(log, u) {
      NulFreeAt(uses, u, i);
      assert Alive(log, i);
    }
  }

  /** Some earlier successful use of the pair is still valid. */
  ghost predicate Replayed(log: seq<Answer>, u: Use) {
    exists i :: ValidBefore(log, i, u)
  }

  // ----- when the map answers as the history would -----

  /** Each call succeeds exactly when no earlier success of its pair is still valid. */
  ghost predicate AnswersAsHistory(uses: seq<Use>) {
    forall k | 0 <= k < |uses| :: Step(Run(uses[..k]).entries, uses[k]).ok <==> !Replayed(Run(uses[..k]).log, uses[k])
  }

  predicate Readings(uses: seq<Use>, readings: seq<Time>) {
    |uses| == |readings| && forall i | 0 <= i < |uses| :: uses[i].now == readings[i]
  }

  /** In order from the second on; the first call finds nothing to prune. */
  predicate InOrder(readings: seq<Time>) {
    forall i, j | 1 <= i < j < |readings| :: readings[i] <= readings[j]
  }

  /** Readings in order do not pass an expiry before the use that comes before it. */
  lemma OrderedNotOvertaken(uses: seq<Use>, readings: seq<Time>, k: nat, i: int)
    requires Readings(uses, readings) && InOrder(readings) && k < |uses| && ValidBefore(Run(uses[..k]).log, i, uses[k])
    ensures !Overtaken(Run(uses[..k]).log, i)
  {
    var log := Run(uses[..k]).log;
    forall j | i < j < |log| ensures log[j].use.now < log[i].use.expiresAt {
      assert log[j].use == uses[j] && readings[j] <= readings[k];
    }
  }

  lemma OrderedAnswer(uses: seq<Use>, readings: seq<Time>, k: nat)
    requires Readings(uses, readings) && NulFree(uses) && InOrder(readings) && k < |uses|
    ensures Step(Run(uses[..k]).entries, uses[k]).ok <==> !Replayed(Run(uses[..k]).log, uses[k])
  {
    var log := Run(uses[..k]).log;
    assert forall v | v in uses[..k] + [uses[k]] :: v in uses;
    UseSucceedsIff(uses[..k], uses[k]);
    forall i | ValidBefore(log, i, uses[k]) ensures !Overtaken(log, i) {
      OrderedNotOvertaken(uses, readings, k, i);
    }
  }

  /** With readings in order, each use succeeds exactly when no earlier successful use of
      its pair is still valid. */
  lemma UseIffFresh(uses: seq<Use>, readings: seq<Time>)
    requires Readings(uses, readings) && NulFree(uses) && InOrder(readings)
    ensures AnswersAsHistory(uses)
  {
    forall k | 0 <= k < |uses|
      ensures Step(Run(uses[..k]).entries, uses[k]).ok <==> !Replayed(Run(uses[..k]).log, uses[k])
    {
      OrderedAnswer(uses, readings, k);
    }
  }

  /** The failing input for readings out of order: a use expiring at the i-th reading, the
      same again as the j-th call, and another pair in between. */
  function Overtaking(readings: seq<Time>, i: nat, j: nat): (uses: seq<Use>)
    requires 1 <= i < j < |readings|
    ensures Readings(uses, readings) && NulFree(uses)
  {
    seq(|readings|, k requires 0 <= k < |readings| =>
      Use(readings[k], "client", if k == 0 || k == j then "a" else "b", if k == 0 then readings[i] else readings[k]))
  }

  lemma OvertakenUsePasses(readings: seq<Time>, i: nat, j: nat)
    requires 1 <= i < j < |readings| && readings[i] > readings[j]
    ensures var uses := Overtaking(readings, i, j);
      Step(Run(uses[..j]).entries, uses[j]).ok && Replayed(Run(uses[..j]).log, uses[j])
  {
    var uses := Overtaking(readings, i, j);
    var before, u := uses[..j], uses[j];
    var log := Run(before).log;
    assert forall v | v in before + [u] :: v in uses;
    UseSucceedsIff(before, u);
    FirstSucceeds(before);
    assert log[0].use == uses[0] && log[i].use == uses[i];
    assert ValidBefore(log, 0, u);
    forall k | ValidBefore(log, k, u) ensures Overtaken(log, k) {
      assert log[k].use == uses[k];
      assert log[i].use.now >= log[0].use.expiresAt;
    }
  }

  lemma {:induction false} FirstSucceeds(uses: seq<Use>)
    requires uses != []
    ensures Run(uses).log[0].ok
  {
    if |uses| > 1 {
      FirstSucceeds(uses[..|uses| - 1]);
    } else {
      assert uses[..0] == [];
    }
  }

  /** Exactly the readings in order make every run answer as the history would. */
  lemma ClockOrderIff(readings: seq<Time>)
    ensures InOrder(readings) <==>
      forall uses :: Readings(uses, readings) && NulFree(uses) ==> AnswersAsHistory(uses)
  {
    if InOrder(readings) {
      forall uses | Readings(uses, readings) && NulFree(uses) ensures AnswersAsHistory(uses) {
        UseIffFresh(uses, readings);
      }
    } else {
      var i, j :| 1 <= i < j < |readings| && readings[i] > readings[j];
      OvertakenUsePasses(readings, i, j);
      assert !AnswersAsHistory(Overtaking(readings, i, j));
    }
  }

  // ----- which identifiers may be used together -----

  type Pair = (string, string)

  predicate Drawn(uses: seq<Use>, pairs: set<Pair>) {
    forall u | u in uses :: (u.clientId, u.jwtId) in pairs
  }

  predicate KeysDistinct(pairs: set<Pair>) {
    forall p, q | p in pairs && q in pairs :: Key(p.0, p.1) == Key(q.0, q.1) ==> p == q
  }

  predicate Steady(uses: seq<Use>) {
    forall i, j | 0 <= i < j < |uses| :: uses[i].now <= uses[j].now
  }

  lemma DistinctKeysTellApart(u: Use, v: Use, pairs: set<Pair>)
    requires KeysDistinct(pairs) && (u.clientId, u.jwtId) in pairs && (v.clientId, v.jwtId) in pairs
    ensures KeyOf(u) == KeyOf(v) <==> SamePair(u, v)
  {
  }

  /** Under a steady clock and distinct keys, a use is blocked exactly by a valid earlier one. */
  lemma BlockedIsReplayed(log: seq<Answer>, u: Use)
    requires forall i | 0 <= i < |log| :: KeyOf(log[i].use) == KeyOf(u) <==> SamePair(log[i].use, u)
    requires forall i | 0 <= i < |log| :: log[i].use.now <= u.now
    ensures Blocked(log, u) <==> Replayed(log, u)
  {
    if Blocked(log, u) {
      var i :| Alive(log, i) && KeyOf(log[i].use) == KeyOf(u) && u.now < log[i].use.expiresAt;
      assert ValidBefore(log, i, u);
    }
    if Replayed(log, u) {
      var i :| ValidBefore(log, i, u);
      assert Alive(log, i);
    }
  }

  lemma DistinctKeysAnswer(uses: seq<Use>, pairs: set<Pair>, k: nat)
    requires Drawn(uses, pairs) && KeysDistinct(pairs) && Steady(uses) && k < |uses|
    ensures Step(Run(uses[..k]).entries, uses[k]).ok <==> !Replayed(Run(uses[..k]).log, uses[k])
  {
    var u, log := uses[k], Run(uses[..k]).log;
    RefusedIffBlocked(uses[..k], u);
    forall i | 0 <= i < |log|
      ensures KeyOf(log[i].use) == KeyOf(u) <==> SamePair(log[i].use, u)
      ensures log[i].use.now <= u.now
    {
      assert log[i].use == uses[i] && uses[i] in uses && u in uses;
      DistinctKeysTellApart(uses[i], u, pairs);
    }
    BlockedIsReplayed(log, u);
  }

  lemma DistinctKeysSuffice(uses: seq<Use>, pairs: set<Pair>)
    requires Drawn(uses, pairs) && KeysDistinct(pairs) && Steady(uses)
    ensures AnswersAsHistory(uses)
  {
    forall k | 0 <= k < |uses|
      ensures Step(Run(uses[..k]).entries, uses[k]).ok <==> !Replayed(Run(uses[..k]).log, uses[k])
    {
      DistinctKeysAnswer(uses, pairs, k);
    }
  }

  /** Two different pairs with one key: the second is refused although never used. */
  lemma SharedKeyRefuses(p: Pair, q: Pair, now: Time)
    requires p != q && Key(p.0, p.1) == Key(q.0, q.1)
    ensures !AnswersAsHistory([Use(now, p.0, p.1, now + 1), Use(now, q.0, q.1, now + 1)])
  {
    var u, v := Use(now, p.0, p.1, now + 1), Use(now, q.0, q.1, now + 1);
    var uses := [u, v];
    assert uses[..1] == [u] && [u][..0] == [];
    assert Run([u]) == Advance(EMPTY, u);
    assert Run([u]).log == [Answer(u, true)];
    assert !Replayed(Run(uses[..1]).log, uses[1]);
    assert !Step(Run(uses[..1]).entries, uses[1]).ok;
  }

  /** Exactly the sets of pairs with distinct keys can be used together, under a steady
      clock: identifiers without a NUL are such, and a NUL can make two pairs share one. */
  lemma SharedKeyIff(pairs: set<Pair>)
    ensures KeysDistinct(pairs) <==> forall uses :: Drawn(uses, pairs) && Steady(uses) ==> AnswersAsHistory(uses)
  {
    if KeysDistinct(pairs) {
      forall uses | Drawn(uses, pairs) && Steady(uses) ensures AnswersAsHistory(uses) {
        DistinctKeysSuffice(uses, pairs);
      }
    } else {
      var p, q :| p in pairs && q in pairs && Key(p.0, p.1) == Key(q.0, q.1) && p != q;
      var uses := [Use(0, p.0, p.1, 1), Use(0, q.0, q.1, 1)];
      SharedKeyRefuses(p, q, 0);
      assert Drawn(uses, pairs) && Steady(uses);
    }
  }

  /** A NUL makes such a pair: the separator can sit in either identifier. */
  lemma NulSharesKey(a: string, b: string, c: string)
    ensures Key(a + "\0" + b, c) == Key(a, b + "\0" + c) && (a + "\0" + b, c) != (a, b + "\0" + c)
  {
    assert |a + "\0" + b| > |a|;
  }

  // ----- once per window -----

  /** After a success, its pair is refused until some call, this one or one in between, has
      read a time at or after the expiry: for any readings and any identifiers. */
  lemma {:induction false} OncePerWindow(uses: seq<Use>, i: nat, k: nat)
    requires i < k < |uses| && SamePair(uses[i], uses[k]) && Run(uses).log[i].ok
    requires forall j | i < j <= k :: uses[j].now < uses[i].expiresAt
    ensures !Run(uses).log[k].ok
  {
    LogOfPrefix(uses, k);
    var log, u := Run(uses[..k]).log, uses[k];
    RefusedIffBlocked(uses[..k], u);
    assert log[i] == Run(uses).log[i];
    assert forall j | i < j < k :: log[j].use == uses[j];
    assert Alive(log, i) && KeyOf(log[i].use) == KeyOf(u);
  }

  lemma LastAnswer(uses: seq<Use>)
    requires uses != []
    ensures var n := |uses| - 1;
      |Run(uses[..n]).log| == n &&
      Run(uses).log == Run(uses[..n]).log + [Answer(uses[n], Step(Run(uses[..n]).entries, uses[n]).ok)]
  {
  }

  lemma {:induction false} LogOfPrefix(uses: seq<Use>, k: nat)
    requires k < |uses|
    ensures Run(uses).log[..k] == Run(uses[..k]).log
    ensures Run(uses).log[k] == Answer(uses[k], Step(Run(uses[..k]).entries, uses[k]).ok)
  {
    var n := |uses| - 1;
    LastAnswer(uses);
    if k < n {
      var before := uses[..n];
      assert before[..k] == uses[..k] && before[k] == uses[k];
      LogOfPrefix(before, k);
      assert Run(uses).log[..k] == Run(before).log[..k];
    }
  }

  /** So with readings in order each pair succeeds at most once per validity window. */
  lemma {:induction false} EachPairOncePerWindow(uses: seq<Use>, i: nat, k: nat)
    requires i < k < |uses| && SamePair(uses[i], uses[k]) && Run(uses).log[i].ok
    requires uses[k].now < uses[i].expiresAt && forall j | i < j < k :: uses[j].now <= uses[k].now
    ensures !Run(uses).log[k].ok
  {
    OncePerWindow(uses, i, k);
  }
}
