/** The byte string an audit event is hashed as. Text is a sequence of characters standing
    for bytes. */
module AuditEncoding {
  import opened Common
  import opened Uuid

  /** The fields of an audit event that are hashed beside its sequence number. */
  datatype Body = Body(
    id: UUID, occurredAt: Time, actorKind: string, actorId: UUID, action: string,
    resourceType: string, resourceId: string, workspaceId: UUID, outcome: string,
    reason: string, ipAddress: string, userAgent: string)

  datatype Event = Event(body: Body, sequence: int, previousHash: string, hash: string)

  // ----- decimal numbers -----

  predicate IsDigit(c: char) { '0' <= c <= '9' }

  function Digit(d: int): (c: char)
    requires 0 <= d < 10
    ensures IsDigit(c) && c as int == '0' as int + d
  {
    '0' + d as char
  }

  function Decimal(n: nat): (s: string)
    ensures s != "" && forall i | 0 <= i < |s| :: IsDigit(s[i])
  {
    if n < 10 then [Digit(n)] else Decimal(n / 10) + [Digit(n % 10)]
  }

  function Itoa(n: int): (s: string)
    ensures s != "" && (s[0] == '-' <==> n < 0)
  {
    if n < 0 then "-" + Decimal(-n) else Decimal(n)
  }

  lemma {:induction false} DecimalInjective(m: nat, n: nat)
    requires Decimal(m) == Decimal(n)
    ensures m == n
  {
    var s, t := Decimal(m), Decimal(n);
    if m >= 10 && n >= 10 {
      assert s[..|s| - 1] == Decimal(m / 10) && t[..|t| - 1] == Decimal(n / 10);
      DecimalInjective(m / 10, n / 10);
      assert s[|s| - 1] == Digit(m % 10) && t[|t| - 1] == Digit(n % 10);
    } else if m < 10 && n < 10 {
      assert s[0] == Digit(m) && t[0] == Digit(n);
    }
  }

  lemma ItoaInjective(m: int, n: int)
    requires Itoa(m) == Itoa(n)
    ensures m == n
  {
    var s, t := Itoa(m), Itoa(n);
    if m < 0 && n < 0 {
      assert s[1..] == Decimal(-m) && t[1..] == Decimal(-n);
      DecimalInjective(-m, -n);
    } else if m >= 0 && n >= 0 {
      DecimalInjective(m, n);
    }
  }

  // ----- length-prefixed fields -----

  function Frame(value: string): string {
    Decimal(|value|) + ":" + value + ";"
  }

  function Frames(values: seq<string>): string {
    if values == [] then "" else Frame(values[0]) + Frames(values[1..])
  }

  /** The digits before the first colon are determined by the text. */
  lemma PrefixInjective(d: string, r: string, e: string, t: string)
    requires d + ":" + r == e + ":" + t
    requires (forall i | 0 <= i < |d| :: IsDigit(d[i])) && (forall i | 0 <= i < |e| :: IsDigit(e[i]))
    ensures d == e && r == t
  {
    var whole := d + ":" + r;
    assert whole[|d|] == ':' && whole[|e|] == ':' by {
      assert whole == e + ":" + t;
    }
    assert forall i | 0 <= i < |d| :: whole[i] == d[i];
    assert forall i | 0 <= i < |e| :: whole[i] == e[i] by {
      assert whole == e + ":" + t;
    }
    assert |d| == |e|;
    assert d == whole[..|d|] && e == whole[..|e|];
    assert r == whole[|d| + 1..] && t == whole[|e| + 1..];
  }

  /** One frame can be read off the front of a text in only one way. */
  lemma FrameInjective(a: string, x: string, b: string, y: string)
    requires Frame(a) + x == Frame(b) + y
    ensures a == b && x == y
  {
    var r, t := a + ";" + x, b + ";" + y;
    assert Frame(a) + x == Decimal(|a|) + ":" + r;
    assert Frame(b) + y == Decimal(|b|) + ":" + t;
    PrefixInjective(Decimal(|a|), r, Decimal(|b|), t);
    DecimalInjective(|a|, |b|);
    assert a == r[..|a|] && b == t[..|b|];
    assert x == r[|a| + 1..] && y == t[|b| + 1..];
  }

  lemma {:induction false} FramesInjective(xs: seq<string>, ys: seq<string>)
    requires |xs| == |ys| && Frames(xs) == Frames(ys)
    ensures xs == ys
  {
    if xs != [] {
      FrameInjective(xs[0], Frames(xs[1..]), ys[0], Frames(ys[1..]));
      FramesInjective(xs[1..], ys[1..]);
      assert xs == [xs[0]] + xs[1..] && ys == [ys[0]] + ys[1..];
    }
  }

  // ----- the hashed message -----

  /** An absent identifier is hashed as the empty text. */
  function HashedId(id: UUID): string {
    if id == ZERO then "" else Text(id)
  }

  lemma HashedIdInjective(a: UUID, b: UUID)
    requires HashedId(a) == HashedId(b)
    ensures a == b
  {
    if a != ZERO && b != ZERO {
      TextInjective(a, b);
    }
  }

  /** Microseconds since the epoch, rounded down. */
  function UnixMicro(at: Time): int { at / 1000 }

  /** The thirteen fields in the order in which they are hashed, with the texts of the
      numbers and the identifiers. */
  function Placed(sequence: string, id: string, micros: string, actorId: string, workspaceId: string, b: Body)
    : (fields: seq<string>)
    ensures |fields| == 13
  {
    [sequence, id, micros, b.actorKind, actorId, b.action, b.resourceType, b.resourceId, workspaceId, b.outcome,
     b.reason, b.ipAddress, b.userAgent]
  }

  function Fields(sequence: int, b: Body): (fields: seq<string>)
    ensures |fields| == 13
  {
    Placed(Itoa(sequence), HashedId(b.id), Itoa(UnixMicro(b.occurredAt)), HashedId(b.actorId), HashedId(b.workspaceId), b)
  }

  const GENESIS: string := "\0\0\0\0\0\0\0\0\0\0\0\0\0\0\0\0\0\0\0\0\0\0\0\0\0\0\0\0\0\0\0\0"

  lemma GenesisIsZero()
    ensures |GENESIS| == 32 && forall c | c in GENESIS :: c as int == 0
  {
  }

  /** An absent predecessor is hashed as 32 zero bytes. */
  function Message(previous: string, sequence: int, body: Body): string {
    (if previous == "" then GENESIS else previous) + Frames(Fields(sequence, body))
  }

  /** Two events say the same, with times in the same microsecond. */
  predicate SameBody(a: Body, b: Body) {
    a.occurredAt / 1000 == b.occurredAt / 1000 && a.(occurredAt := 0) == b.(occurredAt := 0)
  }

  lemma FieldsInjective(m: int, a: Body, n: int, b: Body)
    requires Fields(m, a) == Fields(n, b)
    ensures m == n && SameBody(a, b)
  {
    var x, y := Fields(m, a), Fields(n, b);
    assert forall i | 0 <= i < 13 :: x[i] == y[i];
    ItoaInjective(m, n);
    ItoaInjective(UnixMicro(a.occurredAt), UnixMicro(b.occurredAt));
    HashedIdInjective(a.id, b.id);
    HashedIdInjective(a.actorId, b.actorId);
    HashedIdInjective(a.workspaceId, b.workspaceId);
  }

  /** The hashed text determines the predecessor and every hashed field. */
  lemma MessageInjective(p: string, m: int, a: Body, q: string, n: int, b: Body)
    requires |p| == |q| && Message(p, m, a) == Message(q, n, b)
    ensures p == q && m == n && SameBody(a, b)
  {
    var k := if p == "" then 32 else |p|;
    var message := Message(p, m, a);
    assert message[..k] == if p == "" then GENESIS else p;
    assert message[..k] == if q == "" then GENESIS else q;
    assert message[k..] == Frames(Fields(m, a)) && message[k..] == Frames(Fields(n, b));
    FramesInjective(Fields(m, a), Fields(n, b));
    FieldsInjective(m, a, n, b);
  }

  // ----- reading a message back -----

  predicate AllDigits(s: string) {
    forall i | 0 <= i < |s| :: IsDigit(s[i])
  }

  /** The number a row of digits stands for in base ten. */
  function Natural(s: string): nat
    requires AllDigits(s)
  {
    if s == "" then 0 else 10 * Natural(s[..|s| - 1]) + (s[|s| - 1] as int - '0' as int)
  }

  function Integer(s: string): Option<int> {
    var negative := |s| > 1 && s[0] == '-';
    var digits := if negative then s[1..] else s;
    if digits == "" || !AllDigits(digits) then None
    else
      var magnitude: int := Natural(digits);
      Some(if negative then -magnitude else magnitude)
  }

  function Identifier(s: string): Option<UUID> {
    if s == "" then Some(ZERO) else ParseUUID(s)
  }

  /** How many digits a text starts with. */
  function Digits(text: string): (k: nat)
    ensures k <= |text| && AllDigits(text[..k]) && (k < |text| ==> !IsDigit(text[k]))
  {
    if text == "" || !IsDigit(text[0]) then 0 else 1 + Digits(text[1..])
  }

  /** The first field of a text: a length, a colon, that many characters and a semicolon. */
  function ReadFrame(text: string): Option<(string, string)> {
    var k := Digits(text);
    if k == 0 || k == |text| || text[k] != ':' then None
    else
      var end := k + 1 + Natural(text[..k]);
      if end >= |text| || text[end] != ';' then None else Some((text[k + 1..end], text[end + 1..]))
  }

  /** The fields of a text that consists of `n` of them. */
  function ReadFrames(text: string, n: nat): (r: Option<seq<string>>)
    ensures r.Some? ==> |r.value| == n
  {
    if n == 0 then (if text == "" then Some([]) else None)
    else
      match ReadFrame(text)
      case None => None
      case Some((first, rest)) =>
        match ReadFrames(rest, n - 1)
        case None => None
        case Some(others) => Some([first] + others)
  }

  /** The hash of the predecessor, and the sequence number and body that follow it. */
  datatype Reading = Reading(previous: string, sequence: int, body: Body)

  /** The event of thirteen fields, each at its place, of which five are numbers and
      identifiers. */
  function Assemble(previous: string, f: seq<string>, sequence: Option<int>, id: Option<UUID>, micros: Option<int>,
                    actorId: Option<UUID>, workspaceId: Option<UUID>): Option<Reading>
    requires |f| == 13
  {
    if sequence.None? || id.None? || micros.None? || actorId.None? || workspaceId.None? then None
    else
      Some(Reading(previous, sequence.value,
                   Body(id.value, 1000 * micros.value, f[3], actorId.value, f[5], f[6], f[7], workspaceId.value, f[9],
                        f[10], f[11], f[12])))
  }

  /** How numbers and identifiers are read. */
  datatype Readers = Readers(number: string -> Option<int>, ident: string -> Option<UUID>)

  function ReadFields(r: Readers, previous: string, f: seq<string>): Option<Reading>
    requires |f| == 13
  {
    Assemble(previous, f, r.number(f[0]), r.ident(f[1]), r.number(f[2]), r.ident(f[4]), r.ident(f[8]))
  }

  /** Reads a message: 32 bytes, then the fields. */
  function ReadMessage(r: Readers, text: string): Option<Reading> {
    if |text| < 32 then None
    else
      var fields := ReadFrames(text[32..], 13);
      if fields.None? then None else ReadFields(r, text[..32], fields.value)
  }

  lemma {:induction false} NaturalOfDecimal(n: nat)
    ensures Natural(Decimal(n)) == n
  {
    var s := Decimal(n);
    if n >= 10 {
      NaturalOfDecimal(n / 10);
      assert s[..|s| - 1] == Decimal(n / 10) && s[|s| - 1] == Digit(n % 10);
    } else {
      assert s == [Digit(n)] && s[..0] == "";
      assert Natural(s) == 10 * Natural(s[..0]) + n;
    }
  }

  lemma IntegerOfItoa(n: int)
    ensures Integer(Itoa(n)) == Some(n)
  {
    if n < 0 {
      NaturalOfDecimal(-n);
      assert Itoa(n)[1..] == Decimal(-n) && !IsDigit(Itoa(n)[0]);
    } else {
      NaturalOfDecimal(n);
    }
  }

  /** The readers undo the hashed forms. */
  ghost predicate Inverts(r: Readers) {
    (forall n :: r.number(Itoa(n)) == Some(n)) && (forall id: UUID :: r.ident(HashedId(id)) == Some(id))
  }

  lemma PlainReadersInvert()
    ensures Inverts(Readers(Integer, Identifier))
  {
    forall n ensures Integer(Itoa(n)) == Some(n) {
      IntegerOfItoa(n);
    }
    forall id: UUID ensures Identifier(HashedId(id)) == Some(id) {
      IdentifierOfHashed(id);
    }
  }

  lemma IdentifierOfHashed(id: UUID)
    ensures Identifier(HashedId(id)) == Some(id)
  {
    if id != ZERO {
      ParseText(id);
    }
  }

  lemma {:induction false} DigitsOf(d: string, rest: string)
    requires AllDigits(d)
    ensures Digits(d + ":" + rest) == |d|
  {
    var text := d + ":" + rest;
    if d != "" {
      DigitsOf(d[1..], rest);
      assert text[1..] == d[1..] + ":" + rest && text[0] == d[0];
    }
  }

  lemma ReadFrameOf(value: string, rest: string)
    ensures ReadFrame(Frame(value) + rest) == Some((value, rest))
  {
    var d, text := Decimal(|value|), Frame(value) + rest;
    assert text == d + ":" + (value + ";" + rest);
    DigitsOf(d, value + ";" + rest);
    NaturalOfDecimal(|value|);
    assert text[..|d|] == d && text[|d| + 1..] == value + ";" + rest;
    assert text[|d| + 1..|d| + 1 + |value|] == value && text[|d| + 1 + |value| + 1..] == rest;
  }

  lemma ReadMore(text: string, first: string, rest: string, others: seq<string>)
    requires ReadFrame(text) == Some((first, rest)) && ReadFrames(rest, |others|) == Some(others)
    ensures ReadFrames(text, |others| + 1) == Some([first] + others)
  {
  }

  lemma {:induction false} ReadFramesOf(values: seq<string>)
    ensures ReadFrames(Frames(values), |values|) == Some(values)
  {
    if values != [] {
      var rest := Frames(values[1..]);
      ReadFrameOf(values[0], rest);
      ReadFramesOf(values[1..]);
      ReadMore(Frame(values[0]) + rest, values[0], rest, values[1..]);
      assert [values[0]] + values[1..] == values;
    }
  }

  lemma ReadPlaced(r: Readers, previous: string, number: string, id: string, micros: string, actorId: string,
                   workspaceId: string, sequence: int, b: Body)
    requires r.number(number) == Some(sequence) && r.number(micros) == Some(UnixMicro(b.occurredAt))
    requires r.ident(id) == Some(b.id) && r.ident(actorId) == Some(b.actorId) && r.ident(workspaceId) == Some(b.workspaceId)
    ensures ReadFields(r, previous, Placed(number, id, micros, actorId, workspaceId, b)) ==
      Some(Reading(previous, sequence, b.(occurredAt := b.occurredAt - b.occurredAt % 1000)))
  {
  }

  lemma ReadsOne(r: Readers, id: UUID, n: int)
    requires Inverts(r)
    ensures r.ident(HashedId(id)) == Some(id) && r.number(Itoa(n)) == Some(n)
  {
  }

  lemma ReadFieldsOf(r: Readers, previous: string, sequence: int, b: Body)
    requires Inverts(r)
    ensures ReadFields(r, previous, Fields(sequence, b)) ==
      Some(Reading(previous, sequence, b.(occurredAt := b.occurredAt - b.occurredAt % 1000)))
  {
    ReadsOne(r, b.id, sequence);
    ReadsOne(r, b.actorId, UnixMicro(b.occurredAt));
    ReadsOne(r, b.workspaceId, sequence);
    ReadPlaced(r, previous, Itoa(sequence), HashedId(b.id), Itoa(UnixMicro(b.occurredAt)), HashedId(b.actorId),
               HashedId(b.workspaceId), sequence, b);
  }

  /** A message is read back as the event it was made of: every field from its place, the
      time down to its microsecond. */
  lemma ReadMessageOf(r: Readers, previous: string, sequence: int, b: Body)
    requires Inverts(r) && (previous == "" || |previous| == 32)
    ensures ReadMessage(r, Message(previous, sequence, b)) ==
      Some(Reading(if previous == "" then GENESIS else previous, sequence,
                   b.(occurredAt := b.occurredAt - b.occurredAt % 1000)))
  {
    var text, first := Message(previous, sequence, b), if previous == "" then GENESIS else previous;
    assert text[32..] == Frames(Fields(sequence, b)) && text[..32] == first;
    ReadFramesOf(Fields(sequence, b));
    ReadFieldsOf(r, first, sequence, b);
  }
}
