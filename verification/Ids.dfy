/** Identifier generation: UUIDv7 (sections 5.7 and 6.2 of RFC 9562) under any clock. */
module Ids {
  import opened Common
  import opened Uuid

  /** The last millisecond used and the sequence number within it. */
  datatype Counter = Counter(unixMilli: nat, sequence: nat)

  const ZERO_COUNTER := Counter(0, 0)

  const SEQUENCE_LIMIT := 4096
  const MILLI_LIMIT := 0x1_0000_0000_0000

  /** One call: the clock reading in milliseconds, and sixteen random bytes if the source
      yields them. */
  datatype Call = Call(now: int, random: Option<UUID>)

  predicate CounterOk(c: Counter) { c.sequence < SEQUENCE_LIMIT }

  /** The counter moves on every call, also when the random source then fails. */
  function Tick(c: Counter, now: int): Counter {
    if now > c.unixMilli then Counter(now, 0)
    else if c.sequence == SEQUENCE_LIMIT - 1 then Counter(c.unixMilli + 1, 0)
    else Counter(c.unixMilli, c.sequence + 1)
  }

  function VariantByte(r: UUID): Byte { r[8] % 64 + 0x80 }

  /** 48 bits of milliseconds, version 7 and twelve bits of sequence. */
  function Head(c: Counter): (head: Bytes)
    requires CounterOk(c)
    ensures |head| == 8
  {
    BigEndian(c.unixMilli, 6) + [0x70 + c.sequence / 256] + [c.sequence % 256]
  }

  /** The head, the RFC variant, and 62 random bits. */
  function Layout(c: Counter, random: UUID): UUID
    requires CounterOk(c)
  {
    Head(c) + ([VariantByte(random)] + random[9..])
  }

  predicate ValidUUIDv7(id: UUID) {
    id[6] / 16 == 7 && id[8] / 64 == 2
  }

  // ----- order -----

  /** The order of byte strings. */
  predicate Less(a: Bytes, b: Bytes) {
    exists i | 0 <= i < |a| && i < |b| :: a[..i] == b[..i] && a[i] < b[i]
  }

  lemma LessIrreflexive(a: Bytes)
    ensures !Less(a, a)
  {
  }

  lemma LessExtends(a: Bytes, b: Bytes, x: Bytes, y: Bytes)
    requires Less(a, b)
    ensures Less(a + x, b + y)
  {
    var i :| 0 <= i < |a| && i < |b| && a[..i] == b[..i] && a[i] < b[i];
    assert (a + x)[..i] == a[..i] && (b + y)[..i] == b[..i];
    assert (a + x)[i] < (b + y)[i];
  }

  lemma LessAfter(p: Bytes, a: Byte, b: Byte, x: Bytes, y: Bytes)
    requires a < b
    ensures Less(p + [a] + x, p + [b] + y)
  {
    var s, t := p + [a] + x, p + [b] + y;
    assert s[..|p|] == p && t[..|p|] == p && s[|p|] == a && t[|p|] == b;
  }

  lemma {:induction false} BigEndianOrder(m: nat, n: nat, k: nat)
    requires m < n < Pow256(k)
    ensures Less(BigEndian(m, k), BigEndian(n, k))
  {
    if m / 256 < n / 256 {
      BigEndianOrder(m / 256, n / 256, k - 1);
      LessExtends(BigEndian(m / 256, k - 1), BigEndian(n / 256, k - 1), [m % 256], [n % 256]);
    } else {
      var p := BigEndian(m / 256, k - 1);
      LessAfter(p, m % 256, n % 256, [], []);
      assert p + [m % 256] + [] == BigEndian(m, k) && p + [n % 256] + [] == BigEndian(n, k);
    }
  }

  predicate Before(c: Counter, d: Counter) {
    c.unixMilli < d.unixMilli || (c.unixMilli == d.unixMilli && c.sequence < d.sequence)
  }

  lemma HeadOrder(c: Counter, d: Counter)
    requires CounterOk(c) && CounterOk(d) && Before(c, d) && d.unixMilli < MILLI_LIMIT
    ensures Less(Head(c), Head(d))
  {
    var p, q := BigEndian(c.unixMilli, 6), BigEndian(d.unixMilli, 6);
    var c6, c7, d6, d7 := 0x70 + c.sequence / 256, c.sequence % 256, 0x70 + d.sequence / 256, d.sequence % 256;
    if c.unixMilli < d.unixMilli {
      assert Pow256(6) == MILLI_LIMIT;
      BigEndianOrder(c.unixMilli, d.unixMilli, 6);
      LessExtends(p, q, [c6], [d6]);
      LessExtends(p + [c6], q + [d6], [c7], [d7]);
    } else if c6 < d6 {
      LessAfter(p, c6, d6, [c7], [d7]);
    } else {
      LessAfter(p + [c6], c7, d7, [], []);
      assert Head(c) + [] == Head(c) && Head(d) + [] == Head(d);
    }
  }

  /** Identifiers are ordered as their counters are, whatever the random bytes. */
  lemma LayoutOrder(c: Counter, d: Counter, r: UUID, s: UUID)
    requires CounterOk(c) && CounterOk(d) && Before(c, d) && d.unixMilli < MILLI_LIMIT
    ensures Less(Layout(c, r), Layout(d, s))
  {
    HeadOrder(c, d);
    LessExtends(Head(c), Head(d), [VariantByte(r)] + r[9..], [VariantByte(s)] + s[9..]);
  }

  // ----- whole runs -----

  function Run(c: Counter, calls: seq<Call>): Counter
    decreases |calls|
  {
    if calls == [] then c else Run(Tick(c, calls[0].now), calls[1..])
  }

  /** The identifiers a run of calls returns, in order. */
  function Issued(c: Counter, calls: seq<Call>): seq<UUID>
    requires CounterOk(c)
    decreases |calls|
  {
    if calls == [] then []
    else
      var d := Tick(c, calls[0].now);
      (if calls[0].random.Some? then [Layout(d, calls[0].random.value)] else []) + Issued(d, calls[1..])
  }

  lemma {:induction false} RunAdvances(c: Counter, calls: seq<Call>)
    requires CounterOk(c)
    ensures CounterOk(Run(c, calls)) && c.unixMilli <= Run(c, calls).unixMilli
    decreases |calls|
  {
    if calls != [] {
      RunAdvances(Tick(c, calls[0].now), calls[1..]);
    }
  }

  /** Every identifier issued later comes from a later counter. */
  lemma {:induction false} IssuedLater(c: Counter, calls: seq<Call>, id: UUID) returns (d: Counter, r: UUID)
    requires CounterOk(c) && id in Issued(c, calls)
    ensures CounterOk(d) && Before(c, d) && d.unixMilli <= Run(c, calls).unixMilli && id == Layout(d, r)
    decreases |calls|
  {
    var next := Tick(c, calls[0].now);
    RunAdvances(next, calls[1..]);
    if calls[0].random.Some? && id == Layout(next, calls[0].random.value) {
      d, r := next, calls[0].random.value;
    } else {
      d, r := IssuedLater(next, calls[1..], id);
    }
  }

  /** For any clock readings, backward ones too, and any random bytes and failures, the
      identifiers issued are strictly increasing version 7 UUIDs while the milliseconds fit
      in 48 bits. */
  lemma {:induction false} IssuedIncrease(c: Counter, calls: seq<Call>)
    requires CounterOk(c) && Run(c, calls).unixMilli < MILLI_LIMIT
    ensures forall i, j | 0 <= i < j < |Issued(c, calls)| :: Less(Issued(c, calls)[i], Issued(c, calls)[j])
    ensures forall id | id in Issued(c, calls) :: ValidUUIDv7(id)
    decreases |calls|
  {
    if calls != [] {
      var d := Tick(c, calls[0].now);
      IssuedIncrease(d, calls[1..]);
      if calls[0].random.Some? {
        var first := Layout(d, calls[0].random.value);
        LayoutIsV7(d, calls[0].random.value);
        forall id | id in Issued(d, calls[1..]) ensures Less(first, id) {
          var e, r := IssuedLater(d, calls[1..], id);
          LayoutOrder(d, e, calls[0].random.value, r);
        }
      }
    }
  }

  lemma LayoutIsV7(c: Counter, r: UUID)
    requires CounterOk(c)
    ensures ValidUUIDv7(Layout(c, r)) && Layout(c, r) != ZERO
  {
    assert Layout(c, r)[6] == 0x70 + c.sequence / 256 && Layout(c, r)[8] == VariantByte(r);
  }

  /** No identifier is issued twice, and none is the zero UUID. */
  lemma IssuedDistinct(c: Counter, calls: seq<Call>)
    requires CounterOk(c) && Run(c, calls).unixMilli < MILLI_LIMIT
    ensures forall i, j | 0 <= i < j < |Issued(c, calls)| :: Issued(c, calls)[i] != Issued(c, calls)[j]
    ensures ZERO !in Issued(c, calls)
  {
    IssuedIncrease(c, calls);
    forall i, j | 0 <= i < j < |Issued(c, calls)| ensures Issued(c, calls)[i] != Issued(c, calls)[j] {
      LessIrreflexive(Issued(c, calls)[j]);
    }
  }

  function Max(a: int, b: int): int { if a >= b then a else b }

  function LatestClock(calls: seq<Call>): nat {
    if calls == [] then 0 else Max(calls[0].now, LatestClock(calls[1..]))
  }

  /** The counter never runs ahead of the latest clock by more than one step a call. */
  lemma {:induction false} CounterStaysClose(c: Counter, calls: seq<Call>, latest: nat, made: nat)
    requires CounterOk(c) && SEQUENCE_LIMIT * c.unixMilli + c.sequence <= SEQUENCE_LIMIT * latest + made
    ensures var d := Run(c, calls);
      SEQUENCE_LIMIT * d.unixMilli + d.sequence <=
      SEQUENCE_LIMIT * Max(latest, LatestClock(calls)) + made + |calls|
    decreases |calls|
  {
    if calls != [] {
      CounterStaysClose(Tick(c, calls[0].now), calls[1..], Max(latest, calls[0].now), made + 1);
    }
  }

  lemma DriftBounded(calls: seq<Call>)
    ensures var d := Run(ZERO_COUNTER, calls);
      SEQUENCE_LIMIT * d.unixMilli + d.sequence <= SEQUENCE_LIMIT * LatestClock(calls) + |calls|
  {
    CounterStaysClose(ZERO_COUNTER, calls, 0, 0);
  }

  // ----- what an identifier tells -----

  /** The first 48 bits, as a number. */
  function Milliseconds(id: UUID): nat {
    Number(id[..6])
  }

  /** The milliseconds, the sequence number and the random tail can be read off. */
  lemma LayoutReadsBack(c: Counter, r: UUID)
    requires CounterOk(c) && c.unixMilli < MILLI_LIMIT
    ensures var id := Layout(c, r);
      && Milliseconds(id) == c.unixMilli && 256 * (id[6] % 16 as int) + id[7] == c.sequence
      && id[8] % 64 == r[8] % 64 && id[9..] == r[9..]
  {
    var id := Layout(c, r);
    assert Pow256(6) == MILLI_LIMIT;
    NumberOfBigEndian(c.unixMilli, 6);
    assert id[..6] == BigEndian(c.unixMilli, 6);
    assert id[6] == 0x70 + c.sequence / 256 && id[7] == c.sequence % 256 && id[8] == VariantByte(r);
  }

  /** A counter step never falls behind the clock, and is at the clock whenever that has
      moved past the counter. */
  lemma TickTracksClock(c: Counter, now: int)
    ensures Tick(c, now).unixMilli >= now && (now > c.unixMilli ==> Tick(c, now) == Counter(now, 0))
  {
  }

  lemma {:induction false} RunTakes(c: Counter, calls: seq<Call>, k: nat)
    requires k < |calls|
    ensures Run(c, calls[..k + 1]) == Tick(Run(c, calls[..k]), calls[k].now)
    decreases k
  {
    if k == 0 {
      assert calls[..1][1..] == [] && calls[..0] == [];
      assert Run(Tick(c, calls[0].now), []) == Tick(c, calls[0].now);
    } else {
      assert calls[..k + 1][1..] == calls[1..][..k] && calls[..k][1..] == calls[1..][..k - 1];
      RunTakes(Tick(c, calls[0].now), calls[1..], k - 1);
    }
  }

  lemma {:induction false} IssuedHolds(c: Counter, calls: seq<Call>, k: nat)
    requires CounterOk(c) && k < |calls| && calls[k].random.Some?
    ensures CounterOk(Run(c, calls[..k + 1])) && Layout(Run(c, calls[..k + 1]), calls[k].random.value) in Issued(c, calls)
    ensures Run(c, calls[..k + 1]).unixMilli <= Run(c, calls).unixMilli
    decreases k
  {
    var next := Tick(c, calls[0].now);
    if k == 0 {
      assert calls[..1][1..] == [];
      assert Run(next, []) == next && Run(c, calls[..1]) == next;
      RunAdvances(next, calls[1..]);
    } else {
      assert calls[..k + 1][1..] == calls[1..][..k];
      IssuedHolds(next, calls[1..], k - 1);
    }
  }

  /** Every call whose random source answers issues an identifier, and the milliseconds it
      tells are at least that call's clock reading. */
  lemma IssuedTracksClock(c: Counter, calls: seq<Call>, k: nat)
    requires CounterOk(c) && Run(c, calls).unixMilli < MILLI_LIMIT && k < |calls| && calls[k].random.Some?
    ensures exists id | id in Issued(c, calls) :: Milliseconds(id) >= calls[k].now && id[9..] == calls[k].random.value[9..]
  {
    var d, r := Run(c, calls[..k + 1]), calls[k].random.value;
    IssuedHolds(c, calls, k);
    RunTakes(c, calls, k);
    TickTracksClock(Run(c, calls[..k]), calls[k].now);
    LayoutReadsBack(d, r);
    assert Layout(d, r) in Issued(c, calls);
  }

  // ----- the generator, updated in place -----

  class Generator {
    var unixMilli: nat
    var sequence: nat

    function View(): Counter
      reads this
    {
      Counter(unixMilli, sequence)
    }

    predicate Valid()
      reads this
    {
      CounterOk(View())
    }

    constructor ()
      ensures Valid() && View() == ZERO_COUNTER
    {
      unixMilli, sequence := 0, 0;
    }

    /** Advances the counter, then overlays the timestamp, version, sequence and variant on
        the random bytes in place. */
    method NewID(now: int, random: Option<UUID>) returns (id: Option<UUID>)
      requires Valid()
      modifies this
      ensures Valid() && View() == Tick(old(View()), now)
      ensures id == if random.Some? then Some(Layout(View(), random.value)) else None
    {
      if now > unixMilli {
        unixMilli, sequence := now, 0;
      } else if sequence == SEQUENCE_LIMIT - 1 {
        unixMilli, sequence := unixMilli + 1, 0;
      } else {
        sequence := sequence + 1;
      }
      if random.None? {
        return None;
      }
      var b := new Byte[16](i requires 0 <= i < 16 => random.value[i]);
      assert b[..] == random.value;
      FillTimestamp(b, unixMilli);
      assert forall i | 6 <= i < 16 :: b[i] == b[6..][i - 6] == random.value[i];
      b[6] := 0x70 + sequence / 256;
      b[7] := sequence % 256;
      b[8] := b[8] % 64 + 0x80;
      assert b[..6] == BigEndian(unixMilli, 6);
      assert b[..8] == b[..6] + [b[6]] + [b[7]];
      assert b[9..] == random.value[9..];
      assert b[..] == b[..8] + ([b[8]] + b[9..]);
      return Some(b[..]);
    }

    /** Writes the low 48 bits, least significant byte last, from the right. */
    static method FillTimestamp(b: array<Byte>, milli: nat)
      requires b.Length == 16
      modifies b
      ensures b[..6] == BigEndian(milli, 6) && b[6..] == old(b[6..])
    {
      var timestamp := milli;
      for index := 6 downto 0
        invariant b[6..] == old(b[6..])
        invariant BigEndian(milli, 6) == BigEndian(timestamp, index) + b[index..6]
      {
        b[index] := timestamp % 256;
        assert b[index..6] == [b[index]] + b[index + 1..6];
        timestamp := timestamp / 256;
      }
      assert BigEndian(timestamp, 0) == [];
    }
  }
}
