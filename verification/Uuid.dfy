/** UUIDs as sixteen bytes, their canonical text, and their reading as a number. */
module Uuid {
  import opened Common

  type Byte = b: int | 0 <= b < 256
  type Bytes = seq<Byte>
  type UUID = u: Bytes | |u| == 16 witness seq(16, _ => 0)

  const ZERO: UUID := [0, 0, 0, 0, 0, 0, 0, 0, 0, 0, 0, 0, 0, 0, 0, 0]

  // ----- hexadecimal -----

  function HexDigit(d: int): (c: char)
    requires 0 <= d < 16
    ensures HexValue(c) == Some(d)
    ensures '0' <= c <= '9' || 'a' <= c <= 'f'
  {
    if d < 10 then '0' + d as char else 'a' + (d - 10) as char
  }

  const HEX_DIGITS: string := "0123456789abcdef"

  /** The digits are the lower-case ones, the higher half of a byte first. */
  lemma {:induction false} HexEncodeAt(bs: Bytes, i: nat)
    requires i < |bs|
    ensures |HEX_DIGITS| == 16
    ensures HexEncode(bs)[2 * i] == HEX_DIGITS[bs[i] / 16] && HexEncode(bs)[2 * i + 1] == HEX_DIGITS[bs[i] % 16]
  {
    if i > 0 {
      HexEncodeAt(bs[1..], i - 1);
      assert HexEncode(bs)[2 * i] == HexEncode(bs[1..])[2 * (i - 1)];
      assert HexEncode(bs)[2 * i + 1] == HexEncode(bs[1..])[2 * (i - 1) + 1];
    } else {
      HexDigitAt(bs[0] / 16);
      HexDigitAt(bs[0] % 16);
    }
  }

  lemma HexDigitAt(d: int)
    requires 0 <= d < 16
    ensures |HEX_DIGITS| == 16 && HexDigit(d) == HEX_DIGITS[d]
  {
  }

  /** Both cases are accepted, as encoding/hex does. */
  function HexValue(c: char): (v: Option<int>)
    ensures v.Some? ==> 0 <= v.value < 16
  {
    if '0' <= c <= '9' then Some(c as int - '0' as int)
    else if 'a' <= c <= 'f' then Some(c as int - 'a' as int + 10)
    else if 'A' <= c <= 'F' then Some(c as int - 'A' as int + 10)
    else None
  }

  function HexEncode(bs: Bytes): (s: string)
    ensures |s| == 2 * |bs|
  {
    if bs == [] then ""
    else [HexDigit(bs[0] / 16), HexDigit(bs[0] % 16)] + HexEncode(bs[1..])
  }

  function HexDecode(s: string): (r: Option<Bytes>)
    ensures r.Some? ==> |s| == 2 * |r.value|
  {
    if s == "" then Some([])
    else if |s| == 1 then None
    else
      match (HexValue(s[0]), HexValue(s[1]), HexDecode(s[2..]))
      case (Some(hi), Some(lo), Some(rest)) => Some([16 * hi + lo] + rest)
      case _ => None
  }

  lemma {:induction false} HexRoundTrip(bs: Bytes)
    ensures HexDecode(HexEncode(bs)) == Some(bs)
  {
    if bs == [] {
    } else {
      HexRoundTrip(bs[1..]);
      assert HexEncode(bs)[2..] == HexEncode(bs[1..]);
      assert [bs[0]] + bs[1..] == bs;
    }
  }

  // ----- canonical text -----

  /** The lower-case 8-4-4-4-12 rendering. */
  function Text(u: UUID): (s: string)
    ensures |s| == 36
  {
    HexEncode(u[0..4]) + "-" + HexEncode(u[4..6]) + "-" + HexEncode(u[6..8]) + "-" +
    HexEncode(u[8..10]) + "-" + HexEncode(u[10..16])
  }

  /** The canonical form in either hexadecimal case; anything else is rejected. */
  function ParseUUID(value: string): (r: Option<UUID>)
  {
    if |value| != 36 || value[8] != '-' || value[13] != '-' || value[18] != '-' || value[23] != '-' then None
    else
      match (HexDecode(value[0..8]), HexDecode(value[9..13]), HexDecode(value[14..18]),
             HexDecode(value[19..23]), HexDecode(value[24..36]))
      case (Some(a), Some(b), Some(c), Some(d), Some(e)) => Some(a + b + c + d + e)
      case _ => None
  }

  lemma TextSlices(u: UUID)
    ensures var s := Text(u);
      && s[0..8] == HexEncode(u[0..4]) && s[9..13] == HexEncode(u[4..6]) && s[14..18] == HexEncode(u[6..8])
      && s[19..23] == HexEncode(u[8..10]) && s[24..36] == HexEncode(u[10..16])
      && s[8] == s[13] == s[18] == s[23] == '-'
  {
  }

  /** Parsing what was printed returns the same identifier. */
  lemma ParseText(u: UUID)
    ensures ParseUUID(Text(u)) == Some(u)
  {
    TextSlices(u);
    HexRoundTrip(u[0..4]);
    HexRoundTrip(u[4..6]);
    HexRoundTrip(u[6..8]);
    HexRoundTrip(u[8..10]);
    HexRoundTrip(u[10..16]);
    assert u[0..4] + u[4..6] + u[6..8] + u[8..10] + u[10..16] == u;
  }

  lemma TextInjective(u: UUID, v: UUID)
    requires Text(u) == Text(v)
    ensures u == v
  {
    ParseText(u);
    ParseText(v);
  }

  // ----- a UUID as a 128-bit big-endian number -----

  const ID_LIMIT: int := 0x1_0000_0000_0000_0000_0000_0000_0000_0000

  type Id = n: int | 0 <= n < ID_LIMIT

  /** The zero UUID: "no identifier". */
  const NO_ID: Id := 0

  /** The `k` low-order bytes of `n`, most significant first. */
  function BigEndian(n: nat, k: nat): (bs: Bytes)
    ensures |bs| == k
  {
    if k == 0 then [] else BigEndian(n / 256, k - 1) + [n % 256]
  }

  function Number(bs: Bytes): (n: nat)
  {
    if bs == [] then 0 else 256 * Number(bs[..|bs| - 1]) + bs[|bs| - 1]
  }

  function Pow256(k: nat): (p: nat)
    ensures p > 0
  {
    if k == 0 then 1 else 256 * Pow256(k - 1)
  }

  lemma {:induction false} NumberOfBigEndian(n: nat, k: nat)
    requires n < Pow256(k)
    ensures Number(BigEndian(n, k)) == n
  {
    if k == 0 {
    } else {
      NumberOfBigEndian(n / 256, k - 1);
      var bs := BigEndian(n, k);
      assert bs[..|bs| - 1] == BigEndian(n / 256, k - 1);
    }
  }

  lemma IdFitsInSixteenBytes()
    ensures Pow256(16) == ID_LIMIT
  {
    assert Pow256(4) == 0x1_0000_0000;
    assert Pow256(8) == 0x1_0000_0000_0000_0000;
    assert Pow256(12) == 0x1_0000_0000_0000_0000_0000_0000;
  }

  function BytesOf(id: Id): (u: UUID) {
    BigEndian(id, 16)
  }

  lemma BytesOfInjective(a: Id, b: Id)
    requires BytesOf(a) == BytesOf(b)
    ensures a == b
  {
    IdFitsInSixteenBytes();
    NumberOfBigEndian(a, 16);
    NumberOfBigEndian(b, 16);
  }

  /** The canonical text of a numbered identifier names it uniquely. */
  lemma IdTextInjective(a: Id, b: Id)
    requires Text(BytesOf(a)) == Text(BytesOf(b))
    ensures a == b
  {
    TextInjective(BytesOf(a), BytesOf(b));
    BytesOfInjective(a, b);
  }
}
