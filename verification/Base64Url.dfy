/** Unpadded base64url (section 5 of RFC 4648), as the Go decoder reads it: line breaks are
    skipped and the unused bits of the last character are ignored. */
module Base64Url {
  import opened Common
  import opened Uuid

  type Sextet = n: int | 0 <= n < 64

  // ----- symbols -----

  function Symbol(n: Sextet): (c: char) {
    if n < 26 then 'A' + n as char
    else if n < 52 then 'a' + (n - 26) as char
    else if n < 62 then '0' + (n - 52) as char
    else if n == 62 then '-'
    else '_'
  }

  function Value(c: char): (v: Option<Sextet>) {
    if 'A' <= c <= 'Z' then Some(c as int - 'A' as int)
    else if 'a' <= c <= 'z' then Some(c as int - 'a' as int + 26)
    else if '0' <= c <= '9' then Some(c as int - '0' as int + 52)
    else if c == '-' then Some(62)
    else if c == '_' then Some(63)
    else None
  }

  lemma ValueOfSymbol(n: Sextet)
    ensures Value(Symbol(n)) == Some(n)
  {
  }

  /** The table of section 5 of RFC 4648, in order of value. */
  const UPPER: string := "ABCDEFGHIJKLMNOPQRSTUVWXYZ"
  const LOWER: string := "abcdefghijklmnopqrstuvwxyz"
  const ALPHABET: string := UPPER + (LOWER + ("0123456789" + "-_"))

  lemma LettersAt(i: nat)
    requires i < 26
    ensures |UPPER| == |LOWER| == 26 && UPPER[i] == 'A' + i as char && LOWER[i] == 'a' + i as char
  {
  }

  lemma SymbolsOfTable(n: Sextet)
    ensures |ALPHABET| == 64 && Symbol(n) == ALPHABET[n]
  {
    LettersAt(0);
    if n < 26 {
      LettersAt(n);
      assert ALPHABET[n] == UPPER[n];
    } else if n < 52 {
      LettersAt(n - 26);
      assert ALPHABET[n] == LOWER[n - 26];
    } else {
      assert ALPHABET[n] == ("0123456789" + "-_")[n - 52];
    }
  }

  /** A character has a value exactly if it is in the table, and the value is its place. */
  lemma AlphabetIff(c: char, n: Sextet)
    ensures |ALPHABET| == 64 && (Value(c) == Some(n) <==> ALPHABET[n] == c)
  {
    SymbolsOfTable(n);
  }

  predicate IsSymbol(c: char) { Value(c).Some? }

  predicate LineBreak(c: char) { c == '\r' || c == '\n' }

  function Symbols(ss: seq<Sextet>): (s: string)
    ensures |s| == |ss|
  {
    if ss == [] then "" else [Symbol(ss[0])] + Symbols(ss[1..])
  }

  function Values(s: string): (r: Option<seq<Sextet>>)
    ensures r.Some? ==> |r.value| == |s|
  {
    if s == "" then Some([])
    else
      match (Value(s[0]), Values(s[1..]))
      case (Some(v), Some(rest)) => Some([v] + rest)
      case _ => None
  }

  lemma {:induction false} ValuesIff(s: string)
    ensures Values(s).Some? <==> forall i | 0 <= i < |s| :: IsSymbol(s[i])
  {
    if s != "" {
      ValuesIff(s[1..]);
      assert forall i | 1 <= i < |s| :: s[i] == s[1..][i - 1];
    }
  }

  lemma {:induction false} ValuesOfSymbols(ss: seq<Sextet>)
    ensures Values(Symbols(ss)) == Some(ss)
  {
    if ss != [] {
      ValuesOfSymbols(ss[1..]);
      ValueOfSymbol(ss[0]);
      assert Symbols(ss)[1..] == Symbols(ss[1..]);
      assert [ss[0]] + ss[1..] == ss;
    }
  }

  // ----- packing: three bytes a, b, c as four sextets -----

  function S0(a: Byte): Sextet { a / 4 }
  function S1(a: Byte, b: Byte): Sextet { a % 4 * 16 + b / 16 }
  function S2(b: Byte, c: Byte): Sextet { b % 16 * 4 + c / 64 }
  function S3(c: Byte): Sextet { c % 64 }

  /** The last sextet of a text ending after one or two bytes of a group. */
  function T1(a: Byte): Sextet { a % 4 * 16 }
  function T2(b: Byte): Sextet { b % 16 * 4 }

  function First(p: Sextet, q: Sextet): Byte { 4 * (p as int) + q / 16 }
  function Second(q: Sextet, u: Sextet): Byte { 16 * (q % 16 as int) + u / 4 }
  function Third(u: Sextet, v: Sextet): Byte { 64 * (u % 4 as int) + v }

  lemma Split4(hi: nat, lo: nat)
    requires lo < 4
    ensures (hi * 4 + lo) / 4 == hi && (hi * 4 + lo) % 4 == lo
  {
  }

  lemma Split16(hi: nat, lo: nat)
    requires lo < 16
    ensures (hi * 16 + lo) / 16 == hi && (hi * 16 + lo) % 16 == lo
  {
  }

  lemma FirstRoundTrip(a: Byte, b: Byte)
    ensures First(S0(a), S1(a, b)) == a && First(S0(a), T1(a)) == a
  {
    Split16(a % 4, b / 16);
    Split16(a % 4, 0);
  }

  lemma SecondRoundTrip(a: Byte, b: Byte, c: Byte)
    ensures Second(S1(a, b), S2(b, c)) == b && Second(S1(a, b), T2(b)) == b
  {
    Split16(a % 4, b / 16);
    Split4(b % 16, c / 64);
    Split4(b % 16, 0);
  }

  lemma ThirdRoundTrip(b: Byte, c: Byte)
    ensures Third(S2(b, c), S3(c)) == c
  {
    Split4(b % 16, c / 64);
  }

  function Unpack(bs: Bytes): (ss: seq<Sextet>)
    ensures |ss| == (4 * |bs| + 2) / 3
  {
    if |bs| == 0 then []
    else if |bs| == 1 then [S0(bs[0]), T1(bs[0])]
    else if |bs| == 2 then [S0(bs[0]), S1(bs[0], bs[1]), T2(bs[1])]
    else [S0(bs[0]), S1(bs[0], bs[1]), S2(bs[1], bs[2]), S3(bs[2])] + Unpack(bs[3..])
  }

  /** Four sextets are the number that their three bytes are, highest first; two and three
      sextets are the one and two last bytes with zero bits after them. */
  lemma GroupIsNumber(a: Byte, b: Byte, c: Byte)
    ensures var s := Unpack([a, b, c]);
      && |s| == 4
      && 0x40000 * (s[0] as int) + 0x1000 * (s[1] as int) + 0x40 * (s[2] as int) + s[3] ==
           0x10000 * (a as int) + 0x100 * (b as int) + c
    ensures var s := Unpack([a, b]);
      |s| == 3 && 0x1000 * (s[0] as int) + 0x40 * (s[1] as int) + s[2] == 4 * (0x100 * (a as int) + b)
    ensures var s := Unpack([a]);
      |s| == 2 && 0x40 * (s[0] as int) + s[1] == 16 * (a as int)
  {
    assert [a, b, c][3..] == [] && Unpack([]) == [];
  }

  /** A lone last sextet is an error. */
  function Pack(ss: seq<Sextet>): Option<Bytes> {
    if |ss| == 0 then Some([])
    else if |ss| == 1 then None
    else if |ss| == 2 then Some([First(ss[0], ss[1])])
    else if |ss| == 3 then Some([First(ss[0], ss[1]), Second(ss[1], ss[2])])
    else
      var rest := Pack(ss[4..]);
      if rest.None? then None
      else Some([First(ss[0], ss[1]), Second(ss[1], ss[2]), Third(ss[2], ss[3])] + rest.value)
  }

  lemma {:induction false} PackLength(ss: seq<Sextet>)
    ensures Pack(ss).Some? <==> |ss| % 4 != 1
    ensures Pack(ss).Some? ==> |Pack(ss).value| == 3 * |ss| / 4
  {
    if |ss| >= 4 {
      PackLength(ss[4..]);
    }
  }

  lemma PackOne(a: Byte)
    ensures Pack(Unpack([a])) == Some([a])
  {
    FirstRoundTrip(a, a);
  }

  lemma PackTwo(a: Byte, b: Byte)
    ensures Pack(Unpack([a, b])) == Some([a, b])
  {
    FirstRoundTrip(a, b);
    SecondRoundTrip(a, b, b);
  }

  lemma PackThree(a: Byte, b: Byte, c: Byte, rest: Bytes)
    requires Pack(Unpack(rest)) == Some(rest)
    ensures Pack(Unpack([a, b, c] + rest)) == Some([a, b, c] + rest)
  {
    var bs := [a, b, c] + rest;
    assert bs[3..] == rest;
    assert Unpack(bs)[4..] == Unpack(rest);
    FirstRoundTrip(a, b);
    SecondRoundTrip(a, b, c);
    ThirdRoundTrip(b, c);
  }

  lemma {:induction false} PackUnpacked(bs: Bytes)
    ensures Pack(Unpack(bs)) == Some(bs)
    decreases |bs|
  {
    if |bs| >= 3 {
      PackUnpacked(bs[3..]);
      assert bs == [bs[0], bs[1], bs[2]] + bs[3..];
      PackThree(bs[0], bs[1], bs[2], bs[3..]);
    } else if |bs| == 2 {
      assert bs == [bs[0], bs[1]];
      PackTwo(bs[0], bs[1]);
    } else if |bs| == 1 {
      assert bs == [bs[0]];
      PackOne(bs[0]);
    }
  }

  // ----- the encoding -----

  function Encode(bs: Bytes): (s: string)
    ensures |s| == (4 * |bs| + 2) / 3
  {
    Symbols(Unpack(bs))
  }

  /** The text without its line breaks. */
  function Strip(s: string): (r: string)
    ensures |r| <= |s|
  {
    if s == "" then ""
    else if LineBreak(s[0]) then Strip(s[1..])
    else [s[0]] + Strip(s[1..])
  }

  function Decode(s: string): Option<Bytes> {
    var values := Values(Strip(s));
    if values.None? then None else Pack(values.value)
  }

  lemma {:induction false} StripSymbols(s: string)
    requires forall i | 0 <= i < |s| :: IsSymbol(s[i])
    ensures Strip(s) == s
  {
    if s != "" {
      StripSymbols(s[1..]);
    }
  }

  lemma {:induction false} StripShortens(s: string)
    ensures |Strip(s)| == |s| ==> Strip(s) == s
  {
    if s != "" {
      StripShortens(s[1..]);
    }
  }

  lemma RoundTrip(bs: Bytes)
    ensures Decode(Encode(bs)) == Some(bs)
    ensures forall i | 0 <= i < |Encode(bs)| :: IsSymbol(Encode(bs)[i])
  {
    ValuesOfSymbols(Unpack(bs));
    ValuesIff(Encode(bs));
    StripSymbols(Encode(bs));
    PackUnpacked(bs);
  }

  /** The secret part of a token, 43 characters long, decodes to 32 bytes exactly when every
      character is a symbol: a line break would leave too few. */
  lemma SecretDecodesIff(s: string)
    requires |s| == 43
    ensures (Decode(s).Some? && |Decode(s).value| == 32) <==> forall i | 0 <= i < |s| :: IsSymbol(s[i])
  {
    StripShortens(s);
    ValuesIff(Strip(s));
    if Values(Strip(s)).Some? {
      PackLength(Values(Strip(s)).value);
    }
    if forall i | 0 <= i < |s| :: IsSymbol(s[i]) {
      StripSymbols(s);
    }
  }
}
