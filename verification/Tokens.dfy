/** The printed tokens: a marker, an identifier and a secret, joined by underscores. */
module Tokens {
  import opened Common
  import opened Uuid
  import opened Ids
  import opened Base64Url

  // ----- markers -----

  predicate MarkerChar(c: char) {
    'a' <= c <= 'z' || '0' <= c <= '9'
  }

  /** Whether a configured marker may lead a token. */
  method ValidTokenMarker(marker: string) returns (ok: bool)
    ensures ok <==> 1 <= |marker| <= 16 && forall i | 0 <= i < |marker| :: MarkerChar(marker[i])
  {
    if |marker| == 0 || |marker| > 16 {
      return false;
    }
    for i := 0 to |marker|
      invariant forall j | 0 <= j < i :: MarkerChar(marker[j])
    {
      if (marker[i] < 'a' || marker[i] > 'z') && (marker[i] < '0' || marker[i] > '9') {
        return false;
      }
    }
    return true;
  }

  // ----- splitting -----

  /** The position of the first underscore, or the length. */
  function Underscore(s: string): (i: nat)
    ensures i <= |s| && (i < |s| ==> s[i] == '_') && forall j | 0 <= j < i :: s[j] != '_'
  {
    if s == "" || s[0] == '_' then 0 else 1 + Underscore(s[1..])
  }

  datatype Parts = Parts(marker: string, id: string, secret: string)

  /** At most three parts; the last keeps its underscores. */
  function Split(raw: string): Option<Parts> {
    var i := Underscore(raw);
    if i == |raw| then None
    else
      var rest := raw[i + 1..];
      var j := Underscore(rest);
      if j == |rest| then None else Some(Parts(raw[..i], rest[..j], rest[j + 1..]))
  }

  function Join(marker: string, id: string, secret: string): string {
    marker + "_" + id + "_" + secret
  }

  lemma FirstUnderscore(a: string, b: string)
    requires '_' !in a
    ensures Underscore(a + "_" + b) == |a|
  {
    var s := a + "_" + b;
    assert s[|a|] == '_' && forall j | 0 <= j < |a| :: s[j] == a[j];
  }

  lemma CutAt(s: string, i: nat)
    requires i < |s| && s[i] == '_'
    ensures s == s[..i] + "_" + s[i + 1..]
  {
  }

  lemma JoinAssociates(a: string, b: string, c: string)
    ensures a + "_" + (b + "_" + c) == Join(a, b, c)
  {
  }

  lemma SplitJoined(parts: Parts)
    requires '_' !in parts.marker && '_' !in parts.id
    ensures Split(Join(parts.marker, parts.id, parts.secret)) == Some(parts)
  {
    var rest := parts.id + "_" + parts.secret;
    var raw := parts.marker + "_" + rest;
    JoinAssociates(parts.marker, parts.id, parts.secret);
    FirstUnderscore(parts.marker, rest);
    FirstUnderscore(parts.id, parts.secret);
    assert raw[..|parts.marker|] == parts.marker && raw[|parts.marker| + 1..] == rest;
    assert rest[..|parts.id|] == parts.id && rest[|parts.id| + 1..] == parts.secret;
  }

  lemma JoinSplit(raw: string)
    requires Split(raw).Some?
    ensures var parts := Split(raw).value;
      '_' !in parts.marker && '_' !in parts.id && raw == Join(parts.marker, parts.id, parts.secret)
  {
    var i := Underscore(raw);
    var rest := raw[i + 1..];
    var j := Underscore(rest);
    CutAt(raw, i);
    CutAt(rest, j);
    JoinAssociates(raw[..i], rest[..j], rest[j + 1..]);
  }

  /** Splitting undoes joining exactly: the parts come back if and only if the first two
      hold no underscore. */
  lemma SplitIff(raw: string, parts: Parts)
    ensures Split(raw) == Some(parts) <==>
      '_' !in parts.marker && '_' !in parts.id && raw == Join(parts.marker, parts.id, parts.secret)
  {
    if '_' !in parts.marker && '_' !in parts.id {
      SplitJoined(parts);
    }
    if Split(raw).Some? {
      JoinSplit(raw);
    }
  }

  // ----- printers and parsers -----

  predicate IsSecret(s: string) {
    |s| == 43 && forall i | 0 <= i < |s| :: IsSymbol(s[i])
  }

  predicate SecretAccepted(s: string) {
    |s| == 43 && Decode(s).Some? && |Decode(s).value| == 32
  }

  /** Session, reset, invitation, email and link tokens: the identifier is a UUID. */
  function PrintSecretToken(marker: string, id: UUID, secret: Bytes): string {
    Join(marker, Text(id), Encode(secret))
  }

  function ParseSecretToken(marker: string, raw: string): Option<UUID> {
    var parts := Split(raw);
    if parts.None? || parts.value.marker != marker || |parts.value.secret| != 43 then None
    else
      var id := ParseUUID(parts.value.id);
      if id.None? || Text(id.value) != parts.value.id || !ValidUUIDv7(id.value) then None
      else if !SecretAccepted(parts.value.secret) then None
      else id
  }

  /** OAuth bearers, personal access tokens and SCIM tokens: the identifier is a prefix of
      six bytes in hexadecimal. */
  function PrintBearer(marker: string, prefix: Bytes, secret: Bytes): string {
    Join(marker, HexEncode(prefix), Encode(secret))
  }

  function ParseBearer(marker: string, raw: string): Option<string> {
    var parts := Split(raw);
    if parts.None? || parts.value.marker != marker || |parts.value.id| != 12 || |parts.value.secret| != 43 then None
    else if HexDecode(parts.value.id).None? then None
    else if !SecretAccepted(parts.value.secret) then None
    else Some(parts.value.id)
  }

  // ----- what identifiers are made of -----

  lemma {:induction false} HexHasNoUnderscore(bs: Bytes)
    ensures '_' !in HexEncode(bs)
  {
    if bs != [] {
      HexHasNoUnderscore(bs[1..]);
    }
  }

  lemma TextHasNoUnderscore(u: UUID)
    ensures '_' !in Text(u)
  {
    HexHasNoUnderscore(u[0..4]);
    HexHasNoUnderscore(u[4..6]);
    HexHasNoUnderscore(u[6..8]);
    HexHasNoUnderscore(u[8..10]);
    HexHasNoUnderscore(u[10..16]);
  }

  lemma {:induction false} DecodedHexHasNoUnderscore(s: string)
    requires HexDecode(s).Some?
    ensures '_' !in s
  {
    if s != "" {
      DecodedHexHasNoUnderscore(s[2..]);
      assert s == [s[0], s[1]] + s[2..];
    }
  }

  lemma PrintedSecretIsSecret(secret: Bytes)
    requires |secret| == 32
    ensures IsSecret(Encode(secret)) && SecretAccepted(Encode(secret))
  {
    RoundTrip(secret);
  }

  // ----- exact acceptance -----

  /** A UUID-shaped token is accepted, with one identifier, exactly in the one spelling the
      printer uses for that identifier, with any 43-symbol secret. */
  lemma SecretTokenAcceptedIff(marker: string, raw: string, id: UUID)
    ensures ParseSecretToken(marker, raw) == Some(id) <==>
      && '_' !in marker && ValidUUIDv7(id)
      && exists secret :: IsSecret(secret) && raw == Join(marker, Text(id), secret)
  {
    TextHasNoUnderscore(id);
    ParseText(id);
    if '_' !in marker && ValidUUIDv7(id) && exists secret :: IsSecret(secret) && raw == Join(marker, Text(id), secret) {
      var secret :| IsSecret(secret) && raw == Join(marker, Text(id), secret);
      SplitIff(raw, Parts(marker, Text(id), secret));
      SecretDecodesIff(secret);
    }
    if ParseSecretToken(marker, raw) == Some(id) {
      var parts := Split(raw).value;
      SplitIff(raw, parts);
      SecretDecodesIff(parts.secret);
      assert IsSecret(parts.secret) && raw == Join(marker, Text(id), parts.secret);
    }
  }

  /** A prefix-shaped token is accepted exactly as the marker, twelve hexadecimal digits
      and a secret, and the prefix returned is the text that was sent. */
  lemma BearerAcceptedIff(marker: string, raw: string, prefix: string)
    ensures ParseBearer(marker, raw) == Some(prefix) <==>
      && '_' !in marker && |prefix| == 12 && HexDecode(prefix).Some?
      && exists secret :: IsSecret(secret) && raw == Join(marker, prefix, secret)
  {
    if '_' !in marker && |prefix| == 12 && HexDecode(prefix).Some? &&
       exists secret :: IsSecret(secret) && raw == Join(marker, prefix, secret)
    {
      var secret :| IsSecret(secret) && raw == Join(marker, prefix, secret);
      DecodedHexHasNoUnderscore(prefix);
      SplitIff(raw, Parts(marker, prefix, secret));
      SecretDecodesIff(secret);
    }
    if ParseBearer(marker, raw) == Some(prefix) {
      var parts := Split(raw).value;
      SplitIff(raw, parts);
      SecretDecodesIff(parts.secret);
      assert IsSecret(parts.secret) && raw == Join(marker, prefix, parts.secret);
    }
  }

  /** Parsing what was printed returns the identifier, also when the secret's base64url
      contains underscores. */
  lemma SecretTokenRoundTrip(marker: string, id: UUID, secret: Bytes)
    requires '_' !in marker && ValidUUIDv7(id) && |secret| == 32
    ensures ParseSecretToken(marker, PrintSecretToken(marker, id, secret)) == Some(id)
  {
    PrintedSecretIsSecret(secret);
    assert IsSecret(Encode(secret)) && PrintSecretToken(marker, id, secret) == Join(marker, Text(id), Encode(secret));
    SecretTokenAcceptedIff(marker, PrintSecretToken(marker, id, secret), id);
  }

  lemma BearerRoundTrip(marker: string, prefix: Bytes, secret: Bytes)
    requires '_' !in marker && |prefix| == 6 && |secret| == 32
    ensures ParseBearer(marker, PrintBearer(marker, prefix, secret)) == Some(HexEncode(prefix))
  {
    PrintedSecretIsSecret(secret);
    HexRoundTrip(prefix);
    assert IsSecret(Encode(secret)) && PrintBearer(marker, prefix, secret) == Join(marker, HexEncode(prefix), Encode(secret));
    BearerAcceptedIff(marker, PrintBearer(marker, prefix, secret), HexEncode(prefix));
  }

  /** No text is both a UUID-shaped and a prefix-shaped token, even under one marker. */
  lemma ShapesAreDisjoint(marker: string, other: string, raw: string)
    ensures ParseSecretToken(marker, raw).None? || ParseBearer(other, raw).None?
  {
  }
}
