/** The encrypted automation envelope (packages/automation-protocol/src/index.ts): its
    token, and the data its ciphertext is bound to. All texts here are ASCII, so a
    character is a byte. */
module AutomationEnvelope {
  import opened Prelude
  import opened Base64Url

  const MAX_AAD_BYTES: nat := 4_096
  const MAX_ENVELOPE_BYTES: nat := 1_048_576
  const GCM_TAG_BYTES: nat := 16

  datatype Header = Header(keyId: string, nonce: string, issuedAt: string, expiresAt: string)

  /** JSON.parse with the header schema, and the instant a canonical timestamp names. */
  datatype Platform = Platform(parse: seq<Byte> -> Option<Header>, instant: string -> Option<int>)

  predicate KeyIdOk(s: string) {
    && 0 < |s| <= 64
    && s[0] !in "._-"
    && forall i :: 0 <= i < |s| ==> IsUrlChar(s[i]) || s[i] == '.'
  }

  const DATE: string := "0000-00-00T00:00:00.000Z"

  /** Digits where the pattern has them, and its own punctuation elsewhere. */
  predicate DateShape(s: string) {
    |s| == 24 && forall i :: 0 <= i < 24 ==> if DATE[i] == '0' then '0' <= s[i] <= '9' else s[i] == DATE[i]
  }

  predicate HeaderOk(p: Platform, h: Header) {
    && KeyIdOk(h.keyId)
    && |h.nonce| == 16 && IsUrlText(h.nonce)
    && DateShape(h.issuedAt) && DateShape(h.expiresAt)
    && p.instant(h.issuedAt).Some? && p.instant(h.expiresAt).Some?
    && p.instant(h.issuedAt).value < p.instant(h.expiresAt).value
  }

  predicate Alphanumeric(c: char) {
    'A' <= c <= 'Z' || 'a' <= c <= 'z' || '0' <= c <= '9'
  }

  /** The date's numbers, and what stands between them. */
  predicate DateFits(s: string) {
    && |s| == 24
    && s[4] == '-' == s[7] && s[10] == 'T' && s[13] == ':' == s[16] && s[19] == '.' && s[23] == 'Z'
    && forall i :: i in {0, 1, 2, 3, 5, 6, 8, 9, 11, 12, 14, 15, 17, 18, 20, 21, 22} ==> '0' <= s[i] <= '9'
  }

  lemma DateIs(s: string)
    ensures DateShape(s) <==> DateFits(s)
  {
    assert forall i :: 0 <= i < 24 ==> (DATE[i] == '0' <==> i !in {4, 7, 10, 13, 16, 19, 23});
  }

  /** A key name of up to 64 characters that starts with a letter or a digit, sixteen url
      characters, and two instants in the right order. */
  predicate HeaderFits(p: Platform, h: Header) {
    && 1 <= |h.keyId| <= 64 && Alphanumeric(h.keyId[0])
    && (forall c :: c in h.keyId ==> Alphanumeric(c) || c in "._-")
    && |h.nonce| == 16 && (forall c :: c in h.nonce ==> Alphanumeric(c) || c in "_-")
    && DateFits(h.issuedAt) && DateFits(h.expiresAt)
    && match (p.instant(h.issuedAt), p.instant(h.expiresAt))
       case (Some(issued), Some(expires)) => issued < expires
       case _ => false
  }

  lemma HeaderIs(p: Platform, h: Header)
    ensures HeaderOk(p, h) <==> HeaderFits(p, h)
  {
    DateIs(h.issuedAt);
    DateIs(h.expiresAt);
    assert forall i :: 0 <= i < |h.keyId| ==> h.keyId[i] in h.keyId;
    assert forall i :: 0 <= i < |h.nonce| ==> h.nonce[i] in h.nonce;
  }

  /** parseHeader: the schema and the dates, and then the nonce's bytes. */
  function ParseHeader(p: Platform, h: Header): Option<Header> {
    if !HeaderOk(p, h) then None
    else
      var nonce := FromBase64Url(h.nonce);
      if nonce.None? || |nonce.value| != 12 then None else Some(h)
  }

  /** The nonce check never fires: sixteen url characters always carry twelve bytes. */
  lemma NonceIsTwelveBytes(p: Platform, h: Header)
    ensures ParseHeader(p, h) == if HeaderOk(p, h) then Some(h) else None
  {
    if HeaderOk(p, h) {
      WholeGroupsDecode(h.nonce, 4);
    }
  }

  // ----------------------------------------------------------------------- text

  const VERSION: string := "{\"version\":1,"
  const ALGORITHM: string := "\"algorithm\":\"AES-256-GCM\","
  const BEFORE_KEY_ID: string := "\"keyId\":\""
  const BEFORE_NONCE: string := "\",\"nonce\":\""
  const BEFORE_ISSUED: string := "\",\"issuedAt\":\""
  const BEFORE_EXPIRES: string := "\",\"expiresAt\":\""
  const CLOSING: string := "\"}"

  function Layout(a: string, b: string, c: string, d: string, e: string, h: Header): string {
    a + (h.keyId + (b + (h.nonce + (c + (h.issuedAt + (d + (h.expiresAt + e)))))))
  }

  /** JSON.stringify of a header: none of its texts needs an escape. */
  function HeaderJson(h: Header): string {
    Layout(VERSION + ALGORITHM + BEFORE_KEY_ID, BEFORE_NONCE, BEFORE_ISSUED, BEFORE_EXPIRES, CLOSING, h)
  }

  predicate IsAscii(s: string) {
    forall i :: 0 <= i < |s| ==> 0 < s[i] as int < 128
  }

  /** TextEncoder.encode on ASCII text. */
  function Utf8(s: string): (bytes: seq<Byte>)
    requires IsAscii(s)
    ensures |bytes| == |s|
    ensures forall i :: 0 <= i < |s| ==> bytes[i] == s[i] as int
  {
    seq(|s|, i requires 0 <= i < |s| => s[i] as int)
  }

  lemma Utf8IsInjective(s: string, t: string)
    requires IsAscii(s) && IsAscii(t) && Utf8(s) == Utf8(t)
    ensures s == t
  {
    forall i | 0 <= i < |s|
      ensures s[i] == t[i]
    {
      assert Utf8(s)[i] == Utf8(t)[i];
    }
  }

  lemma PunctuationIsAscii()
    ensures IsAscii(VERSION + ALGORITHM + BEFORE_KEY_ID) && |VERSION + ALGORITHM + BEFORE_KEY_ID| <= 60
    ensures IsAscii(BEFORE_NONCE) && |BEFORE_NONCE| <= 20
    ensures IsAscii(BEFORE_ISSUED) && |BEFORE_ISSUED| <= 20
    ensures IsAscii(BEFORE_EXPIRES) && |BEFORE_EXPIRES| <= 20
    ensures IsAscii(CLOSING) && |CLOSING| <= 20
  {
    assert IsAscii(VERSION);
    assert IsAscii(ALGORITHM);
    assert IsAscii(BEFORE_KEY_ID);
  }

  lemma HeaderJsonIsAscii(p: Platform, h: Header)
    requires HeaderOk(p, h)
    ensures IsAscii(HeaderJson(h))
    ensures |HeaderJson(h)| <= 300
  {
    PunctuationIsAscii();
    LayoutIsAscii(VERSION + ALGORITHM + BEFORE_KEY_ID, BEFORE_NONCE, BEFORE_ISSUED, BEFORE_EXPIRES, CLOSING, h);
  }

  lemma LayoutIsAscii(a: string, b: string, c: string, d: string, e: string, h: Header)
    requires IsAscii(a) && IsAscii(b) && IsAscii(c) && IsAscii(d) && IsAscii(e)
    requires IsAscii(h.keyId) && IsAscii(h.nonce) && IsAscii(h.issuedAt) && IsAscii(h.expiresAt)
    ensures IsAscii(Layout(a, b, c, d, e, h))
    ensures |Layout(a, b, c, d, e, h)| == |a| + |b| + |c| + |d| + |e| + |h.keyId| + |h.nonce| + |h.issuedAt| + |h.expiresAt|
  {
  }

  lemma SeparatorWithin<T>(a: seq<T>, b: seq<T>, x: seq<T>, y: seq<T>, separator: T)
    requires a + [separator] + x == b + [separator] + y
    ensures |a| < |b| ==> separator in b
  {
    assert (a + [separator] + x)[|a|] == separator;
    if |a| < |b| {
      assert (b + [separator] + y)[|a|] == b[|a|];
    }
  }

  /** Text up to the first separator is recovered uniquely. */
  lemma UpToSeparator<T>(a: seq<T>, b: seq<T>, x: seq<T>, y: seq<T>, separator: T)
    requires separator !in a && separator !in b
    requires a + [separator] + x == b + [separator] + y
    ensures a == b && x == y
  {
    SeparatorWithin(a, b, x, y, separator);
    SeparatorWithin(b, a, y, x, separator);
    SameLength(a + [separator], b + [separator], x, y);
    SameLength(a, b, [separator], [separator]);
  }

  lemma SameLength<T>(a: seq<T>, b: seq<T>, x: seq<T>, y: seq<T>)
    requires a + x == b + y && |a| == |b|
    ensures a == b && x == y
  {
    assert (a + x)[..|a|] == a && (b + y)[..|a|] == b;
    assert (a + x)[|a|..] == x && (b + y)[|a|..] == y;
  }

  lemma LayoutIsInjective(a: string, b: string, c: string, d: string, e: string, g: Header, h: Header)
    requires b != [] && b[0] !in g.keyId && b[0] !in h.keyId
    requires |g.nonce| == |h.nonce| && |g.issuedAt| == |h.issuedAt| && |g.expiresAt| == |h.expiresAt|
    requires Layout(a, b, c, d, e, g) == Layout(a, b, c, d, e, h)
    ensures g == h
  {
    var g3, h3 := d + (g.expiresAt + e), d + (h.expiresAt + e);
    var g2, h2 := c + (g.issuedAt + g3), c + (h.issuedAt + h3);
    var g1, h1 := g.nonce + g2, h.nonce + h2;
    SameLength(a, a, g.keyId + (b + g1), h.keyId + (b + h1));
    assert g.keyId + (b + g1) == g.keyId + [b[0]] + (b[1..] + g1);
    assert h.keyId + (b + h1) == h.keyId + [b[0]] + (b[1..] + h1);
    UpToSeparator(g.keyId, h.keyId, b[1..] + g1, b[1..] + h1, b[0]);
    SameLength(b[1..], b[1..], g1, h1);
    SameLength(g.nonce, h.nonce, g2, h2);
    SameLength(c, c, g.issuedAt + g3, h.issuedAt + h3);
    SameLength(g.issuedAt, h.issuedAt, g3, h3);
    SameLength(d, d, g.expiresAt + e, h.expiresAt + e);
    SameLength(g.expiresAt, h.expiresAt, e, e);
  }

  lemma HeaderJsonIsInjective(p: Platform, g: Header, h: Header)
    requires HeaderOk(p, g) && HeaderOk(p, h) && HeaderJson(g) == HeaderJson(h)
    ensures g == h
  {
    assert BEFORE_NONCE[0] == '"';
    LayoutIsInjective(VERSION + ALGORITHM + BEFORE_KEY_ID, BEFORE_NONCE, BEFORE_ISSUED, BEFORE_EXPIRES, CLOSING, g, h);
  }

  // --------------------------------------------------------- authenticated data

  datatype Failure = InvalidAad | InvalidEnvelope

  function AuthenticatedData(prefix: seq<Byte>, headerBytes: seq<Byte>, context: seq<Byte>): Result<seq<Byte>, Failure> {
    if |context| == 0 || |context| > MAX_AAD_BYTES then Err(InvalidAad)
    else Ok(prefix + headerBytes + [0] + context)
  }

  /** Where the pieces are: the header after the prefix, one zero byte, then the context. */
  lemma PiecesAre(prefix: seq<Byte>, headerBytes: seq<Byte>, context: seq<Byte>)
    ensures AuthenticatedData(prefix, headerBytes, context).Ok? <==> 1 <= |context| <= 4096
    ensures AuthenticatedData(prefix, headerBytes, context).Ok? ==>
              var data, n := AuthenticatedData(prefix, headerBytes, context).value, |prefix| + |headerBytes|;
              && |data| == n + 1 + |context|
              && data[..|prefix|] == prefix && data[|prefix|..n] == headerBytes && data[n] == 0 && data[n + 1..] == context
  {
  }

  /** Fills one buffer piece by piece, as `result.set` does. */
  method AuthenticatedDataBuffer(prefix: seq<Byte>, headerBytes: seq<Byte>, context: seq<Byte>) returns (result: Result<array<Byte>, Failure>)
    ensures result.Ok? <==> AuthenticatedData(prefix, headerBytes, context).Ok?
    ensures result.Ok? ==> fresh(result.value) && result.value[..] == AuthenticatedData(prefix, headerBytes, context).value
    ensures result.Err? ==> result == Err(InvalidAad)
  {
    if |context| == 0 || |context| > MAX_AAD_BYTES {
      return Err(InvalidAad);
    }
    var buffer := new Byte[|prefix| + |headerBytes| + 1 + |context|](_ => 0);
    Set(buffer, prefix, 0);
    Set(buffer, headerBytes, |prefix|);
    buffer[|prefix| + |headerBytes|] := 0;
    Set(buffer, context, |prefix| + |headerBytes| + 1);
    assert buffer[..] == prefix + headerBytes + [0] + context;
    result := Ok(buffer);
  }

  /** Uint8Array.prototype.set */
  method Set(buffer: array<Byte>, source: seq<Byte>, offset: nat)
    requires offset + |source| <= buffer.Length
    modifies buffer
    ensures buffer[..] == old(buffer[..offset]) + source + old(buffer[offset + |source|..])
  {
    for i := 0 to |source|
      invariant buffer[..] == old(buffer[..offset]) + source[..i] + old(buffer[offset + i..])
    {
      buffer[offset + i] := source[i];
    }
  }

  /** Two envelopes with the same authenticated data have the same header and context. */
  lemma AuthenticatedDataIsInjective(p: Platform, prefix: seq<Byte>, g: Header, h: Header, x: seq<Byte>, y: seq<Byte>)
    requires HeaderOk(p, g) && HeaderOk(p, h) && IsAscii(HeaderJson(g)) && IsAscii(HeaderJson(h))
    requires AuthenticatedData(prefix, Utf8(HeaderJson(g)), x).Ok?
    requires AuthenticatedData(prefix, Utf8(HeaderJson(g)), x) == AuthenticatedData(prefix, Utf8(HeaderJson(h)), y)
    ensures g == h && x == y
  {
    PartsAreDetermined(prefix, Utf8(HeaderJson(g)), Utf8(HeaderJson(h)), x, y);
    Utf8IsInjective(HeaderJson(g), HeaderJson(h));
    HeaderJsonIsInjective(p, g, h);
  }

  lemma PartsAreDetermined(prefix: seq<Byte>, a: seq<Byte>, b: seq<Byte>, x: seq<Byte>, y: seq<Byte>)
    requires 0 !in a && 0 !in b
    requires prefix + a + [0] + x == prefix + b + [0] + y
    ensures a == b && x == y
  {
    assert prefix + a + [0] + x == prefix + (a + [0] + x);
    assert prefix + b + [0] + y == prefix + (b + [0] + y);
    SameLength(prefix, prefix, a + [0] + x, b + [0] + y);
    UpToSeparator(a, b, x, y, 0);
  }

  // ------------------------------------------------------------------- the token

  function Split(s: string, separator: char): (parts: seq<string>)
    ensures |parts| >= 1
  {
    if s == [] then [[]]
    else
      var rest := Split(s[1..], separator);
      if s[0] == separator then [[]] + rest else [[s[0]] + rest[0]] + rest[1..]
  }

  function Join(parts: seq<string>, separator: char): string
    requires |parts| >= 1
  {
    if |parts| == 1 then parts[0] else parts[0] + [separator] + Join(parts[1..], separator)
  }

  lemma {:induction false} SplitJoins(s: string, separator: char)
    ensures Join(Split(s, separator), separator) == s
    ensures forall i :: 0 <= i < |Split(s, separator)| ==> separator !in Split(s, separator)[i]
  {
    if s != [] {
      var rest := Split(s[1..], separator);
      SplitJoins(s[1..], separator);
      if s[0] == separator {
        assert ([[]] + rest)[1..] == rest;
      } else {
        var parts := [[s[0]] + rest[0]] + rest[1..];
        assert parts[1..] == rest[1..];
        assert Join(parts, separator) == [s[0]] + Join(rest, separator);
      }
    }
  }

  lemma {:induction false} SplitFirst(a: string, rest: string, separator: char)
    requires separator !in a
    ensures Split(a + [separator] + rest, separator) == [a] + Split(rest, separator)
    ensures Split(a, separator) == [a]
  {
    var s := a + [separator] + rest;
    if a == [] {
      assert s[1..] == rest;
    } else {
      assert s[1..] == a[1..] + [separator] + rest;
      SplitFirst(a[1..], rest, separator);
      assert [a[0]] + a[1..] == a;
    }
  }

  function Token(headerPart: string, cipherPart: string): string {
    "aep1" + ['.'] + (headerPart + ['.'] + cipherPart)
  }

  /** split(".") finds the three parts exactly in tokens of this form. */
  lemma SplitIffToken(token: string, headerPart: string, cipherPart: string)
    ensures Split(token, '.') == ["aep1", headerPart, cipherPart] <==>
              token == Token(headerPart, cipherPart) && '.' !in headerPart && '.' !in cipherPart
  {
    if Split(token, '.') == ["aep1", headerPart, cipherPart] {
      SplitJoins(token, '.');
      var parts := Split(token, '.');
      assert parts[1..] == [headerPart, cipherPart] && parts[1..][1..] == [cipherPart];
      assert Join([cipherPart], '.') == cipherPart;
      assert Join([headerPart, cipherPart], '.') == headerPart + ['.'] + cipherPart;
      assert '.' !in parts[1] && '.' !in parts[2];
    }
    if token == Token(headerPart, cipherPart) && '.' !in headerPart && '.' !in cipherPart {
      TokenSplits(headerPart, cipherPart);
    }
  }

  lemma TokenSplits(headerPart: string, cipherPart: string)
    requires '.' !in headerPart && '.' !in cipherPart
    ensures Split(Token(headerPart, cipherPart), '.') == ["aep1", headerPart, cipherPart]
  {
    SplitFirst(cipherPart, [], '.');
    SplitFirst(headerPart, cipherPart, '.');
    var rest := headerPart + ['.'] + cipherPart;
    assert Split(rest, '.') == [headerPart, cipherPart];
    var tag := "aep1";
    assert '.' !in tag;
    SplitFirst(tag, rest, '.');
  }

  function EncodeEnvelope(headerBytes: seq<Byte>, ciphertext: seq<Byte>): string {
    Token(ToBase64Url(headerBytes), ToBase64Url(ciphertext))
  }

  function DecodeEnvelope(p: Platform, token: string): Result<(Header, seq<Byte>), Failure> {
    if |token| > MAX_ENVELOPE_BYTES * 2 then Err(InvalidEnvelope)
    else
      var parts := Split(token, '.');
      if |parts| != 3 || parts[0] != "aep1" then Err(InvalidEnvelope)
      else
        var headerBytes := FromBase64Url(parts[1]);
        var parsed := if headerBytes.None? then None else p.parse(headerBytes.value);
        var header := if parsed.None? then None else ParseHeader(p, parsed.value);
        if header.None? then Err(InvalidEnvelope)
        else
          var ciphertext := FromBase64Url(parts[2]);
          if ciphertext.None? || |ciphertext.value| < 17 then Err(InvalidEnvelope)
          else Ok((header.value, ciphertext.value))
  }

  /** Exactly which tokens are read, and as what: the ciphertext and the header's bytes have
      one spelling each. */
  lemma DecodesIffEncoded(p: Platform, token: string, headerBytes: seq<Byte>, h: Header, ciphertext: seq<Byte>)
    requires headerBytes != [] && p.parse(headerBytes) == Some(h)
    requires token == EncodeEnvelope(headerBytes, ciphertext)
    ensures DecodeEnvelope(p, token) == Ok((h, ciphertext)) <==>
              |token| <= 2_097_152 && HeaderFits(p, h) && |ciphertext| >= 17
  {
    HeaderIs(p, h);
    EncodedLength(headerBytes);
    EncodedLength(ciphertext);
    NoDotInUrlText(ToBase64Url(headerBytes));
    NoDotInUrlText(ToBase64Url(ciphertext));
    SplitIffToken(token, ToBase64Url(headerBytes), ToBase64Url(ciphertext));
    NonceIsTwelveBytes(p, h);
    DecoderInvertsEncoder(headerBytes);
    if ciphertext != [] {
      DecoderInvertsEncoder(ciphertext);
    }
  }

  lemma NoDotInUrlText(s: string)
    requires IsUrlText(s)
    ensures '.' !in s
  {
  }

  lemma DecodedTokensAreEncodings(p: Platform, token: string)
    requires DecodeEnvelope(p, token).Ok?
    ensures exists headerBytes ::
              && headerBytes != []
              && p.parse(headerBytes) == Some(DecodeEnvelope(p, token).value.0)
              && token == EncodeEnvelope(headerBytes, DecodeEnvelope(p, token).value.1)
  {
    var parts := Split(token, '.');
    assert parts == ["aep1", parts[1], parts[2]];
    SplitIffToken(token, parts[1], parts[2]);
    DecoderAcceptsIffCanonical(parts[1]);
    DecoderAcceptsIffCanonical(parts[2]);
    assert ParseHeader(p, p.parse(FromBase64Url(parts[1]).value).value).Some?;
  }

  lemma TokenLength(p: Platform, h: Header, payloadBytes: nat, ciphertext: seq<Byte>)
    requires HeaderOk(p, h) && IsAscii(HeaderJson(h))
    requires payloadBytes <= MAX_ENVELOPE_BYTES && |ciphertext| == payloadBytes + GCM_TAG_BYTES
    ensures HeaderJson(h) != [] && |EncodeEnvelope(Utf8(HeaderJson(h)), ciphertext)| <= MAX_ENVELOPE_BYTES * 2
  {
    var headerBytes := Utf8(HeaderJson(h));
    HeaderJsonIsAscii(p, h);
    EncodedLength(headerBytes);
    EncodedLength(ciphertext);
    assert |EncodeEnvelope(headerBytes, ciphertext)| == 6 + |ToBase64Url(headerBytes)| + |ToBase64Url(ciphertext)|;
  }

  /** decodeEnvelope undoes encodeEnvelope for every valid header and permitted payload. */
  lemma EnvelopeRoundTrip(p: Platform, h: Header, payloadBytes: nat, ciphertext: seq<Byte>)
    requires HeaderOk(p, h) && IsAscii(HeaderJson(h)) && p.parse(Utf8(HeaderJson(h))) == Some(h)
    requires 1 <= payloadBytes <= MAX_ENVELOPE_BYTES && |ciphertext| == payloadBytes + GCM_TAG_BYTES
    ensures DecodeEnvelope(p, EncodeEnvelope(Utf8(HeaderJson(h)), ciphertext)) == Ok((h, ciphertext))
  {
    var headerBytes := Utf8(HeaderJson(h));
    TokenLength(p, h, payloadBytes, ciphertext);
    HeaderIs(p, h);
    DecodesIffEncoded(p, EncodeEnvelope(headerBytes, ciphertext), headerBytes, h, ciphertext);
  }

  // ------------------------------------------------------- the refresh grant's token

  /** What encodedVnuRefreshGrantLength predicts from the plaintext's length. */
  function PredictedGrantLength(plaintextBytes: nat): nat {
    17 + ((plaintextBytes + GCM_TAG_BYTES) * 4 + 2) / 3
  }

  /** The prediction is the length of the token itself: twelve bytes, a dot, and the
      ciphertext with its tag. */
  lemma GrantLengthIsExact(iv: seq<Byte>, plaintextBytes: nat, encrypted: seq<Byte>)
    requires |iv| == 12 && |encrypted| == plaintextBytes + GCM_TAG_BYTES
    ensures |ToBase64Url(iv) + "." + ToBase64Url(encrypted)| == PredictedGrantLength(plaintextBytes)
  {
    EncodedLength(iv);
    EncodedLength(encrypted);
  }
}
