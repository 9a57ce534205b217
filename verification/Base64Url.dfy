/** The base64url helpers (packages/automation-protocol/src/index.ts and
    packages/core/src/index.ts), and the text they accept: sections 3.5 and 5 of RFC 4648. */
module Base64Url {
  import opened Prelude

  type Byte = b: int | 0 <= b < 256
  type Sextet = n: int | 0 <= n < 64

  // ------------------------------------------------------------ groups of six bits

  // Three bytes as four sextets, and back.
  function S0(a: Byte): Sextet { a / 4 }
  function S1(a: Byte, b: Byte): Sextet { var n: int := a; n % 4 * 16 + b / 16 }
  function S2(b: Byte, c: Byte): Sextet { var n: int := b; n % 16 * 4 + c / 64 }
  function S3(c: Byte): Sextet { c % 64 }
  function B0(a: Sextet, b: Sextet): Byte { var n: int := a; n * 4 + b / 16 }
  function B1(b: Sextet, c: Sextet): Byte { var n: int := b; n % 16 * 16 + c / 4 }
  function B2(c: Sextet, d: Sextet): Byte { var n: int := c; n % 4 * 64 + d }

  function ToSextets(bytes: seq<Byte>): seq<Sextet> {
    if |bytes| == 0 then []
    else if |bytes| == 1 then [S0(bytes[0]), S1(bytes[0], 0)]
    else if |bytes| == 2 then [S0(bytes[0]), S1(bytes[0], bytes[1]), S2(bytes[1], 0)]
    else [S0(bytes[0]), S1(bytes[0], bytes[1]), S2(bytes[1], bytes[2]), S3(bytes[2])] + ToSextets(bytes[3..])
  }

  /** Bits left over at the end are dropped; a single left-over sextet is an error. */
  function FromSextets(six: seq<Sextet>): Option<seq<Byte>> {
    if |six| == 0 then Some([])
    else if |six| == 1 then None
    else if |six| == 2 then Some([B0(six[0], six[1])])
    else if |six| == 3 then Some([B0(six[0], six[1]), B1(six[1], six[2])])
    else
      var rest := FromSextets(six[4..]);
      if rest.None? then None
      else Some([B0(six[0], six[1]), B1(six[1], six[2]), B2(six[2], six[3])] + rest.value)
  }

  lemma BytesOfGroup(a: Byte, b: Byte, c: Byte)
    ensures B0(S0(a), S1(a, b)) == a && B1(S1(a, b), S2(b, c)) == b && B2(S2(b, c), S3(c)) == c
  {
  }

  lemma SextetsOfGroup(a: Sextet, b: Sextet, c: Sextet, d: Sextet)
    ensures S0(B0(a, b)) == a && S1(B0(a, b), B1(b, c)) == b && S2(B1(b, c), B2(c, d)) == c && S3(B2(c, d)) == d
    ensures S1(B0(a, b), 0) == b <==> b % 16 == 0
    ensures S2(B1(b, c), 0) == c <==> c % 4 == 0
  {
  }

  /** No single left-over sextet, and the bits left over are zero. */
  predicate CanonicalSextets(six: seq<Sextet>) {
    && |six| % 4 != 1
    && (|six| % 4 == 2 ==> six[|six| - 1] % 16 == 0)
    && (|six| % 4 == 3 ==> six[|six| - 1] % 4 == 0)
  }

  lemma GroupsSplit(a: Byte, b: Byte, c: Byte, rest: seq<Byte>, w: Sextet, x: Sextet, y: Sextet, z: Sextet, more: seq<Sextet>)
    ensures ToSextets([a, b, c] + rest) == [S0(a), S1(a, b), S2(b, c), S3(c)] + ToSextets(rest)
    ensures FromSextets([w, x, y, z] + more)
         == if FromSextets(more).None? then None else Some([B0(w, x), B1(x, y), B2(y, z)] + FromSextets(more).value)
  {
    assert ([a, b, c] + rest)[3..] == rest;
    assert ([w, x, y, z] + more)[4..] == more;
  }

  lemma ShortGroups(w: Sextet, x: Sextet, y: Sextet)
    ensures FromSextets([w, x]) == Some([B0(w, x)])
    ensures FromSextets([w, x, y]) == Some([B0(w, x), B1(x, y)])
  {
  }

  lemma OneByteRoundTrip(a: Byte)
    ensures FromSextets(ToSextets([a])) == Some([a])
  {
    var six := ToSextets([a]);
    assert |six| == 2 && six[0] == S0(a) && six[1] == S1(a, 0);
    assert B0(six[0], six[1]) == a;
  }

  lemma TwoBytesRoundTrip(a: Byte, b: Byte)
    ensures FromSextets(ToSextets([a, b])) == Some([a, b])
  {
    BytesOfGroup(a, b, 0);
    var w, x, y := S0(a), S1(a, b), S2(b, 0);
    ShortGroups(w, x, y);
    assert B0(w, x) == a && B1(x, y) == b;
  }

  lemma LongRoundTrip(a: Byte, b: Byte, c: Byte, rest: seq<Byte>)
    requires FromSextets(ToSextets(rest)) == Some(rest)
    ensures FromSextets(ToSextets([a, b, c] + rest)) == Some([a, b, c] + rest)
  {
    GroupsSplit(a, b, c, rest, S0(a), S1(a, b), S2(b, c), S3(c), ToSextets(rest));
    BytesOfGroup(a, b, c);
  }

  lemma {:induction false} SextetsRoundTrip(bytes: seq<Byte>)
    ensures FromSextets(ToSextets(bytes)) == Some(bytes)
  {
    if |bytes| >= 3 {
      SextetsRoundTrip(bytes[3..]);
      LongRoundTrip(bytes[0], bytes[1], bytes[2], bytes[3..]);
      assert bytes == [bytes[0], bytes[1], bytes[2]] + bytes[3..];
    } else if |bytes| == 2 {
      TwoBytesRoundTrip(bytes[0], bytes[1]);
      assert bytes == [bytes[0], bytes[1]];
    } else if |bytes| == 1 {
      OneByteRoundTrip(bytes[0]);
      assert bytes == [bytes[0]];
    }
  }

  lemma {:induction false} SextetCount(bytes: seq<Byte>)
    ensures |ToSextets(bytes)| == (4 * |bytes| + 2) / 3
  {
    if |bytes| >= 3 {
      SextetCount(bytes[3..]);
    }
  }

  lemma {:induction false} BytesRoundTrip(six: seq<Sextet>)
    ensures FromSextets(six).Some? <==> |six| % 4 != 1
    ensures FromSextets(six).Some? ==> (ToSextets(FromSextets(six).value) == six <==> CanonicalSextets(six))
    ensures FromSextets(six).Some? ==> (FromSextets(six).value == [] <==> six == [])
  {
    if |six| >= 4 {
      var w, x, y, z, rest := six[0], six[1], six[2], six[3], six[4..];
      assert six == [w, x, y, z] + rest;
      BytesRoundTrip(rest);
      CanonicalTail(six);
      if |rest| % 4 != 1 {
        var tail := FromSextets(rest).value;
        GroupsSplit(B0(w, x), B1(x, y), B2(y, z), tail, w, x, y, z, rest);
        SextetsOfGroup(w, x, y, z);
        SameHead([w, x, y, z], ToSextets(tail), rest);
      } else {
        GroupsSplit(0, 0, 0, [], w, x, y, z, rest);
      }
    } else if |six| == 3 {
      SextetsOfGroup(six[0], six[1], six[2], 0);
      assert six == [six[0], six[1], six[2]];
    } else if |six| == 2 {
      SextetsOfGroup(six[0], six[1], 0, 0);
      assert six == [six[0], six[1]];
    }
  }

  lemma CanonicalTail(six: seq<Sextet>)
    requires |six| >= 4
    ensures |six[4..]| % 4 == |six| % 4
    ensures CanonicalSextets(six) <==> CanonicalSextets(six[4..])
  {
  }

  lemma SameHead(head: seq<Sextet>, a: seq<Sextet>, b: seq<Sextet>)
    ensures head + a == head + b <==> a == b
  {
    assert (head + a)[|head|..] == a && (head + b)[|head|..] == b;
  }

  // ----------------------------------------------------------- the two alphabets

  function UrlChar(n: Sextet): char {
    if n < 26 then 'A' + n as char
    else if n < 52 then 'a' + (n - 26) as char
    else if n < 62 then '0' + (n - 52) as char
    else if n == 62 then '-'
    else '_'
  }

  function StandardChar(n: Sextet): char {
    if n == 62 then '+' else if n == 63 then '/' else UrlChar(n)
  }

  predicate IsUrlChar(c: char) {
    'A' <= c <= 'Z' || 'a' <= c <= 'z' || '0' <= c <= '9' || c == '-' || c == '_'
  }

  predicate IsStandardChar(c: char) {
    'A' <= c <= 'Z' || 'a' <= c <= 'z' || '0' <= c <= '9' || c == '+' || c == '/'
  }

  function SextetOf(c: char): Sextet {
    if 'A' <= c <= 'Z' then c as int - 'A' as int
    else if 'a' <= c <= 'z' then c as int - 'a' as int + 26
    else if '0' <= c <= '9' then c as int - '0' as int + 52
    else if c == '-' || c == '+' then 62
    else 63
  }

  lemma CharsInvert(n: Sextet, c: char)
    ensures IsUrlChar(UrlChar(n)) && SextetOf(UrlChar(n)) == n
    ensures IsStandardChar(StandardChar(n)) && SextetOf(StandardChar(n)) == n
    ensures IsUrlChar(c) ==> UrlChar(SextetOf(c)) == c
  {
  }

  predicate IsUrlText(s: string) {
    forall i :: 0 <= i < |s| ==> IsUrlChar(s[i])
  }

  function UrlText(six: seq<Sextet>): (s: string)
    ensures |s| == |six|
  {
    seq(|six|, i requires 0 <= i < |six| => UrlChar(six[i]))
  }

  function StandardText(six: seq<Sextet>): (s: string)
    ensures |s| == |six|
  {
    seq(|six|, i requires 0 <= i < |six| => StandardChar(six[i]))
  }

  function SextetsOf(s: string): (six: seq<Sextet>)
    ensures |six| == |s|
  {
    seq(|s|, i requires 0 <= i < |s| => SextetOf(s[i]))
  }

  lemma TextInverts(six: seq<Sextet>, s: string)
    ensures IsUrlText(UrlText(six)) && SextetsOf(UrlText(six)) == six
    ensures SextetsOf(StandardText(six)) == six
    ensures IsUrlText(s) ==> UrlText(SextetsOf(s)) == s
  {
    forall i | 0 <= i < |six|
      ensures IsUrlChar(UrlText(six)[i]) && SextetOf(UrlText(six)[i]) == six[i] && SextetOf(StandardText(six)[i]) == six[i]
    {
      CharsInvert(six[i], 'A');
    }
    if IsUrlText(s) {
      forall i | 0 <= i < |s|
        ensures UrlText(SextetsOf(s))[i] == s[i]
      {
        CharsInvert(0, s[i]);
      }
    }
  }

  // ------------------------------------------------------------- the text, bit by bit

  /** Bit `i` of a number, the lowest first. */
  function Bit(n: nat, i: nat): nat {
    if i == 0 then n % 2 else Bit(n / 2, i - 1)
  }

  function Power(m: nat): (p: nat)
    ensures p > 0
  {
    if m == 0 then 1 else 2 * Power(m - 1)
  }

  /** A number put together from a high and a low part has the bits of both. */
  lemma {:induction false} BitsOfParts(high: nat, low: nat, m: nat, i: nat)
    requires low < Power(m)
    ensures Bit(high * Power(m) + low, i) == if i < m then Bit(low, i) else Bit(high, i - m)
  {
    if m > 0 {
      var half := high * Power(m - 1);
      assert high * Power(m) == 2 * half;
      assert (2 * half + low) / 2 == half + low / 2 && (2 * half + low) % 2 == low % 2;
      if i > 0 {
        BitsOfParts(high, low / 2, m - 1, i - 1);
      }
    }
  }

  /** Bit `k` of the bytes, highest bit of the first byte first; zeros follow the last. */
  function ByteBit(bytes: seq<Byte>, k: nat): int {
    if k / 8 < |bytes| then Bit(bytes[k / 8], 7 - k % 8) else 0
  }

  function SextetBit(six: seq<Sextet>, k: nat): int {
    if k / 6 < |six| then Bit(six[k / 6], 5 - k % 6) else 0
  }

  lemma Powers()
    ensures Power(2) == 4 && Power(4) == 16 && Power(6) == 64
  {
    assert Power(1) == 2 && Power(3) == 8 && Power(5) == 32;
  }

  lemma BitsOfGroup(a: Byte, b: Byte, c: Byte, i: nat)
    requires i < 6
    ensures Bit(S0(a), i) == Bit(a, i + 2)
    ensures Bit(S1(a, b), i) == if i < 4 then Bit(b, i + 4) else Bit(a, i - 4)
    ensures Bit(S2(b, c), i) == if i < 2 then Bit(c, i + 6) else Bit(b, i - 2)
    ensures Bit(S3(c), i) == Bit(c, i)
  {
    Powers();
    var x: int, y: int, z: int := a, b, c;
    BitsOfParts(x / 4, x % 4, 2, i + 2);
    BitsOfParts(x % 4, y / 16, 4, i);
    BitsOfParts(y / 16, y % 16, 4, i + 4);
    BitsOfParts(y % 16, z / 64, 2, i);
    BitsOfParts(z / 64, z % 64, 6, i + 6);
    BitsOfParts(z / 64, z % 64, 6, i);
    if i >= 4 {
      BitsOfParts(x / 4, x % 4, 2, i - 4);
    }
    if i >= 2 {
      BitsOfParts(y / 16, y % 16, 4, i - 2);
    }
  }

  lemma BitsOfWholeGroup(a: Byte, b: Byte, c: Byte, k: nat)
    requires k < 24
    ensures SextetBit([S0(a), S1(a, b), S2(b, c), S3(c)], k) == ByteBit([a, b, c], k)
  {
    BitsOfGroup(a, b, c, 5 - k % 6);
  }

  lemma {:induction false} BitsOfZero(i: nat)
    ensures Bit(0, i) == 0
  {
    if i > 0 {
      BitsOfZero(i - 1);
    }
  }

  /** One or two bytes are spelled like three, zeros for the missing ones. */
  lemma BitsOfShortGroup(bytes: seq<Byte>, six: seq<Sextet>, more: seq<Byte>, k: nat)
    requires 0 < |bytes| < 3 && six == ToSextets(bytes) && |bytes + more| == 3
    requires forall i :: 0 <= i < |more| ==> more[i] == 0
    ensures k / 6 < |six| ==> SextetBit(six, k) == ByteBit(bytes + more, k)
    ensures k / 6 >= |six| ==> ByteBit(bytes, k) == 0
  {
    var all := bytes + more;
    if k / 6 < |six| {
      BitsOfWholeGroup(all[0], all[1], all[2], k);
      assert all == [all[0], all[1], all[2]];
      assert six[k / 6] == [S0(all[0]), S1(all[0], all[1]), S2(all[1], all[2]), S3(all[2])][k / 6];
    }
  }

  lemma BitsBeyond(bytes: seq<Byte>, more: seq<Byte>, k: nat)
    requires forall i :: 0 <= i < |more| ==> more[i] == 0
    ensures ByteBit(bytes + more, k) == ByteBit(bytes, k)
  {
    BitsOfZero(7 - k % 8);
    assert |bytes| <= k / 8 < |bytes + more| ==> (bytes + more)[k / 8] == more[k / 8 - |bytes|];
  }

  lemma BitsOfLongText(group: seq<Sextet>, more: seq<Sextet>, bytes: seq<Byte>, rest: seq<Byte>, k: nat)
    requires |group| == 4 && |bytes| == 3
    ensures SextetBit(group + more, k) == if k < 24 then SextetBit(group, k) else SextetBit(more, k - 24)
    ensures ByteBit(bytes + rest, k) == if k < 24 then ByteBit(bytes, k) else ByteBit(rest, k - 24)
  {
    if k >= 24 {
      assert k / 6 == 4 + (k - 24) / 6 && k % 6 == (k - 24) % 6;
      assert k / 8 == 3 + (k - 24) / 8 && k % 8 == (k - 24) % 8;
    }
  }

  /** The sextets are the bytes' bits, six at a time, and zeros in what is left of the last. */
  lemma {:induction false} SameBits(bytes: seq<Byte>, k: nat)
    ensures SextetBit(ToSextets(bytes), k) == ByteBit(bytes, k)
    decreases |bytes|
  {
    if |bytes| >= 3 {
      var a, b, c, rest := bytes[0], bytes[1], bytes[2], bytes[3..];
      assert bytes == [a, b, c] + rest;
      BitsOfLongText([S0(a), S1(a, b), S2(b, c), S3(c)], ToSextets(rest), [a, b, c], rest, k);
      if k < 24 {
        BitsOfWholeGroup(a, b, c, k);
      } else {
        SameBits(rest, k - 24);
      }
    } else if bytes != [] {
      var more: seq<Byte> := if |bytes| == 2 then [0] else [0, 0];
      BitsOfShortGroup(bytes, ToSextets(bytes), more, k);
      BitsBeyond(bytes, more, k);
    }
  }

  const UPPER: string := "ABCDEFGHIJKLMNOPQRSTUVWXYZ"
  const LOWER: string := "abcdefghijklmnopqrstuvwxyz"
  const DIGITS: string := "0123456789"

  lemma Ranges(i: nat)
    ensures i < 26 ==> UPPER[i] == 'A' + i as char
    ensures i < 26 ==> LOWER[i] == 'a' + i as char
    ensures i < 10 ==> DIGITS[i] == '0' + i as char
  {
    if i < 26 {
      assert i in {0, 1, 2, 3, 4, 5, 6, 7, 8, 9, 10, 11, 12, 13, 14, 15, 16, 17, 18, 19, 20, 21, 22, 23, 24, 25};
    }
  }

  /** Table 2 of RFC 4648. */
  lemma AlphabetIs(n: Sextet)
    ensures UrlChar(n) == (UPPER + LOWER + DIGITS + "-_")[n]
  {
    Ranges(if n < 26 then n else if n < 52 then n - 26 else if n < 62 then n - 52 else 0);
  }

  // ------------------------------------------------------- the platform's functions

  /** What padEnd adds to reach a multiple of four. */
  function Pad(length: nat): (p: string)
    ensures |p| == (4 - length % 4) % 4
    ensures forall i :: 0 <= i < |p| ==> p[i] == '='
  {
    seq((4 - length % 4) % 4, _ => '=')
  }

  /** btoa: standard alphabet, padded to whole groups of four. */
  function Btoa(bytes: seq<Byte>): string {
    StandardText(ToSextets(bytes)) + Pad(|ToSextets(bytes)|)
  }

  /** Up to two padding characters go, if they end a whole group of four. */
  function Unpadded(s: string): string {
    if |s| % 4 != 0 || s == [] || Last(s) != '=' then s
    else if |s| >= 2 && s[|s| - 2] == '=' then s[..|s| - 2]
    else s[..|s| - 1]
  }

  /** atob, for text without white space. */
  function Atob(s: string): Option<seq<Byte>> {
    var data := Unpadded(s);
    if |data| % 4 == 1 || exists i :: 0 <= i < |data| && !IsStandardChar(data[i]) then None
    else FromSextets(SextetsOf(data))
  }

  function ReplaceAll(s: string, from: char, to: string): (r: string)
    decreases |s|
  {
    if s == [] then [] else (if s[0] == from then to else [s[0]]) + ReplaceAll(s[1..], from, to)
  }

  // ---------------------------------------------------------------- the helpers

  function ToBase64Url(bytes: seq<Byte>): string {
    ReplaceAll(ReplaceAll(ReplaceAll(Btoa(bytes), '+', "-"), '/', "_"), '=', "")
  }

  /** fromBase64Url, which throws unless re-encoding gives the text back. */
  function FromBase64Url(value: string): Option<seq<Byte>> {
    if value == [] || !IsUrlText(value) then None
    else
      var bytes := Atob(Standard(value) + Pad(|value|));
      if bytes.None? || ToBase64Url(bytes.value) != value then None else bytes
  }

  lemma {:induction false} ReplaceOne(s: string, from: char, to: char)
    ensures |ReplaceAll(s, from, [to])| == |s|
    ensures forall i :: 0 <= i < |s| ==> ReplaceAll(s, from, [to])[i] == if s[i] == from then to else s[i]
    decreases |s|
  {
    if s != [] {
      ReplaceOne(s[1..], from, to);
    }
  }

  lemma {:induction false} RemoveAtEnd(s: string, tail: string, c: char)
    requires forall i :: 0 <= i < |s| ==> s[i] != c
    requires forall i :: 0 <= i < |tail| ==> tail[i] == c
    ensures ReplaceAll(s + tail, c, "") == s
    decreases |s| + |tail|
  {
    if s != [] {
      assert (s + tail)[1..] == s[1..] + tail;
      RemoveAtEnd(s[1..], tail, c);
    } else if tail != [] {
      assert (s + tail)[1..] == s + tail[1..];
      RemoveAtEnd(s, tail[1..], c);
    }
  }

  /** The pipeline over btoa is plain base64url without padding. */
  lemma EncoderIsUnpadded(bytes: seq<Byte>)
    ensures ToBase64Url(bytes) == UrlText(ToSextets(bytes))
  {
    var six := ToSextets(bytes);
    var text := UrlText(six);
    var a := ReplaceAll(Btoa(bytes), '+', "-");
    var b := ReplaceAll(a, '/', "_");
    ReplaceOne(Btoa(bytes), '+', '-');
    ReplaceOne(a, '/', '_');
    forall i | 0 <= i < |six|
      ensures b[i] == text[i] && text[i] != '='
    {
      assert Btoa(bytes)[i] == StandardChar(six[i]);
    }
    assert b == text + Pad(|six|);
    RemoveAtEnd(text, Pad(|six|), '=');
  }

  /** What the encoder writes, character by character: the letter of Table 2 of RFC 4648 for
      the next six bits, zeros after the last. */
  lemma EncoderSpellsBits(bytes: seq<Byte>, i: nat) returns (n: Sextet)
    requires i < |ToBase64Url(bytes)|
    ensures ToBase64Url(bytes)[i] == (UPPER + LOWER + DIGITS + "-_")[n]
    ensures forall j: nat :: j < 6 ==> Bit(n, j) == ByteBit(bytes, 6 * i + 5 - j)
  {
    EncoderIsUnpadded(bytes);
    n := ToSextets(bytes)[i];
    AlphabetIs(n);
    forall j: nat | j < 6
      ensures Bit(n, j) == ByteBit(bytes, 6 * i + 5 - j)
    {
      SameBits(bytes, 6 * i + 5 - j);
      assert (6 * i + 5 - j) / 6 == i && (6 * i + 5 - j) % 6 == 5 - j;
    }
  }

  lemma PaddingIsUndone(standard: string)
    requires standard != [] && forall i :: 0 <= i < |standard| ==> IsStandardChar(standard[i])
    ensures |standard| % 4 != 1 ==> Unpadded(standard + Pad(|standard|)) == standard
    ensures |standard| % 4 == 1 ==> Unpadded(standard + Pad(|standard|)) == standard + "="
  {
    var padded := standard + Pad(|standard|);
    if |standard| % 4 == 1 {
      assert padded[..|padded| - 2] == standard + "=";
    } else if |standard| % 4 != 0 {
      assert Last(padded) == '=';
    }
  }

  /** Back to the standard alphabet. */
  function Standard(value: string): string {
    ReplaceAll(ReplaceAll(value, '-', "+"), '_', "/")
  }

  lemma StandardIs(value: string)
    requires IsUrlText(value)
    ensures |Standard(value)| == |value|
    ensures forall i :: 0 <= i < |value| ==> IsStandardChar(Standard(value)[i])
    ensures SextetsOf(Standard(value)) == SextetsOf(value)
  {
    ReplaceOne(value, '-', '+');
    ReplaceOne(ReplaceAll(value, '-', "+"), '_', '/');
    forall i | 0 <= i < |value|
      ensures IsStandardChar(Standard(value)[i]) && SextetOf(Standard(value)[i]) == SextetOf(value[i])
    {
      assert IsUrlChar(value[i]);
    }
  }

  /** The pipeline over atob reads base64url text, padding supplied. */
  lemma DecoderReadsSextets(value: string)
    requires value != [] && IsUrlText(value)
    ensures Atob(Standard(value) + Pad(|value|)) == if |value| % 4 == 1 then None else FromSextets(SextetsOf(value))
  {
    var standard := Standard(value);
    StandardIs(value);
    PaddingIsUndone(standard);
    if |value| % 4 == 1 {
      assert !IsStandardChar((standard + "=")[|standard|]);
    }
  }

  predicate Canonical(s: string) {
    s != [] && IsUrlText(s) && CanonicalSextets(SextetsOf(s))
  }

  /** The strict decoder accepts exactly the nonempty canonical unpadded strings ... */
  lemma DecoderAcceptsIffCanonical(value: string)
    ensures FromBase64Url(value).Some? <==> Canonical(value)
    ensures FromBase64Url(value).Some? ==> ToBase64Url(FromBase64Url(value).value) == value && FromBase64Url(value).value != []
  {
    if value != [] && IsUrlText(value) {
      var six := SextetsOf(value);
      DecoderReadsSextets(value);
      BytesRoundTrip(six);
      TextInverts(six, value);
      if |value| % 4 != 1 {
        var bytes := FromSextets(six).value;
        EncoderIsUnpadded(bytes);
        TextInverts(ToSextets(bytes), value);
      }
    }
  }

  /** ... and inverts the encoder on every nonempty input. */
  lemma DecoderInvertsEncoder(bytes: seq<Byte>)
    requires bytes != []
    ensures FromBase64Url(ToBase64Url(bytes)) == Some(bytes)
    ensures Canonical(ToBase64Url(bytes))
  {
    var six := ToSextets(bytes);
    EncoderIsUnpadded(bytes);
    TextInverts(six, []);
    SextetsRoundTrip(bytes);
    BytesRoundTrip(six);
    var value := UrlText(six);
    DecoderReadsSextets(value);
  }

  lemma EncodedLength(bytes: seq<Byte>)
    ensures |ToBase64Url(bytes)| == (4 * |bytes| + 2) / 3
    ensures IsUrlText(ToBase64Url(bytes))
  {
    EncoderIsUnpadded(bytes);
    SextetCount(bytes);
    TextInverts(ToSextets(bytes), []);
  }

  /** Whole groups of four characters always decode, to three bytes each. */
  lemma WholeGroupsDecode(value: string, groups: nat)
    requires IsUrlText(value) && 0 < groups && |value| == 4 * groups
    ensures FromBase64Url(value).Some? && |FromBase64Url(value).value| == 3 * groups
  {
    assert Canonical(value);
    DecoderAcceptsIffCanonical(value);
    EncodedLength(FromBase64Url(value).value);
  }
}
