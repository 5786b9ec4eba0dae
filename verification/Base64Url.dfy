/**
 Base64url (section 5 of RFC 4648) as server/auth-jwt.js builds it from Node's base64: encode, swap two characters,
 strip the padding; and back, with the padding recomputed from the length.
 */
module Base64Url {
  import opened Common

  type Sextet = x: int | 0 <= x < 64

  /** One character of the alphabet of section 4 of RFC 4648. */
  function Letter(n: Sextet): char {
    if n < 26 then 'A' + n as char
    else if n < 52 then 'a' + (n - 26) as char
    else if n < 62 then '0' + (n - 52) as char
    else if n == 62 then '+'
    else '/'
  }

  function Value(c: char): Option<Sextet> {
    if 'A' <= c <= 'Z' then Some((c - 'A') as int)
    else if 'a' <= c <= 'z' then Some((c - 'a') as int + 26)
    else if '0' <= c <= '9' then Some((c - '0') as int + 52)
    else if c == '+' then Some(62)
    else if c == '/' then Some(63)
    else None
  }

  lemma ValueOfLetter(n: Sextet)
    ensures Value(Letter(n)) == Some(n) && Letter(n) != '='
  {
  }

  // The four values of three bytes, and the three bytes of four values.

  function First(x: Byte): Sextet { x / 4 }
  function Second(x: Byte, y: Byte): Sextet { x % 4 * 16 + y / 16 }
  function Third(y: Byte, z: Byte): Sextet { y % 16 * 4 + z / 64 }
  function Fourth(z: Byte): Sextet { z % 64 }

  function ByteOne(s: Sextet, t: Sextet): Byte { s * 4 + t / 16 }
  function ByteTwo(t: Sextet, u: Sextet): Byte { t % 16 * 16 + u / 4 }
  function ByteThree(u: Sextet, v: Sextet): Byte { u % 4 * 64 + v }

  /** Three bytes as four values, and a shorter last group with zero bits filled in. */
  function Unpack(b: Bytes): seq<Sextet> {
    if b == [] then []
    else if |b| == 1 then [First(b[0]), Second(b[0], 0)]
    else if |b| == 2 then [First(b[0]), Second(b[0], b[1]), Third(b[1], 0)]
    else [First(b[0]), Second(b[0], b[1]), Third(b[1], b[2]), Fourth(b[2])] + Unpack(b[3..])
  }

  function Letters(v: seq<Sextet>): (s: string)
    ensures |s| == |v| && forall i :: 0 <= i < |v| ==> s[i] == Letter(v[i])
  {
    seq(|v|, i requires 0 <= i < |v| => Letter(v[i]))
  }

  function Pads(b: Bytes): nat {
    (3 - |b| % 3) % 3
  }

  /** Base64 with its padding. */
  function Base64(b: Bytes): string {
    Letters(Unpack(b)) + Repeat('=', Pads(b))
  }

  /** The values of the alphabet characters; Node's reader skips the rest, padding included. */
  function Values(s: string): seq<Sextet> {
    if s == "" then [] else
    match Value(s[0]) case None => Values(s[1..]) case Some(n) => [n] + Values(s[1..])
  }

  /** Whole bytes of a list of values; spare bits go. */
  function Pack(v: seq<Sextet>): Bytes {
    if |v| < 2 then []
    else if |v| == 2 then [ByteOne(v[0], v[1])]
    else if |v| == 3 then [ByteOne(v[0], v[1]), ByteTwo(v[1], v[2])]
    else [ByteOne(v[0], v[1]), ByteTwo(v[1], v[2]), ByteThree(v[2], v[3])] + Pack(v[4..])
  }

  function Unbase64(s: string): Bytes {
    Pack(Values(s))
  }

  function ReplaceAll(s: string, a: char, b: char): (r: string)
    ensures |r| == |s| && forall i :: 0 <= i < |s| ==> r[i] == if s[i] == a then b else s[i]
  {
    if s == "" then "" else [if s[0] == a then b else s[0]] + ReplaceAll(s[1..], a, b)
  }

  function StripPadding(s: string): string {
    if s != "" && s[|s| - 1] == '=' then StripPadding(s[..|s| - 1]) else s
  }

  function Repeat(c: char, n: nat): (r: string)
    ensures |r| == n && forall i :: 0 <= i < n ==> r[i] == c
  {
    if n == 0 then "" else [c] + Repeat(c, n - 1)
  }

  function Encode(b: Bytes): string {
    StripPadding(ReplaceAll(ReplaceAll(Base64(b), '+', '-'), '/', '_'))
  }

  function Padded(s: string): string {
    s + Repeat('=', (4 - |s| % 4) % 4)
  }

  function Decode(s: string): Bytes {
    Unbase64(Padded(ReplaceAll(ReplaceAll(s, '-', '+'), '_', '/')))
  }

  // ---- how the text is made

  lemma {:induction false} UnpackedLength(b: Bytes)
    ensures |Unpack(b)| + Pads(b) == (|b| + 2) / 3 * 4
  {
    hide First, Second, Third, Fourth;
    if |b| >= 3 { UnpackedLength(b[3..]); }
  }

  lemma {:induction false} StripOfPadded(s: string, n: nat)
    requires s == "" || s[|s| - 1] != '='
    ensures StripPadding(s + Repeat('=', n)) == s
    decreases n
  {
    var t := s + Repeat('=', n);
    if n > 0 {
      assert t[..|t| - 1] == s + Repeat('=', n - 1);
      StripOfPadded(s, n - 1);
    } else {
      assert t == s;
    }
  }

  function ToUrl(c: char): char {
    if c == '+' then '-' else if c == '/' then '_' else c
  }

  function Urls(v: seq<Sextet>): (s: string)
    ensures |s| == |v| && forall i :: 0 <= i < |v| ==> s[i] == ToUrl(Letter(v[i]))
  {
    seq(|v|, i requires 0 <= i < |v| => ToUrl(Letter(v[i])))
  }

  lemma EncodeIsUrls(b: Bytes)
    ensures Encode(b) == Urls(Unpack(b))
  {
    hide ReplaceAll, StripPadding, Unpack, Letters, Urls, Repeat, Letter;
    var v, n := Unpack(b), Pads(b);
    var t := ReplaceAll(ReplaceAll(Base64(b), '+', '-'), '/', '_');
    assert t == Urls(v) + Repeat('=', n);
    if v != [] { ValueOfLetter(v[|v| - 1]); }
    StripOfPadded(Urls(v), n);
  }

  lemma UrlsBack(v: seq<Sextet>)
    ensures ReplaceAll(ReplaceAll(Urls(v), '-', '+'), '_', '/') == Letters(v)
  {
    hide ReplaceAll, Urls, Letters, Letter;
    forall i | 0 <= i < |v| ensures ReplaceAll(ReplaceAll(Urls(v), '-', '+'), '_', '/')[i] == Letters(v)[i] {
      ValueOfLetter(v[i]);
    }
  }

  /** The padding comes back exactly, because a base64 text has a length divisible by four. */
  lemma PaddingIsRestored(b: Bytes)
    ensures Padded(Letters(Unpack(b))) == Base64(b)
  {
    hide Repeat, Unpack, Letters;
    UnpackedLength(b);
    assert (4 - |Unpack(b)| % 4) % 4 == Pads(b) by { PadsFill(|Unpack(b)|, Pads(b), (|b| + 2) / 3); }
  }

  lemma PadsFill(m: nat, n: nat, groups: nat)
    requires m + n == groups * 4 && n <= 2
    ensures (4 - m % 4) % 4 == n
  {
  }

  // ---- reading undoes writing

  lemma {:induction false} ValuesOfLetters(v: seq<Sextet>, n: nat)
    ensures Values(Letters(v) + Repeat('=', n)) == v
    decreases |v|, n
  {
    var s := Letters(v) + Repeat('=', n);
    if v != [] {
      ValueOfLetter(v[0]);
      assert s[1..] == Letters(v[1..]) + Repeat('=', n);
      ValuesOfLetters(v[1..], n);
    } else if n > 0 {
      assert s[1..] == Letters(v) + Repeat('=', n - 1);
      ValuesOfLetters(v, n - 1);
    }
  }

  lemma BytesOfGroup(x: Byte, y: Byte, z: Byte)
    ensures ByteOne(First(x), Second(x, y)) == x
    ensures ByteTwo(Second(x, y), Third(y, z)) == y
    ensures ByteThree(Third(y, z), Fourth(z)) == z
  {
  }

  lemma {:induction false} PackOfUnpack(b: Bytes)
    ensures Pack(Unpack(b)) == b
  {
    hide First, Second, Third, Fourth, ByteOne, ByteTwo, ByteThree;
    if |b| >= 3 {
      PackOfUnpack(b[3..]);
      BytesOfGroup(b[0], b[1], b[2]);
      PackOfGroup(b[0], b[1], b[2], Unpack(b[3..]));
    } else if |b| == 2 {
      BytesOfGroup(b[0], b[1], 0);
    } else if |b| == 1 {
      BytesOfGroup(b[0], 0, 0);
    }
  }

  lemma PackOfGroup(x: Byte, y: Byte, z: Byte, rest: seq<Sextet>)
    ensures Pack([First(x), Second(x, y), Third(y, z), Fourth(z)] + rest) == [x, y, z] + Pack(rest)
  {
    hide First, Second, Third, Fourth, ByteOne, ByteTwo, ByteThree;
    BytesOfGroup(x, y, z);
    assert ([First(x), Second(x, y), Third(y, z), Fourth(z)] + rest)[4..] == rest;
  }

  /** Decoding undoes encoding, for every byte sequence. */
  lemma DecodeOfEncode(b: Bytes)
    ensures Decode(Encode(b)) == b
  {
    hide *;
    EncodeIsUrls(b);
    UrlsBack(Unpack(b));
    PaddingIsRestored(b);
    DecodeIs(Encode(b), Letters(Unpack(b)), b);
    UnbaseOfBase(b);
  }

  lemma DecodeIs(url: string, text: string, b: Bytes)
    requires ReplaceAll(ReplaceAll(url, '-', '+'), '_', '/') == text && Padded(text) == Base64(b)
    ensures Decode(url) == Unbase64(Base64(b))
  {
  }

  /** Standard base64 reads back too, with its padding skipped. */
  lemma UnbaseOfBase(b: Bytes)
    ensures Unbase64(Base64(b)) == b
  {
    ValuesOfLetters(Unpack(b), Pads(b));
    PackOfUnpack(b);
  }

  /** So no two byte sequences share a text. */
  lemma EncodeIsInjective(a: Bytes, b: Bytes)
    requires Encode(a) == Encode(b)
    ensures a == b
  {
    DecodeOfEncode(a);
    DecodeOfEncode(b);
  }

  predicate UrlLetter(c: char) {
    'A' <= c <= 'Z' || 'a' <= c <= 'z' || '0' <= c <= '9' || c == '-' || c == '_'
  }

  /** The text holds letters, digits, "-" and "_" only, and as many as the bytes need. */
  lemma EncodeAlphabet(b: Bytes)
    ensures forall i :: 0 <= i < |Encode(b)| ==> UrlLetter(Encode(b)[i])
    ensures |Encode(b)| == (4 * |b| + 2) / 3
  {
    hide Unpack, Encode, Urls;
    EncodeIsUrls(b);
    UnpackedLength(b);
  }

  lemma UrlsOf(b: Bytes, v: seq<Sextet>, n: nat, text: string)
    requires Unpack(b) == v && Pads(b) == n && |text| == |v| && forall i :: 0 <= i < |v| ==> text[i] == Letter(v[i]) == ToUrl(Letter(v[i]))
    ensures Encode(b) == text && Base64(b) == text + Repeat('=', n)
  {
    hide Unpack, Encode, Repeat, Letter;
    EncodeIsUrls(b);
  }

  /** Test vectors of section 10 of RFC 4648: "f", "fo", "foo". */
  lemma TestVectors()
    ensures Encode([102]) == "Zg" && Encode([102, 111]) == "Zm8" && Encode([102, 111, 111]) == "Zm9v"
    ensures Base64([102]) == "Zg==" && Base64([102, 111]) == "Zm8=" && Base64([102, 111, 111]) == "Zm9v"
  {
    hide Encode, Base64;
    assert [102, 111, 111][3..] == [];
    UrlsOf([102], [25, 32], 2, "Zg");
    UrlsOf([102, 111], [25, 38, 60], 1, "Zm8");
    UrlsOf([102, 111, 111], [25, 38, 61, 47], 0, "Zm9v");
    assert "Zg" + Repeat('=', 2) == "Zg==" && "Zm8" + Repeat('=', 1) == "Zm8=" && "Zm9v" + Repeat('=', 0) == "Zm9v";
  }

  /** The URL-safe alphabet (table 2 of RFC 4648): the letters of ASCII, its digits, the hyphen and the underscore. */
  lemma AlphabetIs(n: Sextet)
    ensures var code := ToUrl(Letter(n)) as int;
      && (n < 26 ==> code == 65 + n) && (26 <= n < 52 ==> code == 97 + n - 26) && (52 <= n < 62 ==> code == 48 + n - 52)
      && (n == 62 ==> code == 45) && (n == 63 ==> code == 95)
  {
    assert '-' as int == 45 && '_' as int == 95 && 'A' as int == 65 && 'a' as int == 97 && '0' as int == 48;
  }
}
