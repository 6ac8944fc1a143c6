/** Byte codecs: base64 with both alphabets, hex and percent-encoding.

    The alphabets are those of sections 4 and 5 of RFC 4648, the unreserved
    bytes those of section 2.3 of RFC 3986.  Shifts and masks are divisions and
    remainders by powers of two.
 */
module Codec {
  import opened Heap

  type Bytes = seq<Byte>

  const PAD: Byte := 61
  const PERCENT: Byte := 37

  // ---- base64 ----

  /** Letter i of the standard or the URL-safe alphabet. */
  function Letter(i: int, url: bool): (c: Byte)
    requires 0 <= i < 64
    ensures c != PAD && c != 0
  {
    if i < 26 then 65 + i
    else if i < 52 then 97 + (i - 26)
    else if i < 62 then 48 + (i - 52)
    else if i == 62 then (if url then 45 else 43)
    else if url then 95 else 47
  }

  const CAPITALS := "ABCDEFGHIJKLMNOPQRSTUVWXYZ"
  const SMALLS := "abcdefghijklmnopqrstuvwxyz"
  const DIGITS := "0123456789"

  /** The alphabet as section 4, or 5, of RFC 4648 prints it. */
  function Alphabet(url: bool): string { CAPITALS + SMALLS + DIGITS + if url then "-_" else "+/" }

  lemma CapitalIs(i: int)
    requires 0 <= i < 26
    ensures |CAPITALS| == 26 && CAPITALS[i] as int == 65 + i
  {
  }

  lemma SmallIs(i: int)
    requires 0 <= i < 26
    ensures |SMALLS| == 26 && SMALLS[i] as int == 97 + i
  {
  }

  lemma DigitIs(i: int)
    requires 0 <= i < 10
    ensures |DIGITS| == 10 && DIGITS[i] as int == 48 + i
  {
  }

  lemma Places(a: string, b: string, c: string, d: string, i: int)
    requires 0 <= i < |a| + |b| + |c| + |d|
    ensures var n := |a| + |b|;
            (a + b + c + d)[i] ==
            if i < |a| then a[i] else if i < n then b[i - |a|] else if i < n + |c| then c[i - n] else d[i - n - |c|]
  {
  }

  lemma LetterIs(i: int, url: bool)
    requires 0 <= i < 64
    ensures |Alphabet(url)| == 64 && Letter(i, url) == Alphabet(url)[i] as int
  {
    hide CAPITALS, SMALLS, DIGITS;
    CapitalIs(if i < 26 then i else 0);
    SmallIs(if 26 <= i < 52 then i - 26 else 0);
    DigitIs(if 52 <= i < 62 then i - 52 else 0);
    Places(CAPITALS, SMALLS, DIGITS, if url then "-_" else "+/", i);
  }

  lemma LettersDiffer(i: int, j: int, url: bool)
    requires 0 <= i < 64 && 0 <= j < 64 && Letter(i, url) == Letter(j, url)
    ensures i == j
  {
  }

  /** Position of a byte in the alphabet, or -1: a search from the front. */
  method Index(c: Byte, url: bool) returns (i: int)
    ensures -1 <= i < 64 && (i >= 0 ==> Letter(i, url) == c)
    ensures i < 0 ==> forall k :: 0 <= k < 64 ==> Letter(k, url) != c
  {
    if c == 0 { return -1; }
    i := 0;
    while i < 64
      invariant 0 <= i <= 64 && forall k :: 0 <= k < i ==> Letter(k, url) != c
    {
      if Letter(i, url) == c { return; }
      i := i + 1;
    }
    i := -1;
  }

  /** One group of up to three bytes as four characters. */
  function Quad(s: Bytes, url: bool): (r: Bytes)
    requires 1 <= |s| <= 3
    ensures |r| == 4
  {
    var b0, b1, b2 := s[0], if |s| > 1 then s[1] else 0, if |s| > 2 then s[2] else 0;
    [Letter(b0 / 4, url), Letter(b0 % 4 * 16 + b1 / 16, url),
     if |s| > 1 then Letter(b1 % 16 * 4 + b2 / 64, url) else PAD,
     if |s| > 2 then Letter(b2 % 64, url) else PAD]
  }

  /** Groups of three, the last one perhaps short. */
  function QuadCount(n: nat): (q: nat)
    ensures n <= 3 * q < n + 3
  {
    (n + 2) / 3
  }

  function Encode64(s: Bytes, url: bool): (r: Bytes)
    ensures |r| == 4 * QuadCount(|s|)
    decreases |s|
  {
    if s == [] then [] else if |s| <= 3 then Quad(s, url) else Quad(s[..3], url) + Encode64(s[3..], url)
  }

  lemma Multiple(d: int, m: int)
    requires m > 0
    ensures (d >= 1 ==> d * m >= m) && (d <= -1 ==> d * m <= -m)
  {
  }

  lemma Divide(x: int, q: int, r: int, m: int)
    requires m > 0 && x == q * m + r && 0 <= r < m
    ensures x / m == q && x % m == r
  {
    var d := x / m - q;
    assert d * m == r - x % m;
    Multiple(d, m);
  }

  /** The four sextets of a 24-bit group. */
  lemma Sextets(b0: Byte, b1: Byte, b2: Byte)
    ensures var trip := b0 * 65536 + b1 * 256 + b2;
            && trip / 262144 % 64 == b0 / 4 && trip / 4096 % 64 == b0 % 4 * 16 + b1 / 16
            && trip / 64 % 64 == b1 % 16 * 4 + b2 / 64 && trip % 64 == b2 % 64
  {
    var trip := b0 * 65536 + b1 * 256 + b2;
    var v0, v1, v2, v3 := b0 / 4, b0 % 4 * 16 + b1 / 16, b1 % 16 * 4 + b2 / 64, b2 % 64;
    assert trip == v0 * 262144 + v1 * 4096 + v2 * 64 + v3;
    Divide(trip, v0, v1 * 4096 + v2 * 64 + v3, 262144);
    Divide(trip, v0 * 64 + v1, v2 * 64 + v3, 4096);
    Divide(trip, v0 * 4096 + v1 * 64 + v2, v3, 64);
    Divide(v0 * 64 + v1, v0, v1, 64);
    Divide(v0 * 4096 + v1 * 64 + v2, v0 * 64 + v1, v2, 64);
  }

  /** A group is the 24 bits of its bytes, missing ones zero, as four letters of six
      bits each, the highest first; letters that stand for missing bytes alone are
      padding. */
  lemma QuadBits(s: Bytes, url: bool) returns (v0: int, v1: int, v2: int, v3: int)
    requires 1 <= |s| <= 3
    ensures 0 <= v0 < 64 && 0 <= v1 < 64 && 0 <= v2 < 64 && 0 <= v3 < 64
    ensures v0 * 262144 + v1 * 4096 + v2 * 64 + v3 ==
            s[0] as int * 65536 + (if |s| > 1 then s[1] else 0) as int * 256 + (if |s| > 2 then s[2] else 0)
    ensures Quad(s, url)[..2] == [Letter(v0, url), Letter(v1, url)]
    ensures Quad(s, url)[2] == (if |s| > 1 then Letter(v2, url) else PAD) && (|s| == 1 ==> v2 == 0)
    ensures Quad(s, url)[3] == (if |s| > 2 then Letter(v3, url) else PAD) && (|s| <= 2 ==> v3 == 0)
  {
    hide Letter;
    var b0: int, b1: int, b2: int := s[0], if |s| > 1 then s[1] else 0, if |s| > 2 then s[2] else 0;
    v0, v1, v2, v3 := b0 / 4, b0 % 4 * 16 + b1 / 16, b1 % 16 * 4 + b2 / 64, b2 % 64;
  }

  lemma Later(s: Bytes, n: nat, a: nat, b: nat)
    requires n <= a <= b <= |s|
    ensures s[n..][a - n..b - n] == s[a..b]
  {
  }

  /** Group i of the text encodes group i of the bytes. */
  lemma {:induction false} EncodedGroup(s: Bytes, url: bool, i: nat)
    requires 3 * i < |s|
    ensures 4 * i + 4 <= |Encode64(s, url)|
    ensures Encode64(s, url)[4 * i..4 * i + 4] == Quad(s[3 * i..if 3 * i + 3 < |s| then 3 * i + 3 else |s|], url)
    decreases |s|
  {
    hide Letter, Quad, Encode64;
    if |s| <= 3 {
      EncodeShort(s, url);
      assert s[0..|s|] == s;
    } else {
      var rest, q := s[3..], Quad(s[..3], url);
      EncodeLonger(s, url);
      if i == 0 {
        assert s[0..3] == s[..3];
      } else {
        var m := if 3 * i + 3 < |s| then 3 * i + 3 else |s|;
        EncodedGroup(rest, url, i - 1);
        Later(s, 3, 3 * i, m);
        LaterGroup(q, Encode64(rest, url), 4 * i);
      }
    }
  }

  lemma EncodeShort(s: Bytes, url: bool)
    requires 0 < |s| <= 3
    ensures Encode64(s, url) == Quad(s, url)
  {
  }

  lemma EncodeLonger(s: Bytes, url: bool)
    requires |s| > 3
    ensures Encode64(s, url) == Quad(s[..3], url) + Encode64(s[3..], url)
  {
    hide Quad;
  }

  lemma LaterGroup(q: Bytes, e: Bytes, k: nat)
    requires |q| == 4 <= k && k <= |e|
    ensures (q + e)[k..k + 4] == e[k - 4..k]
  {
  }

  /** What is still to encode at position i. */
  function From(s: Bytes, i: nat): Bytes { if i < |s| then s[i..] else [] }

  lemma EncodeStep(s: Bytes, i: nat, url: bool)
    requires i < |s|
    ensures var rest := s[i..];
            Encode64(rest, url) == Quad(if |rest| <= 3 then rest else rest[..3], url) + Encode64(From(s, i + 3), url)
  {
    var rest := s[i..];
    if |rest| > 3 { assert rest[3..] == From(s, i + 3); }
  }

  /** Fill a scratch buffer of the computed size, group by group. */
  method B64Encode(s: Bytes, url: bool) returns (r: Bytes)
    ensures r == Encode64(s, url)
  {
    hide Letter, Encode64, Quad, QuadCount, From, Coded;
    var n := |s|;
    var quads := QuadCount(n);
    var tmp := new Byte[4 * quads + 1](_ => 0);
    var o, i := 0, 0;
    ghost var k := 0;
    CodedStart(s, url, tmp[..0]);
    while i < n
      invariant 0 <= k <= quads && i == 3 * k && o == 4 * k && Coded(tmp[..o], s, i, url)
    {
      ghost var out := tmp[..o];
      Group(s, i, url, tmp, o);
      CodedNext(out, s, i, url);
      o, i := o + 4, i + 3;
      k := k + 1;
    }
    CodedEnd(tmp[..o], s, i, url);
    r := tmp[..4 * quads];
  }

  /** Everything before position i is encoded in `out`. */
  ghost predicate Coded(out: Bytes, s: Bytes, i: nat, url: bool) {
    out + Encode64(From(s, i), url) == Encode64(s, url)
  }

  lemma CodedStart(s: Bytes, url: bool, out: Bytes)
    requires out == []
    ensures Coded(out, s, 0, url)
  {
    hide Encode64;
    assert From(s, 0) == s && out + Encode64(s, url) == Encode64(s, url);
  }

  lemma CodedNext(out: Bytes, s: Bytes, i: nat, url: bool)
    requires i < |s| && Coded(out, s, i, url)
    ensures Coded(out + Quad(if |s[i..]| <= 3 then s[i..] else s[i..][..3], url), s, i + 3, url)
  {
    hide Encode64, Quad;
    EncodeStep(s, i, url);
    var q, e := Quad(if |s[i..]| <= 3 then s[i..] else s[i..][..3], url), Encode64(From(s, i + 3), url);
    assert out + (q + e) == out + q + e;
  }

  lemma CodedEnd(out: Bytes, s: Bytes, i: nat, url: bool)
    requires i >= |s| && Coded(out, s, i, url)
    ensures out == Encode64(s, url)
  {
    hide Encode64;
    EncodeNone(url);
    assert out + [] == out;
  }

  lemma EncodeNone(url: bool)
    ensures Encode64([], url) == []
  {
  }

  /** Encode the group that starts at position i. */
  method Group(s: Bytes, i: nat, url: bool, tmp: array<Byte>, o: nat)
    requires i < |s| && o + 4 < tmp.Length
    modifies tmp
    ensures tmp[..o + 4] == old(tmp[..o]) + Quad(if |s[i..]| <= 3 then s[i..] else s[i..][..3], url)
  {
    var n := |s|;
    var b1: Byte := if i + 1 < n then s[i + 1] else 0;
    var b2: Byte := if i + 2 < n then s[i + 2] else 0;
    var trip := s[i] * 65536 + b1 * 256 + b2;
    Sextets(s[i], b1, b2);
    tmp[o] := Letter(trip / 262144 % 64, url);
    tmp[o + 1] := Letter(trip / 4096 % 64, url);
    tmp[o + 2] := if i + 1 < n then Letter(trip / 64 % 64, url) else PAD;
    tmp[o + 3] := if i + 2 < n then Letter(trip % 64, url) else PAD;
  }

  // ---- base64 decoding ----

  /** The value of a letter, or -1. */
  function ValueOf(c: Byte, url: bool): (i: int)
    ensures -1 <= i < 64 && (i >= 0 ==> Letter(i, url) == c)
      && (i < 0 ==> forall k :: 0 <= k < 64 ==> Letter(k, url) != c)
  {
    if 65 <= c <= 90 then c - 65
    else if 97 <= c <= 122 then c - 97 + 26
    else if 48 <= c <= 57 then c - 48 + 52
    else if c == (if url then 45 else 43) then 62
    else if c == (if url then 95 else 47) then 63
    else -1
  }

  function High(v0: int, v1: int): Byte
    requires 0 <= v0 < 64 && 0 <= v1 < 64
  {
    v0 * 4 + v1 / 16
  }

  function Middle(v1: int, v2: int): Byte
    requires 0 <= v1 < 64 && 0 <= v2 < 64
  {
    v1 % 16 * 16 + v2 / 4
  }

  function Low(v2: int, v3: int): Byte
    requires 0 <= v2 < 64 && 0 <= v3 < 64
  {
    v2 % 4 * 64 + v3
  }

  /** A byte of the accumulator, k being a power of two. */
  function ByteAt(a: int, k: int): Byte
    requires k > 0
  {
    a / k % 256
  }

  /** The bytes a group of two to four letters stands for; None if one of them is
      no letter. */
  function Ungroup(q: Bytes, url: bool): Option<Bytes>
    requires 2 <= |q| <= 4
  {
    var v0, v1 := ValueOf(q[0], url), ValueOf(q[1], url);
    var v2, v3 := if |q| > 2 then ValueOf(q[2], url) else 0, if |q| > 3 then ValueOf(q[3], url) else 0;
    if v0 < 0 || v1 < 0 || v2 < 0 || v3 < 0 then None
    else Some([High(v0, v1)] + (if |q| > 2 then [Middle(v1, v2)] else []) + (if |q| > 3 then [Low(v2, v3)] else []))
  }

  /** Letters without padding, group by group. */
  function DecodeLetters(t: Bytes, url: bool): Option<Bytes>
    decreases |t|
  {
    if t == [] then Some([])
    else if |t| == 1 then None
    else if |t| <= 4 then Ungroup(t, url)
    else
      match Ungroup(t[..4], url)
      case None => None
      case Some(b) =>
        match DecodeLetters(t[4..], url)
        case None => None
        case Some(rest) => Some(b + rest)
  }

  /** How much padding is stripped: at most two. */
  function PadOf(t: Bytes): (n: nat)
    ensures n <= 2 && n <= |t|
  {
    if t == [] || t[|t| - 1] != PAD then 0 else if |t| == 1 || t[|t| - 2] != PAD then 1 else 2
  }

  function Decode64(t: Bytes, url: bool): Option<Bytes> {
    var pad := PadOf(t);
    var len := |t| - pad;
    if len > 0 && t[len - 1] == PAD then None
    else if len % 4 == 1 then None
    else if pad > 0 && |t| % 4 != 0 then None
    else DecodeLetters(t[..len], url)
  }

  /** Decoding a group gives back its bytes. */
  lemma UngroupQuad(s: Bytes, url: bool)
    requires 1 <= |s| <= 3
    ensures Ungroup(Quad(s, url)[..|s| + 1], url) == Some(s)
    ensures forall i :: |s| + 1 <= i < 4 ==> Quad(s, url)[i] == PAD
    ensures forall i :: 0 <= i <= |s| ==> Quad(s, url)[i] != PAD
  {
    hide Ungroup;
    var b0: int, b1: int, b2: int := s[0], if |s| > 1 then s[1] else 0, if |s| > 2 then s[2] else 0;
    Octets(b0, b1, b2);
    LetterValue(b0 / 4, url);
    LetterValue(b0 % 4 * 16 + b1 / 16, url);
    LetterValue(b1 % 16 * 4 + b2 / 64, url);
    LetterValue(b2 % 64, url);
    UngroupIs(Quad(s, url)[..|s| + 1], s, url);
  }

  lemma UngroupIs(q: Bytes, s: Bytes, url: bool)
    requires 1 <= |s| <= 3 && |q| == |s| + 1
    requires var b0: int, b1: int, b2: int := s[0], if |s| > 1 then s[1] else 0, if |s| > 2 then s[2] else 0;
             && ValueOf(q[0], url) == b0 / 4 && ValueOf(q[1], url) == b0 % 4 * 16 + b1 / 16
             && (|s| > 1 ==> ValueOf(q[2], url) == b1 % 16 * 4 + b2 / 64) && (|s| > 2 ==> ValueOf(q[3], url) == b2 % 64)
    ensures Ungroup(q, url) == Some(s)
  {
    hide ValueOf;
    var b0: int, b1: int, b2: int := s[0], if |s| > 1 then s[1] else 0, if |s| > 2 then s[2] else 0;
    Octets(b0, b1, b2);
    var r := Ungroup(q, url);
    assert |r.value| == |s| && r.value[0] == s[0];
    if |s| > 1 { assert r.value[1] == s[1]; }
    if |s| > 2 { assert r.value[2] == s[2]; }
    assert r.value == s;
  }

  /** Sextets back to bytes. */
  lemma Octets(b0: int, b1: int, b2: int)
    requires 0 <= b0 < 256 && 0 <= b1 < 256 && 0 <= b2 < 256
    ensures var v0, v1, v2, v3 := b0 / 4, b0 % 4 * 16 + b1 / 16, b1 % 16 * 4 + b2 / 64, b2 % 64;
            && 0 <= v0 < 64 && 0 <= v1 < 64 && 0 <= v2 < 64 && 0 <= v3 < 64
            && v0 * 4 + v1 / 16 == b0 && v1 % 16 * 16 + v2 / 4 == b1 && v2 % 4 * 64 + v3 == b2
  {
    Divide(b0 % 4 * 16 + b1 / 16, b0 % 4, b1 / 16, 16);
    Divide(b1 % 16 * 4 + b2 / 64, b1 % 16, b2 / 64, 4);
  }

  lemma LetterValue(i: int, url: bool)
    requires 0 <= i < 64
    ensures ValueOf(Letter(i, url), url) == i
  {
    LettersDiffer(i, ValueOf(Letter(i, url), url), url);
  }

  /** The letters of an encoding, its padding removed. */
  function Unpadded(s: Bytes, url: bool): Bytes {
    var e := Encode64(s, url);
    e[..|e| - (if |s| % 3 == 0 then 0 else 3 - |s| % 3)]
  }

  lemma {:induction false} LettersBack(s: Bytes, url: bool)
    ensures DecodeLetters(Unpadded(s, url), url) == Some(s) && |Unpadded(s, url)| <= |Encode64(s, url)|
    ensures forall i :: 0 <= i < |Unpadded(s, url)| ==> Unpadded(s, url)[i] != PAD
    ensures forall i :: |Unpadded(s, url)| <= i < |Encode64(s, url)| ==> Encode64(s, url)[i] == PAD
    decreases |s|
  {
    hide Quad, Ungroup, Encode64, Unpadded, QuadCount, DecodeLetters;
    if s == [] {
      NothingLeft(url);
    } else if |s| <= 3 {
      UngroupQuad(s, url);
      UnpaddedShort(s, url);
      ShortForms(s, Quad(s, url)[..|s| + 1], url);
    } else {
      var b, rest := s[..3], s[3..];
      assert s == b + rest;
      UngroupQuad(b, url);
      LettersBack(rest, url);
      EncodeLong(b, rest, url);
      UnpaddedLong(b, rest, url);
      var q, u, e := Quad(b, url), Unpadded(rest, url), Encode64(rest, url);
      assert q[..4] == q;
      DecodeFront(q, u, b, rest, url);
      FrontQuad(q, u, e);
    }
  }

  lemma ShortForms(s: Bytes, u: Bytes, url: bool)
    requires 1 <= |s| <= 3 && |u| == |s| + 1
    ensures Encode64(s, url) == Quad(s, url) && DecodeLetters(u, url) == Ungroup(u, url)
  {
    hide Quad, Ungroup;
  }

  lemma DecodeFront(q: Bytes, u: Bytes, b: Bytes, rest: Bytes, url: bool)
    requires |q| == 4 && Ungroup(q, url) == Some(b) && DecodeLetters(u, url) == Some(rest)
    ensures DecodeLetters(q + u, url) == Some(b + rest)
  {
    hide Ungroup;
    var t := q + u;
    if u == [] {
      assert t == q && b + [] == b;
    } else {
      assert t[..4] == q && t[4..] == u;
    }
  }

  /** Padding behind a group in front. */
  lemma FrontQuad(q: Bytes, u: Bytes, e: Bytes)
    requires |u| <= |e| && (forall i :: 0 <= i < |q| ==> q[i] != PAD) && (forall i :: 0 <= i < |u| ==> u[i] != PAD)
    requires forall i :: |u| <= i < |e| ==> e[i] == PAD
    ensures forall i :: 0 <= i < |q + u| ==> (q + u)[i] != PAD
    ensures forall i :: |q + u| <= i < |q + e| ==> (q + e)[i] == PAD
  {
  }

  /** Every byte string survives base64 in either alphabet, with its padding and
      without. */
  lemma Base64Back(s: Bytes, url: bool)
    ensures Decode64(Encode64(s, url), url) == Some(s)
    ensures Decode64(Unpadded(s, url), url) == Some(s)
  {
    hide Encode64, DecodeLetters;
    LettersBack(s, url);
    var e, u := Encode64(s, url), Unpadded(s, url);
    EncodedLength(s, url);
    assert e[..|u|] == u && u[..|u|] == u;
    assert PadOf(u) == 0;
    assert PadOf(e) == |e| - |u|;
  }

  lemma EncodedLength(s: Bytes, url: bool)
    ensures |Encode64(s, url)| % 4 == 0 && |Encode64(s, url)| - |Unpadded(s, url)| <= 2 && |Unpadded(s, url)| % 4 != 1
  {
    hide Encode64;
    var q, r := |s| / 3, |s| % 3;
    var n, cut := if r == 0 then q else q + 1, if r == 0 then 0 else 3 - r;
    Divide(|s| + 2, n, |s| + 2 - 3 * n, 3);
    Divide(4 * n, n, 0, 4);
    if cut > 0 { Divide(4 * n - cut, n - 1, 4 - cut, 4); }
  }

  // ---- which texts are accepted ----

  predicate IsLetter(c: Byte, url: bool) {
    65 <= c <= 90 || 97 <= c <= 122 || 48 <= c <= 57 || (if url then c == 45 || c == 95 else c == 43 || c == 47)
  }

  ghost predicate OnlyLetters(t: Bytes, url: bool) { forall i :: 0 <= i < |t| ==> IsLetter(t[i], url) }

  /** Letters, then up to two padding characters; the letters do not leave a group
      of one, and padding fills the last group. */
  ghost predicate Wellformed64(t: Bytes, pad: nat, url: bool) {
    && pad <= 2 && pad <= |t| && OnlyLetters(t[..|t| - pad], url)
    && (forall i :: |t| - pad <= i < |t| ==> t[i] == PAD)
    && (|t| - pad) % 4 != 1 && (pad > 0 ==> |t| % 4 == 0)
  }

  lemma UngroupAccepts(q: Bytes, url: bool)
    requires 2 <= |q| <= 4
    ensures Ungroup(q, url).Some? <==> OnlyLetters(q, url)
  {
    hide High, Middle, Low;
    assert forall i :: 0 <= i < |q| ==> (ValueOf(q[i], url) >= 0 <==> IsLetter(q[i], url));
  }

  lemma {:induction false} LettersAccept(t: Bytes, url: bool)
    ensures DecodeLetters(t, url).Some? <==> OnlyLetters(t, url) && |t| % 4 != 1
    decreases |t|
  {
    hide Ungroup, IsLetter;
    if 2 <= |t| <= 4 {
      UngroupAccepts(t, url);
    } else if |t| > 4 {
      UngroupAccepts(t[..4], url);
      LettersAccept(t[4..], url);
      LettersSplit(t, url);
    }
  }

  lemma LettersSplit(t: Bytes, url: bool)
    requires |t| >= 4
    ensures OnlyLetters(t, url) <==> OnlyLetters(t[..4], url) && OnlyLetters(t[4..], url)
  {
    hide IsLetter;
    assert forall i :: 4 <= i < |t| ==> t[i] == t[4..][i - 4];
  }

  /** Accepted are exactly the well-formed texts. */
  lemma Base64Accepts(t: Bytes, url: bool)
    ensures Decode64(t, url).Some? <==> exists pad :: Wellformed64(t, pad, url)
  {
    hide DecodeLetters;
    var pad := PadOf(t);
    var len := |t| - pad;
    LettersAccept(t[..len], url);
    if Decode64(t, url).Some? {
      assert Wellformed64(t, pad, url);
    }
    forall p: nat | Wellformed64(t, p, url) ensures Decode64(t, url).Some? && p == pad {
      PadIs(t, p, url);
      if len > 0 { assert t[..len][len - 1] == t[len - 1]; }
    }
  }

  lemma PadIs(t: Bytes, p: nat, url: bool)
    requires Wellformed64(t, p, url)
    ensures p == PadOf(t)
  {
    if p < |t| { assert t[..|t| - p][|t| - p - 1] == t[|t| - p - 1]; }
  }

  /** The bits of the last letter that no byte takes up are zero. */
  predicate ZeroTail(u: Bytes, url: bool) {
    && (|u| % 4 == 2 ==> ValueOf(u[|u| - 1], url) % 16 == 0)
    && (|u| % 4 == 3 ==> ValueOf(u[|u| - 1], url) % 4 == 0)
  }

  /** Sextets to bytes and back. */
  lemma SextetsBack(v0: int, v1: int, v2: int, v3: int)
    requires 0 <= v0 < 64 && 0 <= v1 < 64 && 0 <= v2 < 64 && 0 <= v3 < 64
    ensures var b0: int, b1: int, b2: int := High(v0, v1), Middle(v1, v2), Low(v2, v3);
            b0 / 4 == v0 && b0 % 4 * 16 + b1 / 16 == v1 && b1 % 16 * 4 + b2 / 64 == v2 && b2 % 64 == v3
  {
    Divide(v0 * 4 + v1 / 16, v0, v1 / 16, 4);
    Divide(v1 % 16 * 16 + v2 / 4, v1 % 16, v2 / 4, 16);
    Divide(v2 % 4 * 64 + v3, v2 % 4, v3, 64);
  }

  /** A group re-encodes to itself exactly if its unused bits are zero. */
  lemma QuadBack(q: Bytes, url: bool)
    requires 2 <= |q| <= 4 && Ungroup(q, url).Some?
    ensures var s := Ungroup(q, url).value;
            |s| == |q| - 1 && (Quad(s, url)[..|q|] == q <==> ZeroTail(q, url))
  {
    hide Letter, ValueOf, High, Middle, Low;
    var v0, v1 := ValueOf(q[0], url), ValueOf(q[1], url);
    var v2, v3 := if |q| > 2 then ValueOf(q[2], url) else 0, if |q| > 3 then ValueOf(q[3], url) else 0;
    var s := Ungroup(q, url).value;
    if |q| == 4 {
      assert s == [High(v0, v1), Middle(v1, v2), Low(v2, v3)];
      SextetsBack(v0, v1, v2, v3);
      assert Quad(s, url) == q;
      assert Quad(s, url)[..4] == Quad(s, url);
    } else if |q| == 3 {
      assert s == [High(v0, v1), Middle(v1, v2)];
      SextetsBack(v0, v1, v2, 0);
      MiddleTail(v1, v2);
      SameLetter(q[2], v2, Middle(v1, v2) % 16 * 4, url);
      assert Quad(s, url)[..3] == [q[0], q[1], Letter(Middle(v1, v2) % 16 * 4, url)];
    } else {
      assert s == [High(v0, v1)];
      SextetsBack(v0, v1, 0, 0);
      HighTail(v0, v1);
      SameLetter(q[1], v1, High(v0, v1) % 4 * 16, url);
      assert Quad(s, url)[..2] == [q[0], Letter(High(v0, v1) % 4 * 16, url)];
    }
  }

  lemma HighTail(v0: int, v1: int)
    requires 0 <= v0 < 64 && 0 <= v1 < 64
    ensures 0 <= High(v0, v1) % 4 * 16 < 64 && (High(v0, v1) % 4 * 16 == v1 <==> v1 % 16 == 0)
  {
    Divide(v0 * 4 + v1 / 16, v0, v1 / 16, 4);
  }

  lemma MiddleTail(v1: int, v2: int)
    requires 0 <= v1 < 64 && 0 <= v2 < 64
    ensures 0 <= Middle(v1, v2) % 16 * 4 < 64 && (Middle(v1, v2) % 16 * 4 == v2 <==> v2 % 4 == 0)
  {
    Divide(v1 % 16 * 16 + v2 / 4, v1 % 16, v2 / 4, 16);
  }

  lemma SameLetter(c: Byte, v: int, w: int, url: bool)
    requires ValueOf(c, url) == v && 0 <= v < 64 && 0 <= w < 64
    ensures Letter(w, url) == c <==> w == v
  {
    if Letter(w, url) == c { LettersDiffer(w, v, url); }
  }

  lemma UnpaddedShort(s: Bytes, url: bool)
    requires 1 <= |s| <= 3
    ensures Unpadded(s, url) == Quad(s, url)[..|s| + 1]
  {
    hide Quad;
  }

  lemma UnpaddedLong(b: Bytes, s: Bytes, url: bool)
    requires |b| == 3 && s != []
    ensures Unpadded(b + s, url) == Quad(b, url) + Unpadded(s, url)
  {
    hide Quad, Encode64;
    EncodeLong(b, s, url);
    EncodedLength(s, url);
    var q, e, cut := Quad(b, url), Encode64(s, url), if |s| % 3 == 0 then 0 else 3 - |s| % 3;
    assert |b + s| % 3 == |s| % 3;
    assert (q + e)[..|q + e| - cut] == q + e[..|e| - cut];
  }

  lemma EncodeLong(b: Bytes, s: Bytes, url: bool)
    requires |b| == 3 && s != []
    ensures Encode64(b + s, url) == Quad(b, url) + Encode64(s, url)
  {
    hide Quad;
    assert (b + s)[..3] == b && (b + s)[3..] == s;
  }

  /** Letters without padding are an encoding exactly if the unused bits are zero:
      every other text shares its bytes with one of those. */
  lemma {:induction false} LettersCanonical(u: Bytes, url: bool)
    requires DecodeLetters(u, url).Some?
    ensures Unpadded(DecodeLetters(u, url).value, url) == u <==> ZeroTail(u, url)
    ensures DecodeLetters(u, url).value == [] <==> u == []
    decreases |u|
  {
    hide Quad, Ungroup, ZeroTail, Unpadded, Encode64;
    if u == [] {
      NothingLeft(url);
    } else if |u| <= 4 {
      QuadBack(u, url);
      UnpaddedShort(Ungroup(u, url).value, url);
    } else {
      var q, rest := u[..4], u[4..];
      QuadBack(q, url);
      LettersCanonical(rest, url);
      var b, s := Ungroup(q, url).value, DecodeLetters(rest, url).value;
      UnpaddedLong(b, s, url);
      TailOnly(u, url);
      assert Quad(b, url) == q by { assert Quad(b, url)[..4] == Quad(b, url); }
      assert u == q + rest;
      if Unpadded(b + s, url) == u { assert Unpadded(b + s, url)[4..] == Unpadded(s, url); }
    }
  }

  lemma NothingLeft(url: bool)
    ensures Encode64([], url) == Unpadded([], url) == [] && DecodeLetters([], url) == Some([]) && ZeroTail([], url)
  {
  }

  lemma TailOnly(u: Bytes, url: bool)
    requires |u| > 4
    ensures ZeroTail(u[..4], url) && (ZeroTail(u, url) <==> ZeroTail(u[4..], url))
  {
    hide ValueOf;
    assert |u[4..]| % 4 == |u| % 4 && u[4..][|u| - 5] == u[|u| - 1];
  }

  /** An accepted text is the encoding of its bytes exactly if its last group is
      filled up and its unused bits are zero. */
  lemma Base64Canonical(t: Bytes, url: bool)
    requires Decode64(t, url).Some?
    ensures Encode64(Decode64(t, url).value, url) == t <==> |t| % 4 == 0 && ZeroTail(t[..|t| - PadOf(t)], url)
  {
    hide Encode64, DecodeLetters, ZeroTail, Unpadded, PadOf, Decode64;
    DecodedParts(t, url);
    var pad := PadOf(t);
    var u, s := t[..|t| - pad], Decode64(t, url).value;
    LettersCanonical(u, url);
    EncodedParts(s, url);
    var e, v := Encode64(s, url), Unpadded(s, url);
    if e == t {
      PadsAre(e, |e| - |v|);
    }
    if |t| % 4 == 0 && v == u {
      SameQuads(|e|, |t|, |e| - |u|, pad);
      assert t == u + t[|u|..] && e == v + e[|v|..];
      assert e[|v|..] == t[|u|..];
    }
  }

  lemma DecodedParts(t: Bytes, url: bool)
    requires Decode64(t, url).Some?
    ensures var u := t[..|t| - PadOf(t)];
            && DecodeLetters(u, url) == Decode64(t, url)
            && forall i :: |u| <= i < |t| ==> t[i] == PAD
  {
    hide DecodeLetters;
  }

  lemma EncodedParts(s: Bytes, url: bool)
    ensures var e, v := Encode64(s, url), Unpadded(s, url);
            && |v| <= |e| <= |v| + 2 && |e| % 4 == 0 && e[..|v|] == v
            && (forall i :: 0 <= i < |v| ==> e[i] != PAD) && (forall i :: |v| <= i < |e| ==> e[i] == PAD)
  {
    hide Encode64, DecodeLetters;
    LettersBack(s, url);
    EncodedLength(s, url);
    var e, v := Encode64(s, url), Unpadded(s, url);
    assert forall i :: 0 <= i < |v| ==> e[i] == v[i];
  }

  lemma PadsAre(e: Bytes, n: nat)
    requires n <= 2 && n <= |e| && forall i :: |e| - n <= i < |e| ==> e[i] == PAD
    requires n < |e| ==> e[|e| - n - 1] != PAD
    ensures PadOf(e) == n
  {
  }

  lemma SameQuads(a: nat, b: nat, p: int, q: int)
    requires a % 4 == 0 && b % 4 == 0 && a - p == b - q && 0 <= p <= 2 && 0 <= q <= 2
    ensures a == b
  {
  }

  /** Two texts with the same byte: "QQ" is its encoding, "QR" is not. */
  lemma TwoSpellings()
    ensures Decode64([81, 81], false) == Decode64([81, 82], false) == Some([65])
    ensures ZeroTail([81, 81], false) && !ZeroTail([81, 82], false)
  {
    var q, r: Bytes := [81, 81], [81, 82];
    assert q[..2] == q && r[..2] == r;
    var a: Bytes := [65];
    assert a + [] + [] == a;
    assert DecodeLetters(q, false) == Ungroup(q, false) == Some([65]);
    assert DecodeLetters(r, false) == Ungroup(r, false) == Some([65]);
  }

  // ---- the decoder as it runs ----

  /** The accumulator over the values of an unfinished group. */
  function Acc(q: Bytes, url: bool): int {
    if q == [] then 0 else Acc(q[..|q| - 1], url) * 64 + ValueOf(q[|q| - 1], url)
  }

  ghost predicate AllLetters(q: Bytes, url: bool) { forall i :: 0 <= i < |q| ==> ValueOf(q[i], url) >= 0 }

  /** Reading the bytes of a group off the accumulator: two, three or four
      sextets. */
  lemma Bits2(v0: int, v1: int)
    requires 0 <= v0 < 64 && 0 <= v1 < 64
    ensures ByteAt(v0 * 64 + v1, 16) == High(v0, v1)
  {
    Divide(v0 * 64 + v1, v0 * 4 + v1 / 16, v1 % 16, 16);
  }

  lemma Bits3(v0: int, v1: int, v2: int)
    requires 0 <= v0 < 64 && 0 <= v1 < 64 && 0 <= v2 < 64
    ensures var three := (v0 * 64 + v1) * 64 + v2;
            ByteAt(three, 1024) == High(v0, v1) && ByteAt(three, 4) == Middle(v1, v2)
  {
    hide High, Middle, ByteAt;
    Recombine3(v0, v1, v2);
    ThreeBytes((v0 * 64 + v1) * 64 + v2, High(v0, v1), Middle(v1, v2), v2 % 4);
  }

  lemma Recombine3(v0: int, v1: int, v2: int)
    requires 0 <= v0 < 64 && 0 <= v1 < 64 && 0 <= v2 < 64
    ensures 0 <= High(v0, v1) < 256 && 0 <= Middle(v1, v2) < 256 && 0 <= v2 % 4 < 4
    ensures (v0 * 64 + v1) * 64 + v2 == High(v0, v1) * 1024 + Middle(v1, v2) * 4 + v2 % 4
  {
    var h, l, c, d := v1 / 16, v1 % 16, v2 / 4, v2 % 4;
    assert v1 == 16 * h + l && v2 == 4 * c + d;
  }

  lemma ThreeBytes(three: int, x: int, y: int, z: int)
    requires 0 <= x < 256 && 0 <= y < 256 && 0 <= z < 4 && three == x * 1024 + y * 4 + z
    ensures ByteAt(three, 1024) == x && ByteAt(three, 4) == y
  {
    Divide(three, x, y * 4 + z, 1024);
    Divide(three, x * 256 + y, z, 4);
    Divide(x * 256 + y, x, y, 256);
    Divide(x, 0, x, 256);
  }

  lemma Bits4(v0: int, v1: int, v2: int, v3: int)
    requires 0 <= v0 < 64 && 0 <= v1 < 64 && 0 <= v2 < 64 && 0 <= v3 < 64
    ensures var four := ((v0 * 64 + v1) * 64 + v2) * 64 + v3;
            ByteAt(four, 65536) == High(v0, v1) && ByteAt(four, 256) == Middle(v1, v2) && ByteAt(four, 1) == Low(v2, v3)
  {
    hide High, Middle, Low, ByteAt;
    Recombine(v0, v1, v2, v3);
    FourBytes(((v0 * 64 + v1) * 64 + v2) * 64 + v3, High(v0, v1), Middle(v1, v2), Low(v2, v3));
  }

  lemma Recombine(v0: int, v1: int, v2: int, v3: int)
    requires 0 <= v0 < 64 && 0 <= v1 < 64 && 0 <= v2 < 64 && 0 <= v3 < 64
    ensures 0 <= High(v0, v1) < 256 && 0 <= Middle(v1, v2) < 256 && 0 <= Low(v2, v3) < 256
    ensures ((v0 * 64 + v1) * 64 + v2) * 64 + v3 == High(v0, v1) * 65536 + Middle(v1, v2) * 256 + Low(v2, v3)
  {
    var h, l, c, d := v1 / 16, v1 % 16, v2 / 4, v2 % 4;
    assert v1 == 16 * h + l && v2 == 4 * c + d;
  }

  lemma FourBytes(four: int, x: int, y: int, z: int)
    requires 0 <= x < 256 && 0 <= y < 256 && 0 <= z < 256 && four == x * 65536 + y * 256 + z
    ensures ByteAt(four, 65536) == x && ByteAt(four, 256) == y && ByteAt(four, 1) == z
  {
    Divide(four, x, y * 256 + z, 65536);
    Divide(four, x * 256 + y, z, 256);
    Divide(x * 256 + y, x, y, 256);
    Divide(four, four, 0, 1);
    Divide(x, 0, x, 256);
  }

  lemma AccIs(q: Bytes, url: bool)
    requires 2 <= |q| <= 4
    ensures |q| == 2 ==> Acc(q, url) == ValueOf(q[0], url) * 64 + ValueOf(q[1], url)
    ensures |q| == 3 ==> Acc(q, url) == (ValueOf(q[0], url) * 64 + ValueOf(q[1], url)) * 64 + ValueOf(q[2], url)
    ensures |q| == 4 ==>
      Acc(q, url) == ((ValueOf(q[0], url) * 64 + ValueOf(q[1], url)) * 64 + ValueOf(q[2], url)) * 64
          + ValueOf(q[3], url)
  {
    hide ValueOf;
    assert q[..1][..0] == [] && Acc(q[..1], url) == ValueOf(q[0], url);
    assert q[..2][..1] == q[..1] && q[..|q|] == q;
    if |q| > 2 { assert q[..3][..2] == q[..2]; }
    if |q| > 3 { assert q[..4][..3] == q[..3]; }
  }

  /** The bytes a finished or final group puts out. */
  function Out(a: int, n: int): Bytes {
    if n == 2 then [ByteAt(a, 16)]
    else if n == 3 then [ByteAt(a, 1024), ByteAt(a, 4)]
    else [ByteAt(a, 65536), ByteAt(a, 256), ByteAt(a, 1)]
  }

  lemma AccBytes(q: Bytes, url: bool)
    requires 2 <= |q| <= 4 && AllLetters(q, url)
    ensures Ungroup(q, url) == Some(Out(Acc(q, url), |q|))
  {
    hide ValueOf, Acc, High, Middle, Low, ByteAt;
    var v0, v1 := ValueOf(q[0], url), ValueOf(q[1], url);
    var v2, v3 := if |q| > 2 then ValueOf(q[2], url) else 0, if |q| > 3 then ValueOf(q[3], url) else 0;
    AccIs(q, url);
    Bits2(v0, v1);
    Bits3(v0, v1, v2);
    Bits4(v0, v1, v2, v3);
    var r, o := Ungroup(q, url), Out(Acc(q, url), |q|);
    assert |r.value| == |o| && r.value[0] == o[0];
    if |q| > 2 { assert r.value[1] == o[1]; }
    if |q| > 3 { assert r.value[2] == o[2]; }
    assert r.value == o;
  }

  /** One byte that is no letter spoils the whole text. */
  lemma {:induction false} BadLetter(t: Bytes, url: bool, i: nat)
    requires i < |t| && ValueOf(t[i], url) < 0
    ensures DecodeLetters(t, url) == None
    decreases |t|
  {
    if |t| > 4 {
      if i < 4 {
        assert t[..4][i] == t[i];
      } else {
        BadLetter(t[4..], url, i - 4);
      }
    }
  }

  /** `done` is decoded, `t` is left. */
  function After(done: Bytes, t: Bytes, url: bool): Option<Bytes> {
    match DecodeLetters(t, url)
    case None => None
    case Some(rest) => Some(done + rest)
  }

  lemma AfterGroup(done: Bytes, t: Bytes, b: Bytes, url: bool)
    requires |t| >= 4 && Ungroup(t[..4], url) == Some(b)
    ensures After(done, t, url) == After(done + b, t[4..], url)
  {
    hide Ungroup;
    if |t| == 4 {
      assert t[..4] == t && t[4..] == [] && done + b + [] == done + b;
    } else if DecodeLetters(t[4..], url).Some? {
      var rest := DecodeLetters(t[4..], url).value;
      assert done + (b + rest) == done + b + rest;
    }
  }

  /** Strip at most two trailing padding characters. */
  method StripPad(t: Bytes) returns (len: nat, pad: nat)
    ensures pad == PadOf(t) && len == |t| - pad
  {
    len, pad := |t|, 0;
    while len > 0 && t[len - 1] == PAD && pad < 2
      invariant pad <= 2 && len + pad == |t| && forall i :: len <= i < |t| ==> t[i] == PAD
    {
      len, pad := len - 1, pad + 1;
    }
  }

  method B64Decode(t: Bytes, url: bool) returns (r: Option<Bytes>)
    ensures r == Decode64(t, url)
  {
    var len, pad := StripPad(t);
    if |t| > 0 && len > 0 && t[len - 1] == PAD { return None; }
    if len % 4 == 1 { return None; }
    if pad > 0 && (len + pad) % 4 != 0 { return None; }
    r := Letters(t[..len], url);
  }

  /** Collect sextets in an accumulator and put out three bytes per 24 bits, into
      a scratch buffer sized for the length. */
  method Letters(t: Bytes, url: bool) returns (r: Option<Bytes>)
    requires |t| % 4 != 1
    ensures r == DecodeLetters(t, url)
  {
    hide ValueOf, DecodeLetters, Ungroup, Letter, Out, After, Acc, AllLetters;
    var tmp := new Byte[|t| / 4 * 3 + 2](_ => 0);
    var o, acc, bits, i := 0, 0, 0, 0;
    ghost var k := 0;
    AfterStart(t, url);
    assert t[0..] == t && tmp[..0] == [];
    while i < |t|
      invariant 0 <= 4 * k <= i <= |t| && i - 4 * k < 4 && bits == (i - 4 * k) * 6 && o == 3 * k
      invariant acc == Acc(t[4 * k..i], url) && AllLetters(t[4 * k..i], url)
      invariant After(tmp[..o], t[4 * k..], url) == DecodeLetters(t, url)
    {
      ghost var g := 4 * k;
      var v := Index(t[i], url);
      SameIndex(t[i], url, v);
      if v < 0 {
        BadLetter(t, url, i);
        return None;
      }
      AccNext(t[g..i + 1], url);
      assert t[g..i + 1][..i - g] == t[g..i];
      acc := acc * 64 + v;
      bits := bits + 6;
      i := i + 1;
      assert acc == Acc(t[g..i], url) && AllLetters(t[g..i], url);
      if bits == 24 {
        assert t[g..][..4] == t[g..i] && t[g..][4..] == t[i..];
        AccBytes(t[g..i], url);
        AfterGroup(tmp[..o], t[g..], Out(acc, 4), url);
        PutOut(tmp, o, acc, 4);
        o := o + 3;
        acc, bits := 0, 0;
        k := k + 1;
        assert t[4 * k..i] == [];
        AfterStart(t, url);
      }
    }
    assert t[4 * k..i] == t[4 * k..];
    Tail(tmp[..o], t[4 * k..], url);
    if bits == 12 {
      PutOut(tmp, o, acc, 2);
      o := o + 1;
    } else if bits == 18 {
      PutOut(tmp, o, acc, 3);
      o := o + 2;
    }
    r := Some(tmp[..o]);
  }

  /** Write the bytes of a group of n sextets. */
  method PutOut(tmp: array<Byte>, o: nat, acc: int, n: int)
    requires 2 <= n <= 4 && o + n - 1 <= tmp.Length
    modifies tmp
    ensures tmp[..o + n - 1] == old(tmp[..o]) + Out(acc, n)
  {
    hide ByteAt;
    if n == 2 {
      tmp[o] := ByteAt(acc, 16);
    } else if n == 3 {
      tmp[o], tmp[o + 1] := ByteAt(acc, 1024), ByteAt(acc, 4);
    } else {
      tmp[o], tmp[o + 1], tmp[o + 2] := ByteAt(acc, 65536), ByteAt(acc, 256), ByteAt(acc, 1);
    }
  }

  lemma AfterStart(t: Bytes, url: bool)
    ensures After([], t, url) == DecodeLetters(t, url) && Acc([], url) == 0 && AllLetters([], url)
  {
    if DecodeLetters(t, url).Some? { assert [] + DecodeLetters(t, url).value == DecodeLetters(t, url).value; }
  }

  lemma AccNext(q: Bytes, url: bool)
    requires q != []
    ensures Acc(q, url) == Acc(q[..|q| - 1], url) * 64 + ValueOf(q[|q| - 1], url)
    ensures AllLetters(q[..|q| - 1], url) && ValueOf(q[|q| - 1], url) >= 0 ==> AllLetters(q, url)
  {
    forall i | 0 <= i < |q| - 1 ensures q[..|q| - 1][i] == q[i] { }
  }

  lemma SameIndex(c: Byte, url: bool, i: int)
    requires -1 <= i < 64 && (i >= 0 ==> Letter(i, url) == c)
      && (i < 0 ==> forall k :: 0 <= k < 64 ==> Letter(k, url) != c)
    ensures i == ValueOf(c, url)
  {
    if i >= 0 { LetterValue(i, url); }
  }

  /** The last group, if it is not a full one. */
  lemma Tail(done: Bytes, q: Bytes, url: bool)
    requires |q| < 4 && |q| != 1 && AllLetters(q, url)
    ensures After(done, q, url) == Some(if q == [] then done else done + Out(Acc(q, url), |q|))
  {
    hide Ungroup, ValueOf, Acc;
    if q != [] { AccBytes(q, url); } else { assert done + [] == done; }
  }

  // ---- hex ----

  function HexDigit(d: int, upper: bool): Byte
    requires 0 <= d < 16
  {
    if d < 10 then 48 + d else if upper then 65 + (d - 10) else 97 + (d - 10)
  }

  function HexIndex(c: Byte): (d: int)
    ensures -1 <= d < 16
  {
    if 48 <= c <= 57 then c - 48
    else if 97 <= c <= 102 then c - 97 + 10
    else if 65 <= c <= 70 then c - 65 + 10
    else -1
  }

  lemma HexDigitIs(d: int, upper: bool)
    requires 0 <= d < 16
    ensures HexDigit(d, upper) == (if upper then "0123456789ABCDEF" else "0123456789abcdef")[d] as int
  {
  }

  lemma HexBack(b: Byte, upper: bool)
    ensures HexIndex(HexDigit(b / 16, upper)) * 16 + HexIndex(HexDigit(b % 16, upper)) == b
    ensures HexIndex(HexDigit(b / 16, upper)) >= 0 && HexIndex(HexDigit(b % 16, upper)) >= 0
  {
  }

  function HexText(s: Bytes): (r: Bytes)
    ensures |r| == 2 * |s|
  {
    if s == [] then [] else HexText(s[..|s| - 1]) + [HexDigit(s[|s| - 1] / 16, false), HexDigit(s[|s| - 1] % 16, false)]
  }

  /** Each byte is two digits, the high one first, in small letters. */
  lemma {:induction false} HexAt(s: Bytes, i: nat)
    requires i < |s|
    ensures HexText(s)[2 * i] == "0123456789abcdef"[s[i] / 16] as int
    ensures HexText(s)[2 * i + 1] == "0123456789abcdef"[s[i] % 16] as int
    decreases |s|
  {
    hide HexDigit;
    var n := |s| - 1;
    if i < n {
      HexAt(s[..n], i);
    } else {
      HexDigitIs(s[i] / 16, false);
      HexDigitIs(s[i] % 16, false);
    }
  }

  function HexBytes(t: Bytes): (r: Option<Bytes>)
    ensures r.Some? ==> 2 * |r.value| == |t|
  {
    if t == [] then Some([])
    else if |t| == 1 then None
    else
      PairOnto(HexBytes(t[..|t| - 2]), HexIndex(t[|t| - 2]), HexIndex(t[|t| - 1]))
  }

  function PairOnto(r: Option<Bytes>, hi: int, lo: int): (q: Option<Bytes>)
    requires -1 <= hi < 16 && -1 <= lo < 16
    ensures q.Some? <==> r.Some? && hi >= 0 && lo >= 0
    ensures q.Some? ==> |q.value| == |r.value| + 1
  {
    if r.None? || hi < 0 || lo < 0 then None else Some(r.value + [hi * 16 + lo])
  }

  lemma HexLast(u: Bytes, x: Byte, y: Byte)
    ensures HexBytes(u + [x, y]) == PairOnto(HexBytes(u), HexIndex(x), HexIndex(y))
  {
    hide HexIndex, PairOnto;
    var t := u + [x, y];
    assert t[..|t| - 2] == u && t[|t| - 2] == x && t[|t| - 1] == y;
  }

  lemma {:induction false} HexRoundTrip(s: Bytes)
    ensures HexBytes(HexText(s)) == Some(s)
  {
    hide HexIndex, HexDigit, HexBytes;
    if s == [] {
      HexNone();
    } else {
      var front, b := s[..|s| - 1], s[|s| - 1];
      HexRoundTrip(front);
      HexBack(b, false);
      HexAppend(HexText(front), HexDigit(b / 16, false), HexDigit(b % 16, false));
      assert s == front + [b];
    }
  }

  lemma HexNone()
    ensures HexBytes([]) == Some([])
  {
  }

  lemma HexAppend(u: Bytes, x: Byte, y: Byte)
    requires HexBytes(u).Some? && HexIndex(x) >= 0 && HexIndex(y) >= 0
    ensures HexBytes(u + [x, y]) == Some(HexBytes(u).value + [HexIndex(x) * 16 + HexIndex(y)])
  {
    hide HexIndex, HexBytes;
    HexLast(u, x, y);
  }

  lemma HexStop(u: Bytes, x: Byte, y: Byte)
    requires HexIndex(x) < 0 || HexIndex(y) < 0
    ensures HexBytes(u + [x, y]) == None
  {
    hide HexIndex, HexBytes;
    HexLast(u, x, y);
  }

  predicate IsHex(c: Byte) { 48 <= c <= 57 || 65 <= c <= 70 || 97 <= c <= 102 }

  /** Accepted are exactly the texts of even length that consist of hex digits, in
      either case. */
  lemma {:induction false} HexAccepts(t: Bytes)
    ensures HexBytes(t).Some? <==> |t| % 2 == 0 && forall i :: 0 <= i < |t| ==> IsHex(t[i])
    decreases |t|
  {
    if |t| >= 2 {
      var u := t[..|t| - 2];
      HexAccepts(u);
      assert forall i :: 0 <= i < |u| ==> u[i] == t[i];
    }
  }

  predicate NoCapital(t: Bytes) { forall i :: 0 <= i < |t| ==> !(65 <= t[i] <= 70) }

  /** An accepted text is an encoding exactly if it has no capital letter. */
  lemma {:induction false} HexCanonical(t: Bytes)
    requires HexBytes(t).Some?
    ensures HexText(HexBytes(t).value) == t <==> NoCapital(t)
    decreases |t|
  {
    hide HexIndex, HexDigit, HexBytes, HexText, NoCapital;
    if t == [] {
      HexEmpty();
    } else {
      var u, x, y := HexParts(t);
      HexCanonical(u);
      HexAppend(u, x, y);
      var s, b := HexBytes(u).value, HexIndex(x) * 16 + HexIndex(y);
      HexTextAppend(s, b);
      HexPair(x, y);
      LastTwo(HexText(s), u, HexDigit(b / 16, false), HexDigit(b % 16, false), x, y);
      CapitalAppend(u, x, y);
    }
  }

  lemma HexEmpty()
    ensures HexBytes([]) == Some([]) && HexText([]) == [] && NoCapital([])
  {
  }

  lemma HexParts(t: Bytes) returns (u: Bytes, x: Byte, y: Byte)
    requires HexBytes(t).Some? && t != []
    ensures t == u + [x, y] && HexBytes(u).Some? && HexIndex(x) >= 0 && HexIndex(y) >= 0
  {
    u, x, y := t[..|t| - 2], t[|t| - 2], t[|t| - 1];
  }

  lemma HexTextAppend(s: Bytes, b: Byte)
    ensures HexText(s + [b]) == HexText(s) + [HexDigit(b / 16, false), HexDigit(b % 16, false)]
  {
    hide HexDigit;
    assert (s + [b])[..|s|] == s;
  }

  lemma CapitalAppend(u: Bytes, x: Byte, y: Byte)
    ensures NoCapital(u + [x, y]) <==> NoCapital(u) && !(65 <= x <= 70) && !(65 <= y <= 70)
  {
    var t := u + [x, y];
    assert t[|u|] == x && t[|u| + 1] == y && forall i :: 0 <= i < |u| ==> t[i] == u[i];
  }

  lemma HexPair(x: Byte, y: Byte)
    requires HexIndex(x) >= 0 && HexIndex(y) >= 0
    ensures var b := HexIndex(x) * 16 + HexIndex(y);
            && (HexDigit(b / 16, false) == x <==> !(65 <= x <= 70))
               && (HexDigit(b % 16, false) == y <==> !(65 <= y <= 70))
  {
    Divide(HexIndex(x) * 16 + HexIndex(y), HexIndex(x), HexIndex(y), 16);
  }

  lemma LastTwo(a: Bytes, b: Bytes, x: Byte, y: Byte, x': Byte, y': Byte)
    requires |a| == |b|
    ensures a + [x, y] == b + [x', y'] <==> a == b && x == x' && y == y'
  {
    if a + [x, y] == b + [x', y'] {
      assert (a + [x, y])[..|a|] == a && (b + [x', y'])[..|b|] == b;
      assert (a + [x, y])[|a|] == x && (b + [x', y'])[|b|] == x';
      assert (a + [x, y])[|a| + 1] == y && (b + [x', y'])[|b| + 1] == y';
    }
  }

  method HexEncode(s: Bytes) returns (r: Bytes)
    ensures r == HexText(s)
  {
    hide HexDigit;
    var tmp := new Byte[2 * |s| + 1](_ => 0);
    var i := 0;
    while i < |s|
      invariant 0 <= i <= |s| && tmp[..2 * i] == HexText(s[..i])
    {
      assert s[..i + 1][..i] == s[..i];
      ghost var before := tmp[..2 * i];
      tmp[2 * i] := HexDigit(s[i] / 16, false);
      tmp[2 * i + 1] := HexDigit(s[i] % 16, false);
      assert tmp[..2 * (i + 1)] == before + [HexDigit(s[i] / 16, false), HexDigit(s[i] % 16, false)];
      i := i + 1;
    }
    assert s[..i] == s;
    r := tmp[..2 * |s|];
  }

  method HexDecode(t: Bytes) returns (r: Option<Bytes>)
    ensures r == HexBytes(t)
  {
    hide HexIndex, HexBytes;
    OddHex(t);
    HexNone();
    if |t| % 2 != 0 { return None; }
    var tmp := new Byte[|t| / 2 + 1](_ => 0);
    var k := 0;
    while 2 * k < |t|
      invariant 0 <= 2 * k <= |t| && HexBytes(t[..2 * k]) == Some(tmp[..k])
    {
      var i := 2 * k;
      var hi, lo := HexIndex(t[i]), HexIndex(t[i + 1]);
      assert t[..i + 2] == t[..i] + [t[i], t[i + 1]];
      if hi < 0 || lo < 0 {
        HexStop(t[..i], t[i], t[i + 1]);
        BadHex(t, i + 2);
        return None;
      }
      HexAppend(t[..i], t[i], t[i + 1]);
      ghost var before := tmp[..k];
      tmp[k] := hi * 16 + lo;
      assert tmp[..k + 1] == before + [hi * 16 + lo];
      k := k + 1;
    }
    assert t[..2 * k] == t;
    r := Some(tmp[..|t| / 2]);
  }

  lemma OddHex(t: Bytes)
    ensures |t| % 2 != 0 ==> HexBytes(t) == None
  {
    hide HexBytes;
    HexLength(HexBytes(t), |t|);
  }

  lemma HexLength(r: Option<Bytes>, n: nat)
    requires r.Some? ==> 2 * |r.value| == n
    ensures n % 2 != 0 ==> r == None
  {
  }

  /** A bad pair in a prefix spoils the whole text. */
  lemma {:induction false} BadHex(t: Bytes, n: nat)
    requires n <= |t| && n % 2 == 0 && |t| % 2 == 0 && HexBytes(t[..n]) == None
    ensures HexBytes(t) == None
    decreases |t|
  {
    if n == |t| {
      assert t[..n] == t;
    } else {
      assert t[..|t| - 2][..n] == t[..n];
      BadHex(t[..|t| - 2], n);
    }
  }

  // ---- percent-encoding ----

  predicate Unreserved(c: Byte) {
    65 <= c <= 90 || 97 <= c <= 122 || 48 <= c <= 57 || c == 45 || c == 95 || c == 46 || c == 126
  }

  function Escape(c: Byte): Bytes {
    if Unreserved(c) then [c] else [PERCENT, HexDigit(c / 16, true), HexDigit(c % 16, true)]
  }

  function PercentText(s: Bytes): (r: Bytes)
    ensures |s| <= |r| <= 3 * |s|
  {
    if s == [] then [] else Escape(s[0]) + PercentText(s[1..])
  }

  function PercentBytes(t: Bytes): (r: Option<Bytes>)
    ensures r.Some? ==> |r.value| <= |t|
    decreases |t|
  {
    if t == [] then Some([])
    else if t[0] != PERCENT then Front(t[0], PercentBytes(t[1..]))
    else if |t| < 3 || HexIndex(t[1]) < 0 || HexIndex(t[2]) < 0 then None
    else Front(HexIndex(t[1]) * 16 + HexIndex(t[2]), PercentBytes(t[3..]))
  }

  function Front(b: Byte, r: Option<Bytes>): (q: Option<Bytes>)
    ensures q.Some? <==> r.Some?
    ensures r.Some? ==> q.value == [b] + r.value
  {
    match r
    case None => None
    case Some(s) => Some([b] + s)
  }

  lemma {:induction false} PercentRoundTrip(s: Bytes)
    ensures PercentBytes(PercentText(s)) == Some(s)
  {
    if s != [] {
      var t, rest := PercentText(s), PercentText(s[1..]);
      PercentRoundTrip(s[1..]);
      if Unreserved(s[0]) {
        assert t[1..] == rest;
      } else {
        HexBack(s[0], true);
        assert t[3..] == rest;
      }
      assert s == [s[0]] + s[1..];
    }
  }

  /** Accepted are exactly the texts in which two hex digits follow every percent
      sign. */
  lemma {:induction false} PercentAccepts(t: Bytes)
    ensures PercentBytes(t).Some? <==> Escapes(t)
    decreases |t|
  {
    if t != [] {
      if t[0] != PERCENT {
        PercentAccepts(t[1..]);
        ShiftEscapes(t, 1);
      } else if |t| >= 3 && IsHex(t[1]) && IsHex(t[2]) {
        PercentAccepts(t[3..]);
        ShiftEscapes(t, 3);
      }
    }
  }

  predicate UpperHex(c: Byte) { 48 <= c <= 57 || 65 <= c <= 70 }

  /** A good byte at position i: an unreserved one, or the percent sign of an escape
      in capitals for a reserved byte. */
  predicate WrittenAt(t: Bytes, i: nat)
    requires i < |t|
  {
    if t[i] != PERCENT then Unreserved(t[i])
    else
      && i + 2 < |t| && UpperHex(t[i + 1]) && UpperHex(t[i + 2])
      && !Unreserved(HexIndex(t[i + 1]) * 16 + HexIndex(t[i + 2]))
  }

  ghost predicate Written(t: Bytes) { forall i :: 0 <= i < |t| ==> WrittenAt(t, i) }

  /** A good front does not matter to the rest. */
  lemma WrittenRest(t: Bytes, n: nat)
    requires |t| > 0 && WrittenAt(t, 0) && n == if t[0] == PERCENT then 3 else 1
    ensures Written(t) <==> Written(t[n..])
  {
    hide Unreserved, HexIndex, UpperHex;
    var u := t[n..];
    assert forall i :: 0 <= i < |u| ==> u[i] == t[i + n];
    if Written(t) {
      forall i | 0 <= i < |u| ensures WrittenAt(u, i) { assert WrittenAt(t, i + n); }
    }
    if Written(u) {
      if t[0] == PERCENT { HexWritten(t); }
      forall i | 0 <= i < |t| ensures WrittenAt(t, i) {
        if i >= n { assert WrittenAt(u, i - n); }
      }
    }
  }

  /** Hex digits are unreserved. */
  lemma HexWritten(t: Bytes)
    requires |t| >= 3 && UpperHex(t[1]) && UpperHex(t[2])
    ensures WrittenAt(t, 1) && WrittenAt(t, 2)
  {
  }

  /** An accepted text is the encoding of its bytes exactly if every byte outside an
      escape is unreserved, and every escape is in capitals and stands for a reserved
      byte. */
  lemma {:induction false} PercentCanonical(t: Bytes)
    requires PercentBytes(t).Some?
    ensures PercentText(PercentBytes(t).value) == t <==> Written(t)
    decreases |t|
  {
    hide Unreserved, HexIndex, HexDigit, Escape, PercentText, WrittenAt;
    if t == [] {
      PercentNone();
    } else {
      var n := if t[0] == PERCENT then 3 else 1;
      var b := if t[0] == PERCENT then HexIndex(t[1]) * 16 + HexIndex(t[2]) else t[0];
      var rest := PercentBytes(t[n..]).value;
      PercentCanonical(t[n..]);
      PercentFront(b, rest);
      EscapeWritten(t, b);
      SameFront(Escape(b), PercentText(rest), t, n);
      if WrittenAt(t, 0) { WrittenRest(t, n); }
    }
  }

  lemma PercentFront(b: Byte, rest: Bytes)
    ensures PercentText([b] + rest) == Escape(b) + PercentText(rest)
  {
    hide Escape;
    assert ([b] + rest)[1..] == rest;
  }

  /** The escape of the first byte is what stands there exactly if that is good; it
      never is a part of it. */
  lemma EscapeWritten(t: Bytes, b: Byte)
    requires |t| > 0 && (t[0] != PERCENT ==> b == t[0])
    requires t[0] == PERCENT ==>
      |t| >= 3 && HexIndex(t[1]) >= 0 && HexIndex(t[2]) >= 0 && b == HexIndex(t[1]) * 16 + HexIndex(t[2])
    ensures var n := if t[0] == PERCENT then 3 else 1;
            && (Escape(b) == t[..n] <==> WrittenAt(t, 0)) && (Escape(b) != t[..n] ==> !(Escape(b) <= t))
  {
    if t[0] == PERCENT {
      HexCapital(t[1], t[2]);
      assert t[..3] == [t[0], t[1], t[2]];
    } else {
      assert t[..1] == [t[0]];
    }
  }

  lemma HexCapital(x: Byte, y: Byte)
    requires HexIndex(x) >= 0 && HexIndex(y) >= 0
    ensures var b := HexIndex(x) * 16 + HexIndex(y);
            (HexDigit(b / 16, true) == x <==> UpperHex(x)) && (HexDigit(b % 16, true) == y <==> UpperHex(y))
  {
    Divide(HexIndex(x) * 16 + HexIndex(y), HexIndex(x), HexIndex(y), 16);
  }

  lemma SameFront(e: Bytes, p: Bytes, t: Bytes, n: nat)
    requires n <= |t| && (e != t[..n] ==> !(e <= t))
    ensures e + p == t <==> e == t[..n] && p == t[n..]
  {
    if e + p == t { assert e <= t && (e + p)[|e|..] == p; }
    assert t == t[..n] + t[n..];
  }

  ghost predicate Escapes(t: Bytes) {
    forall i :: 0 <= i < |t| && t[i] == PERCENT ==> i + 2 < |t| && IsHex(t[i + 1]) && IsHex(t[i + 2])
  }

  /** A prefix that is one plain byte or one good escape does not matter. */
  lemma ShiftEscapes(t: Bytes, n: nat)
    requires (n == 1 && |t| >= 1 && t[0] != PERCENT) || (n == 3 && |t| >= 3 && IsHex(t[1]) && IsHex(t[2]))
    ensures Escapes(t) <==> Escapes(t[n..])
  {
    var u := t[n..];
    if Escapes(t) {
      forall i | 0 <= i < |u| && u[i] == PERCENT ensures i + 2 < |u| && IsHex(u[i + 1]) && IsHex(u[i + 2]) {
        assert t[i + n] == PERCENT;
      }
    }
    if Escapes(u) {
      forall i | 0 <= i < |t| && t[i] == PERCENT ensures i + 2 < |t| && IsHex(t[i + 1]) && IsHex(t[i + 2]) {
        if i >= n { assert u[i - n] == PERCENT && u[i - n + 1] == t[i + 1] && u[i - n + 2] == t[i + 2]; }
      }
    }
  }

  lemma PercentStep(s: Bytes, i: nat)
    requires i < |s|
    ensures PercentText(s[i..]) == Escape(s[i]) + PercentText(s[i + 1..])
  {
    assert s[i..][1..] == s[i + 1..];
  }

  lemma PercentNone()
    ensures PercentText([]) == []
  {
  }

  lemma EscapeSize(c: Byte)
    ensures 1 <= |Escape(c)| <= 3
  {
  }

  method PutEscape(tmp: array<Byte>, o: nat, c: Byte) returns (end: nat)
    requires o + 3 <= tmp.Length
    modifies tmp
    ensures end == o + |Escape(c)| && tmp[..end] == old(tmp[..o]) + Escape(c)
  {
    hide HexDigit;
    if Unreserved(c) {
      tmp[o] := c;
      end := o + 1;
    } else {
      tmp[o], tmp[o + 1], tmp[o + 2] := PERCENT, HexDigit(c / 16, true), HexDigit(c % 16, true);
      end := o + 3;
    }
  }

  method PercentEncode(s: Bytes) returns (r: Bytes)
    ensures r == PercentText(s)
  {
    hide HexDigit, PercentText, Escape;
    var tmp := new Byte[3 * |s| + 1](_ => 0);
    var o, i := 0, 0;
    assert s[0..] == s;
    while i < |s|
      invariant 0 <= i <= |s| && 0 <= o <= 3 * i
      invariant tmp[..o] + PercentText(s[i..]) == PercentText(s)
    {
      PercentStep(s, i);
      EscapeSize(s[i]);
      ghost var before := tmp[..o];
      o := PutEscape(tmp, o, s[i]);
      assert before + (Escape(s[i]) + PercentText(s[i + 1..])) == tmp[..o] + PercentText(s[i + 1..]);
      i := i + 1;
    }
    assert s[i..] == [];
    PercentNone();
    assert tmp[..o] + [] == tmp[..o];
    r := tmp[..o];
  }

  /** What is known after the bytes `done` and with `rest` to read. */
  function Decoded(done: Bytes, rest: Bytes): Option<Bytes> {
    match PercentBytes(rest)
    case None => None
    case Some(s) => Some(done + s)
  }

  lemma DecodedNext(done: Bytes, b: Byte, t: Bytes, rest: Bytes)
    requires PercentBytes(t) == Front(b, PercentBytes(rest))
    ensures Decoded(done, t) == Decoded(done + [b], rest)
  {
    if PercentBytes(rest).Some? {
      assert done + ([b] + PercentBytes(rest).value) == done + [b] + PercentBytes(rest).value;
    }
  }

  method PercentDecode(t: Bytes) returns (r: Option<Bytes>)
    ensures r == PercentBytes(t)
  {
    hide HexIndex;
    var tmp := new Byte[|t| + 1](_ => 0);
    var o, i := 0, 0;
    assert t[0..] == t && tmp[..0] == [];
    DecodedStart(t);
    while i < |t|
      invariant 0 <= o <= i <= |t| && Decoded(tmp[..o], t[i..]) == PercentBytes(t)
    {
      var c := t[i];
      ghost var rest, before := t[i..], tmp[..o];
      if c != PERCENT {
        assert rest[1..] == t[i + 1..];
        DecodedNext(before, c, rest, t[i + 1..]);
        tmp[o] := c;
        assert tmp[..o + 1] == before + [c];
      } else {
        if i + 2 >= |t| { return None; }
        var hi, lo := HexIndex(t[i + 1]), HexIndex(t[i + 2]);
        assert rest[1] == t[i + 1] && rest[2] == t[i + 2];
        if hi < 0 || lo < 0 { return None; }
        assert rest[3..] == t[i + 3..];
        DecodedNext(before, hi * 16 + lo, rest, t[i + 3..]);
        tmp[o] := hi * 16 + lo;
        assert tmp[..o + 1] == before + [hi * 16 + lo];
        i := i + 2;
      }
      o, i := o + 1, i + 1;
    }
    assert t[i..] == [] && tmp[..o] + [] == tmp[..o];
    r := Some(tmp[..o]);
  }

  lemma DecodedStart(t: Bytes)
    ensures Decoded([], t) == PercentBytes(t)
  {
    if PercentBytes(t).Some? { assert [] + PercentBytes(t).value == PercentBytes(t).value; }
  }
}
