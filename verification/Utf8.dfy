/**
 Strings at the boundary between the host and linear memory.

 A host string is a sequence of UTF-16 code units and may contain lone
 surrogates.  `EncodeUnits` is the reference encoding: section 3 of RFC 3629,
 applied to the scalar values of the string, a lone surrogate counting as
 U+FFFD.  `Measure` is the loop that sizes the allocation, `EncodeInto` the
 bounded platform encoder, `TextDecode` the platform decoder.
 */
module Utf8 {

  type Byte = b: int | 0 <= b < 0x100
  type CodeUnit = u: int | 0 <= u < 0x1_0000
  type Scalar = c: int | 0 <= c < 0xD800 || 0xE000 <= c < 0x11_0000

  const REPLACEMENT: Scalar := 0xFFFD
  const BOM: Scalar := 0xFEFF

  predicate IsHigh(u: CodeUnit) { 0xD800 <= u <= 0xDBFF }

  predicate IsLow(u: CodeUnit) { 0xDC00 <= u <= 0xDFFF }

  predicate StartsWithPair(s: seq<CodeUnit>) {
    |s| >= 2 && IsHigh(s[0]) && IsLow(s[1])
  }

  /** Number of code units the first scalar value of `s` occupies. */
  function Width(s: seq<CodeUnit>): (w: nat)
    requires s != []
    ensures 1 <= w <= |s|
  {
    if StartsWithPair(s) then 2 else 1
  }

  function First(s: seq<CodeUnit>): Scalar
    requires s != []
  {
    if StartsWithPair(s) then 0x1_0000 + (s[0] - 0xD800) * 0x400 + (s[1] - 0xDC00)
    else if IsHigh(s[0]) || IsLow(s[0]) then REPLACEMENT
    else s[0]
  }

  function Scalars(s: seq<CodeUnit>): seq<Scalar> {
    if s == [] then [] else [First(s)] + Scalars(s[Width(s)..])
  }

  /** No code unit of `s` is a surrogate outside a high-low pair. */
  predicate NoLoneSurrogates(s: seq<CodeUnit>) {
    s == [] || ((StartsWithPair(s) || !(IsHigh(s[0]) || IsLow(s[0]))) && NoLoneSurrogates(s[Width(s)..]))
  }

  function Unit1(c: Scalar): (us: seq<CodeUnit>)
    ensures 1 <= |us| <= 2
  {
    if c < 0x1_0000 then [c]
    else [0xD800 + (c - 0x1_0000) / 0x400, 0xDC00 + (c - 0x1_0000) % 0x400]
  }

  function Units(cs: seq<Scalar>): seq<CodeUnit> {
    if cs == [] then [] else Unit1(cs[0]) + Units(cs[1..])
  }

  /** The octets of one character, section 3 of RFC 3629. */
  function Encode1(c: Scalar): (bs: seq<Byte>)
    ensures 1 <= |bs| <= 4
  {
    if c < 0x80 then [c]
    else if c < 0x800 then [0xC0 + c / 0x40, 0x80 + c % 0x40]
    else if c < 0x1_0000 then [0xE0 + c / 0x1000, 0x80 + c / 0x40 % 0x40, 0x80 + c % 0x40]
    else [0xF0 + c / 0x4_0000, 0x80 + c / 0x1000 % 0x40, 0x80 + c / 0x40 % 0x40, 0x80 + c % 0x40]
  }

  function EncodeScalars(cs: seq<Scalar>): seq<Byte> {
    if cs == [] then [] else Encode1(cs[0]) + EncodeScalars(cs[1..])
  }

  function EncodeUnits(s: seq<CodeUnit>): seq<Byte> {
    EncodeScalars(Scalars(s))
  }

  /** The value of a surrogate pair, section 2.2 of RFC 2781, and of a surrogate on its own. */
  lemma FirstExact(s: seq<CodeUnit>)
    requires s != []
    ensures StartsWithPair(s) ==>
              First(s) == 0x1_0000 + 0x400 * (s[0] as int - 0xD800) + (s[1] as int - 0xDC00) <= 0x10_FFFF
    ensures !StartsWithPair(s) && 0xD800 <= s[0] <= 0xDFFF ==> First(s) == 0xFFFD
    ensures !(0xD800 <= s[0] <= 0xDFFF) ==> First(s) == s[0]
    ensures StartsWithPair(s) <==> |s| >= 2 && 0xD800 <= s[0] <= 0xDBFF && 0xDC00 <= s[1] <= 0xDFFF
  {
  }

  /** The table of section 3 of RFC 3629: how many octets, their leading bits, and the bits of the number they carry. */
  lemma Octets(c: Scalar)
    ensures var bs := Encode1(c);
            && (|bs| == 1 <==> c <= 0x7F) && (|bs| <= 2 <==> c <= 0x7FF) && (|bs| <= 3 <==> c <= 0xFFFF)
            && (|bs| == 1 ==> bs[0] == c)
            && (|bs| == 2 ==> 0xC0 <= bs[0] < 0xE0 && c == (bs[0] as int - 0xC0) * 0x40 + (bs[1] as int - 0x80))
            && (|bs| == 3 ==> 0xE0 <= bs[0] < 0xF0
                              && c == (bs[0] as int - 0xE0) * 0x1000 + (bs[1] as int - 0x80) * 0x40
                                      + (bs[2] as int - 0x80))
            && (|bs| == 4 ==> 0xF0 <= bs[0] < 0xF8
                              && c == (bs[0] as int - 0xF0) * 0x4_0000 + (bs[1] as int - 0x80) * 0x1000
                                      + (bs[2] as int - 0x80) * 0x40 + (bs[3] as int - 0x80))
            && forall i :: 1 <= i < |bs| ==> 0x80 <= bs[i] < 0xC0
  {
    Recompose(c);
  }

  // ----- the sizing loop ------------------------------------------------------

  predicate PairAt(s: seq<CodeUnit>, i: nat) {
    i + 1 < |s| && IsHigh(s[i]) && IsLow(s[i + 1])
  }

  /** What the character at `i` adds to the encoding of the rest of the string. */
  lemma MeasureStep(s: seq<CodeUnit>, i: nat)
    requires i < |s|
    ensures var next := if PairAt(s, i) then i + 2 else i + 1;
            && |Scalars(s[i..])| == 1 + |Scalars(s[next..])|
            && |EncodeUnits(s[i..])| == |EncodeUnits(s[next..])| +
               if s[i] < 0x80 then 1 else if s[i] < 0x800 then 2 else if PairAt(s, i) then 4 else 3
  {
    var t := s[i..];
    assert t[0] == s[i] && StartsWithPair(t) == PairAt(s, i);
    assert t[Width(t)..] == if PairAt(s, i) then s[i + 2..] else s[i + 1..];
    assert Scalars(t)[1..] == Scalars(t[Width(t)..]);
  }

  /** `(ch & 0xfc00) === 0xdc00` as arithmetic on a 16-bit value. */
  lemma LowMask(ch: CodeUnit)
    ensures ch - ch % 0x400 == 0xDC00 <==> IsLow(ch)
  {
  }

  lemma NothingToMeasure()
    ensures EncodeUnits([]) == [] && Scalars([]) == []
  {
  }

  /** The allocation size and character count computed by `_utf8AllocateAndEncode`. */
  method Measure(s: seq<CodeUnit>) returns (len: nat, codepoints: nat)
    ensures len == |EncodeUnits(s)|
    ensures codepoints == |Scalars(s)|
  {
    hide EncodeUnits, Scalars;
    NothingToMeasure();
    assert s[0..] == s && s[|s|..] == [];
    len, codepoints := 0, 0;
    var i := 0;
    while i < |s|
      invariant 0 <= i <= |s|
      invariant len + |EncodeUnits(s[i..])| == |EncodeUnits(s)|
      invariant codepoints + |Scalars(s[i..])| == |Scalars(s)|
    {
      var ch := s[i];
      MeasureStep(s, i);
      codepoints := codepoints + 1;
      if ch < 0x80 {
        len := len + 1;
      } else if ch < 0x800 {
        len := len + 2;
      } else if 0xD800 <= ch <= 0xDBFF && i + 1 < |s| && s[i + 1] - s[i + 1] % 0x400 == 0xDC00 {
        LowMask(s[i + 1]);
        len := len + 4;
        i := i + 1;
      } else {
        if i + 1 < |s| { LowMask(s[i + 1]); }
        len := len + 3;
      }
      i := i + 1;
    }
  }

  // ----- the platform encoder ------------------------------------------------

  /**
   `TextEncoder.encodeInto` with `room` bytes: it writes whole characters while
   they fit, and reports the code units read and the bytes written.
   */
  function EncodeInto(s: seq<CodeUnit>, room: nat): (r: (nat, seq<Byte>))
    ensures |r.1| <= room
  {
    if s == [] || |Encode1(First(s))| > room then (0, [])
    else
      var rest := EncodeInto(s[Width(s)..], room - |Encode1(First(s))|);
      (Width(s) + rest.0, Encode1(First(s)) + rest.1)
  }

  /** With room for exactly the encoding, everything is read and written. */
  lemma {:induction false} EncodeIntoExact(s: seq<CodeUnit>)
    ensures EncodeInto(s, |EncodeUnits(s)|) == (|s|, EncodeUnits(s))
  {
    if s != [] {
      EncodeIntoExact(s[Width(s)..]);
    }
  }

  /** The encoder reads the whole string exactly when the room is sufficient. */
  lemma {:induction false} EncodeIntoWhole(s: seq<CodeUnit>, room: nat)
    ensures EncodeInto(s, room).0 == |s| <==> room >= |EncodeUnits(s)|
    ensures EncodeInto(s, room).0 <= |s|
  {
    if s != [] {
      var n := |Encode1(First(s))|;
      if n <= room {
        EncodeIntoWhole(s[Width(s)..], room - n);
      }
    }
  }

  // ----- the platform decoder ------------------------------------------------

  predicate InRange(b: seq<Byte>, i: nat, lo: int, hi: int) {
    i < |b| && lo <= b[i] <= hi
  }

  /** The payload bits of a byte whose marker is `marker`. */
  function Payload(b: Byte, marker: int): int { b as int - marker }

  /**
   One step of the `TextDecoder` UTF-8 decoder: the character at the front of
   `b` (U+FFFD for an ill-formed prefix) and the number of bytes it consumes.
   */
  function Decode1(b: seq<Byte>): (r: (Scalar, nat))
    requires b != []
    ensures 1 <= r.1 <= |b|
  {
    var x := b[0];
    if x < 0x80 then (x, 1)
    else if 0xC2 <= x <= 0xDF then
      if !InRange(b, 1, 0x80, 0xBF) then (REPLACEMENT, 1)
      else (Payload(x, 0xC0) * 0x40 + Payload(b[1], 0x80), 2)
    else if 0xE0 <= x <= 0xEF then
      if !InRange(b, 1, if x == 0xE0 then 0xA0 else 0x80, if x == 0xED then 0x9F else 0xBF) then (REPLACEMENT, 1)
      else if !InRange(b, 2, 0x80, 0xBF) then (REPLACEMENT, 2)
      else (Payload(x, 0xE0) * 0x1000 + Payload(b[1], 0x80) * 0x40 + Payload(b[2], 0x80), 3)
    else if 0xF0 <= x <= 0xF4 then
      if !InRange(b, 1, if x == 0xF0 then 0x90 else 0x80, if x == 0xF4 then 0x8F else 0xBF) then (REPLACEMENT, 1)
      else if !InRange(b, 2, 0x80, 0xBF) then (REPLACEMENT, 2)
      else if !InRange(b, 3, 0x80, 0xBF) then (REPLACEMENT, 3)
      else (Payload(x, 0xF0) * 0x4_0000 + Payload(b[1], 0x80) * 0x1000
           + Payload(b[2], 0x80) * 0x40 + Payload(b[3], 0x80), 4)
    else (REPLACEMENT, 1)
  }

  function DecodeScalars(b: seq<Byte>): seq<Scalar>
    decreases |b|
  {
    if b == [] then [] else [Decode1(b).0] + DecodeScalars(b[Decode1(b).1..])
  }

  /** `new TextDecoder().decode(b)`: a leading byte order mark is dropped. */
  function TextDecode(b: seq<Byte>): seq<CodeUnit> {
    Units(DecodeScalars(if [0xEF, 0xBB, 0xBF] <= b then b[3..] else b))
  }

  // ----- round trips ----------------------------------------------------------

  lemma Recompose(c: nat)
    ensures c == c / 0x40 * 0x40 + c % 0x40
    ensures c == c / 0x1000 * 0x1000 + c / 0x40 % 0x40 * 0x40 + c % 0x40
    ensures c == c / 0x4_0000 * 0x4_0000 + c / 0x1000 % 0x40 * 0x1000 + c / 0x40 % 0x40 * 0x40 + c % 0x40
  {
    assert c / 0x1000 == c / 0x40 / 0x40;
    assert c / 0x4_0000 == c / 0x1000 / 0x40;
  }

  lemma Decode1Encode1(c: Scalar, rest: seq<Byte>)
    ensures Decode1(Encode1(c) + rest) == (c, |Encode1(c)|)
  {
    Recompose(c);
    if 0x800 <= c < 0x1_0000 {
      Decode3(c, Encode1(c) + rest);
    } else if 0x1_0000 <= c {
      Decode4(c, Encode1(c) + rest);
    }
  }

  lemma Decode3(c: Scalar, b: seq<Byte>)
    requires 0x800 <= c < 0x1_0000 && |b| >= 3
    requires b[0] == 0xE0 + c / 0x1000 && b[1] == 0x80 + c / 0x40 % 0x40 && b[2] == 0x80 + c % 0x40
    ensures Decode1(b) == (c, 3)
  {
    Recompose(c);
    var h, m := c / 0x1000, c / 0x40 % 0x40;
    assert 0 <= h < 16 && 0 <= m < 64;
    assert h == 0 ==> m >= 0x20;
    assert h == 13 ==> m < 0x20;
  }

  lemma Decode4(c: Scalar, b: seq<Byte>)
    requires 0x1_0000 <= c && |b| >= 4
    requires b[0] == 0xF0 + c / 0x4_0000 && b[1] == 0x80 + c / 0x1000 % 0x40
    requires b[2] == 0x80 + c / 0x40 % 0x40 && b[3] == 0x80 + c % 0x40
    ensures Decode1(b) == (c, 4)
  {
    Recompose(c);
    var h, m := c / 0x4_0000, c / 0x1000 % 0x40;
    assert 0 <= h <= 4 && 0 <= m < 64;
    assert h == 0 ==> m >= 0x10;
    assert h == 4 ==> m < 0x10;
  }

  lemma {:induction false} DecodeEncodeScalars(cs: seq<Scalar>)
    ensures DecodeScalars(EncodeScalars(cs)) == cs
  {
    if cs != [] {
      var b := EncodeScalars(cs);
      Decode1Encode1(cs[0], EncodeScalars(cs[1..]));
      assert b[|Encode1(cs[0])|..] == EncodeScalars(cs[1..]);
      DecodeEncodeScalars(cs[1..]);
    }
  }

  // ----- ill-formed bytes -------------------------------------------------------

  /** The octets `x` can begin a character. */
  ghost predicate Begins(x: seq<Byte>) {
    exists c :: x <= Encode1(c)
  }

  /** The first octet tells the length, and together with the second excludes overlong forms and surrogates. */
  lemma Leads(c: Scalar)
    ensures var bs := Encode1(c);
            && (|bs| == 1 <==> bs[0] < 0x80) && (|bs| == 2 <==> 0xC2 <= bs[0] <= 0xDF)
            && (|bs| == 3 <==> 0xE0 <= bs[0] <= 0xEF) && (|bs| == 4 <==> 0xF0 <= bs[0] <= 0xF4)
            && (bs[0] == 0xE0 ==> bs[1] >= 0xA0) && (bs[0] == 0xED ==> bs[1] <= 0x9F)
            && (bs[0] == 0xF0 ==> bs[1] >= 0x90) && (bs[0] == 0xF4 ==> bs[1] <= 0x8F)
            && forall i :: 1 <= i < |bs| ==> 0x80 <= bs[i] <= 0xBF
  {
    Octets(c);
  }

  lemma Rebuild2(x: Byte, y: Byte)
    requires 0xC2 <= x <= 0xDF && 0x80 <= y <= 0xBF
    ensures Encode1((x as int - 0xC0) * 0x40 + (y as int - 0x80)) == [x, y]
  {
  }

  lemma Rebuild3(x: Byte, y: Byte, z: Byte)
    requires 0xE0 <= x <= 0xEF && 0x80 <= y <= 0xBF && 0x80 <= z <= 0xBF
    requires (x == 0xE0 ==> y >= 0xA0) && (x == 0xED ==> y <= 0x9F)
    ensures var c := (x as int - 0xE0) * 0x1000 + (y as int - 0x80) * 0x40 + (z as int - 0x80);
            (0x800 <= c < 0xD800 || 0xE000 <= c < 0x1_0000) && Encode1(c) == [x, y, z]
  {
    var h, m, l := x as int - 0xE0, y as int - 0x80, z as int - 0x80;
    var c: nat := h * 0x1000 + m * 0x40 + l;
    assert c / 0x40 == h * 0x40 + m && c % 0x40 == l;
    assert c / 0x1000 == h && c / 0x40 % 0x40 == m;
  }

  lemma Rebuild4(x: Byte, y: Byte, z: Byte, t: Byte)
    requires 0xF0 <= x <= 0xF4 && 0x80 <= y <= 0xBF && 0x80 <= z <= 0xBF && 0x80 <= t <= 0xBF
    requires (x == 0xF0 ==> y >= 0x90) && (x == 0xF4 ==> y <= 0x8F)
    ensures var c := (x as int - 0xF0) * 0x4_0000 + (y as int - 0x80) * 0x1000 + (z as int - 0x80) * 0x40
                     + (t as int - 0x80);
            0x1_0000 <= c < 0x11_0000 && Encode1(c) == [x, y, z, t]
  {
    var h, m, l, k := x as int - 0xF0, y as int - 0x80, z as int - 0x80, t as int - 0x80;
    var c: nat := h * 0x4_0000 + m * 0x1000 + l * 0x40 + k;
    assert c / 0x40 == h * 0x1000 + m * 0x40 + l && c % 0x40 == k;
    assert c / 0x1000 == h * 0x40 + m && c / 0x40 % 0x40 == l;
    assert c / 0x4_0000 == h && c / 0x1000 % 0x40 == m;
  }

  /** A character at the front, or bytes that can begin one but not go on with the next byte. */
  ghost predicate Front(b: seq<Byte>, c: Scalar, n: nat)
    requires n <= |b|
  {
    || (n == |Encode1(c)| && b[..n] == Encode1(c))
    || (c == 0xFFFD && (n == 1 || Begins(b[..n])) && (n < |b| ==> !Begins(b[..n + 1])))
  }

  /** Bytes longer than the first octet allows, or with a wrong second octet, begin no character. */
  lemma NoneBegins(x: seq<Byte>)
    requires |x| >= 2
    requires || 0x80 <= x[0] < 0xC2 || x[0] > 0xF4 || x[0] < 0x80
             || (exists i :: 1 <= i < |x| && !(0x80 <= x[i] <= 0xBF))
             || (x[0] == 0xE0 && x[1] < 0xA0) || (x[0] == 0xED && x[1] > 0x9F)
             || (x[0] == 0xF0 && x[1] < 0x90) || (x[0] == 0xF4 && x[1] > 0x8F)
    ensures !Begins(x)
  {
    hide Encode1;
    if c :| x <= Encode1(c) {
      Leads(c);
    }
  }

  /**
   The decoder takes a character when one stands at the front, and otherwise replaces as
   many bytes as can begin a character, but at least one (section 3.9 of the Unicode
   Standard: a maximal subpart).
   */
  lemma DecodeFront(b: seq<Byte>)
    requires b != []
    ensures Front(b, Decode1(b).0, Decode1(b).1)
    ensures forall c: Scalar :: Encode1(c) <= b ==> Decode1(b) == (c, |Encode1(c)|)
  {
    forall c: Scalar | Encode1(c) <= b ensures Decode1(b) == (c, |Encode1(c)|) {
      Decode1Encode1(c, b[|Encode1(c)|..]);
      assert b == Encode1(c) + b[|Encode1(c)|..];
    }
    var x := b[0];
    if 0xC2 <= x <= 0xDF {
      Front2(b);
    } else if 0xE0 <= x <= 0xEF {
      Front3(b);
    } else if 0xF0 <= x <= 0xF4 {
      Front4(b);
    } else if x >= 0x80 && |b| > 1 {
      NoneBegins(b[..2]);
    }
  }

  lemma Front2(b: seq<Byte>)
    requires b != [] && 0xC2 <= b[0] <= 0xDF
    ensures Front(b, Decode1(b).0, Decode1(b).1)
  {
    hide Encode1, Begins;
    if InRange(b, 1, 0x80, 0xBF) {
      Rebuild2(b[0], b[1]);
      assert b[..2] == [b[0], b[1]];
    } else if |b| > 1 {
      NoneBegins(b[..2]);
    }
  }

  lemma Front3(b: seq<Byte>)
    requires b != [] && 0xE0 <= b[0] <= 0xEF
    ensures Front(b, Decode1(b).0, Decode1(b).1)
  {
    hide Encode1;
    var x := b[0];
    if !InRange(b, 1, if x == 0xE0 then 0xA0 else 0x80, if x == 0xED then 0x9F else 0xBF) {
      if |b| > 1 {
        NoneBegins(b[..2]);
      }
    } else if !InRange(b, 2, 0x80, 0xBF) {
      Rebuild3(x, b[1], 0x80);
      assert b[..2] <= [x, b[1], 0x80];
      if |b| > 2 {
        assert b[..3][2] == b[2];
        NoneBegins(b[..3]);
      }
    } else {
      Rebuild3(x, b[1], b[2]);
      assert b[..3] == [x, b[1], b[2]];
    }
  }

  lemma Front4(b: seq<Byte>)
    requires b != [] && 0xF0 <= b[0] <= 0xF4
    ensures Front(b, Decode1(b).0, Decode1(b).1)
  {
    hide Encode1;
    var x := b[0];
    if !InRange(b, 1, if x == 0xF0 then 0x90 else 0x80, if x == 0xF4 then 0x8F else 0xBF) {
      if |b| > 1 {
        NoneBegins(b[..2]);
      }
    } else if !InRange(b, 2, 0x80, 0xBF) {
      Rebuild4(x, b[1], 0x80, 0x80);
      assert b[..2] <= [x, b[1], 0x80, 0x80];
      if |b| > 2 {
        assert b[..3][2] == b[2];
        NoneBegins(b[..3]);
      }
    } else if !InRange(b, 3, 0x80, 0xBF) {
      Rebuild4(x, b[1], b[2], 0x80);
      assert b[..3] <= [x, b[1], b[2], 0x80];
      if |b| > 3 {
        assert b[..4][3] == b[3];
        NoneBegins(b[..4]);
      }
    } else {
      Rebuild4(x, b[1], b[2], b[3]);
      assert b[..4] == [x, b[1], b[2], b[3]];
    }
  }

  lemma {:induction false} ScalarsUnits(cs: seq<Scalar>)
    ensures Scalars(Units(cs)) == cs && NoLoneSurrogates(Units(cs))
  {
    if cs != [] {
      var s, u := Units(cs), Unit1(cs[0]);
      assert Width(s) == |u| && First(s) == cs[0];
      assert s[|u|..] == Units(cs[1..]);
      ScalarsUnits(cs[1..]);
    }
  }

  lemma {:induction false} UnitsScalars(s: seq<CodeUnit>)
    ensures |Units(Scalars(s))| == |s|
    ensures Units(Scalars(s)) == s <==> NoLoneSurrogates(s)
  {
    if s != [] {
      var tail := s[Width(s)..];
      UnitsScalars(tail);
      assert s == s[..Width(s)] + tail;
      var u := Unit1(First(s));
      assert |u| == Width(s);
      assert Units(Scalars(s)) == u + Units(Scalars(tail)) by {
        assert Scalars(s)[1..] == Scalars(tail);
      }
      assert u == s[..Width(s)] <==> StartsWithPair(s) || !(IsHigh(s[0]) || IsLow(s[0]));
      assert u + Units(Scalars(tail)) == s <==> u == s[..Width(s)] && Units(Scalars(tail)) == tail by {
        var t := u + Units(Scalars(tail));
        if t == s {
          assert t[..|u|] == u && t[|u|..] == Units(Scalars(tail));
        }
      }
    }
  }

  /** The encoding starts with the byte order mark exactly when the string does. */
  lemma EncodedBom(cs: seq<Scalar>)
    ensures [0xEF, 0xBB, 0xBF] <= EncodeScalars(cs) <==> cs != [] && cs[0] == BOM
    ensures cs != [] && cs[0] == BOM ==> EncodeScalars(cs)[3..] == EncodeScalars(cs[1..])
  {
    if cs != [] {
      var b := EncodeScalars(cs);
      var rest := EncodeScalars(cs[1..]);
      Decode1Encode1(cs[0], rest);
      if [0xEF, 0xBB, 0xBF] <= b {
        assert b[0] == 0xEF && b[1] == 0xBB && b[2] == 0xBF;
        assert Decode1(b).0 == BOM;
      }
      if cs[0] == BOM {
        assert Encode1(BOM) == [0xEF, 0xBB, 0xBF];
        assert b[..3] == [0xEF, 0xBB, 0xBF];
      }
    }
  }

  /**
   A host string survives the trip through linear memory exactly when it has no
   lone surrogate and does not start with a byte order mark.
   */
  lemma TextRoundTrip(s: seq<CodeUnit>)
    ensures TextDecode(EncodeUnits(s)) == s <==> NoLoneSurrogates(s) && !(s != [] && s[0] == BOM)
  {
    var cs := Scalars(s);
    EncodedBom(cs);
    UnitsScalars(s);
    if s != [] && s[0] == BOM {
      assert cs[0] == BOM;
      DecodeEncodeScalars(cs[1..]);
      assert Units(cs) == Unit1(cs[0]) + Units(cs[1..]);
      assert |TextDecode(EncodeUnits(s))| == |s| - 1;
    } else {
      assert s != [] ==> cs[0] != BOM;
      DecodeEncodeScalars(cs);
    }
  }
}
