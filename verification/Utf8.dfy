/**
  UTF-8 as section 3 of RFC 3629 defines it, and the repairing decoder behind
  `String(decoding:as: UTF8.self)`: an ill-formed stretch becomes U+FFFD.
 */
module Utf8 {
  import opened BigEndian

  type Scalar = c: int | 0 <= c < 0xD800 || 0xE000 <= c <= 0x10FFFF

  type Text = seq<Scalar>

  const REPLACEMENT: Scalar := 0xFFFD

  function EncodeScalar(c: Scalar): (s: seq<Byte>)
    ensures 1 <= |s| <= 4
  {
    if c < 0x80 then [c]
    else if c < 0x800 then [0xC0 + c / 64, Tail(c)]
    else if c < 0x1_0000 then [0xE0 + c / 64 / 64, Tail(c / 64), Tail(c)]
    else [0xF0 + c / 64 / 64 / 64, Tail(c / 64 / 64), Tail(c / 64), Tail(c)]
  }

  /** A continuation byte carries the low six bits. */
  function Tail(v: nat): (b: Byte) { 0x80 + v % 64 }

  /** Appends the six bits of a continuation byte to those read before it. */
  function Join(v: int, b: Byte): (r: int) { 64 * v + (b - 0x80) }

  function Encode(t: Text): (s: seq<Byte>) {
    if t == [] then [] else EncodeScalar(t[0]) + Encode(t[1..])
  }

  /** What stands at the front of a byte string: a scalar, or `width` bytes that encode none. */
  datatype Front = Good(scalar: Scalar, width: nat) | Bad(width: nat)

  predicate IsTail(b: Byte) { 0x80 <= b <= 0xBF }

  /** Length announced by a lead byte; 0 when no well-formed sequence starts with it. */
  function Announced(b: Byte): (n: nat)
    ensures n <= 4
  {
    if b < 0x80 then 1
    else if 0xC2 <= b <= 0xDF then 2
    else if 0xE0 <= b <= 0xEF then 3
    else if 0xF0 <= b <= 0xF4 then 4
    else 0
  }

  /** The second byte excludes overlong forms, surrogates and values above U+10FFFF. */
  predicate IsSecond(lead: Byte, b: Byte) {
    && IsTail(b)
    && (lead == 0xE0 ==> b >= 0xA0)
    && (lead == 0xED ==> b <= 0x9F)
    && (lead == 0xF0 ==> b >= 0x90)
    && (lead == 0xF4 ==> b <= 0x8F)
  }

  function First(s: seq<Byte>): (f: Front)
    requires s != []
    ensures 1 <= f.width <= |s|
    ensures f.Bad? ==> f.width <= 3
  {
    var n := Announced(s[0]);
    if n == 0 then Bad(1)
    else if n == 1 then Good(s[0], 1)
    else if |s| < 2 || !IsSecond(s[0], s[1]) then Bad(1)
    else if n == 2 then Good(Join(s[0] - 0xC0, s[1]), 2)
    else if |s| < 3 || !IsTail(s[2]) then Bad(2)
    else if n == 3 then Good(Join(Join(s[0] - 0xE0, s[1]), s[2]), 3)
    else if |s| < 4 || !IsTail(s[3]) then Bad(3)
    else Good(Join(Join(Join(s[0] - 0xF0, s[1]), s[2]), s[3]), 4)
  }

  function Decode(s: seq<Byte>): (t: Text) {
    if s == [] then []
    else
      var f := First(s);
      [if f.Good? then f.scalar else REPLACEMENT] + Decode(s[f.width..])
  }

  predicate WellFormed(s: seq<Byte>) {
    s == [] || (First(s).Good? && WellFormed(s[First(s).width..]))
  }

  /** The table of section 3 of RFC 3629: ranges, marker bits, and where the bits of the number go. */
  lemma EncodedByTable(c: Scalar)
    ensures var s := EncodeScalar(c);
            && |s| == (if c <= 0x7F then 1 else if c <= 0x7FF then 2 else if c <= 0xFFFF then 3 else 4)
            && (|s| == 1 ==> c == s[0])
            && (|s| == 2 ==> 0xC0 <= s[0] <= 0xDF && c == (s[0] as int - 0xC0) * 0x40 + (s[1] as int - 0x80))
            && (|s| == 3 ==>
                  && 0xE0 <= s[0] <= 0xEF
                  && c == (s[0] as int - 0xE0) * 0x1000 + (s[1] as int - 0x80) * 0x40 + (s[2] as int - 0x80))
            && (|s| == 4 ==>
                  && 0xF0 <= s[0] <= 0xF7
                  && c == (s[0] as int - 0xF0) * 0x4_0000 + (s[1] as int - 0x80) * 0x1000
                          + (s[2] as int - 0x80) * 0x40 + (s[3] as int - 0x80))
            && forall i :: 1 <= i < |s| ==> 0x80 <= s[i] <= 0xBF
  {
  }

  lemma FirstOfEncoded(c: Scalar, rest: seq<Byte>)
    ensures First(EncodeScalar(c) + rest) == Good(c, |EncodeScalar(c)|)
  {
  }

  lemma JoinSplits(v: nat, b: Byte)
    requires IsTail(b)
    ensures Join(v, b) / 64 == v && Tail(Join(v, b)) == b
    ensures 64 * v <= Join(v, b) == 64 * v + b - 0x80 < 64 * v + 64
  {
  }

  lemma TwoBytes(a: Byte, b: Byte)
    requires Announced(a) == 2 && IsSecond(a, b)
    ensures EncodeScalar(Join(a - 0xC0, b)) == [a, b]
  {
    JoinSplits(a - 0xC0, b);
  }

  lemma ThreeBytes(a: Byte, b: Byte, c: Byte)
    requires Announced(a) == 3 && IsSecond(a, b) && IsTail(c)
    ensures var v := Join(Join(a - 0xE0, b), c);
            0x800 <= v < 0x1_0000 && !(0xD800 <= v < 0xE000) && EncodeScalar(v) == [a, b, c]
  {
    hide Join, Tail, EncodeScalar;
    var u := Join(a - 0xE0, b);
    JoinSplits(a - 0xE0, b);
    assert 0x20 <= u < 0x400 && !(0x360 <= u < 0x380);
    var v := Join(u, c);
    JoinSplits(u, c);
    assert v / 64 / 64 == a - 0xE0;
    EncodeThree(v);
  }

  lemma EncodeThree(v: Scalar)
    requires 0x800 <= v < 0x1_0000
    ensures EncodeScalar(v) == [0xE0 + v / 64 / 64, Tail(v / 64), Tail(v)]
  {
  }

  lemma EncodeFour(v: Scalar)
    requires 0x1_0000 <= v
    ensures EncodeScalar(v) == [0xF0 + v / 64 / 64 / 64, Tail(v / 64 / 64), Tail(v / 64), Tail(v)]
  {
  }

  lemma FourBytes(a: Byte, b: Byte, c: Byte, d: Byte)
    requires Announced(a) == 4 && IsSecond(a, b) && IsTail(c) && IsTail(d)
    ensures var v := Join(Join(Join(a - 0xF0, b), c), d);
            0x1_0000 <= v <= 0x10_FFFF && EncodeScalar(v) == [a, b, c, d]
  {
    hide Join, Tail, EncodeScalar;
    var u := Join(a - 0xF0, b);
    JoinSplits(a - 0xF0, b);
    assert 0x10 <= u < 0x110;
    var w := Join(u, c);
    JoinSplits(u, c);
    assert 0x400 <= w < 0x4400;
    var v := Join(w, d);
    JoinSplits(w, d);
    assert v / 64 / 64 / 64 == a - 0xF0;
    EncodeFour(v);
  }

  lemma EncodedFirst(s: seq<Byte>)
    requires s != [] && First(s).Good?
    ensures EncodeScalar(First(s).scalar) == s[..First(s).width]
  {
    var n := Announced(s[0]);
    if n == 2 {
      TwoBytes(s[0], s[1]);
    } else if n == 3 {
      ThreeBytes(s[0], s[1], s[2]);
      hide EncodeScalar, Join;
    } else if n == 4 {
      FourBytes(s[0], s[1], s[2], s[3]);
      hide EncodeScalar, Join;
    }
  }

  /** Decoding an encoded text gives the text back, and what was encoded is well formed. */
  lemma {:induction false} DecodeOfEncode(t: Text)
    ensures Decode(Encode(t)) == t && WellFormed(Encode(t))
  {
    if t == [] {
    } else {
      var s, head := Encode(t), EncodeScalar(t[0]);
      FirstOfEncoded(t[0], Encode(t[1..]));
      assert s[|head|..] == Encode(t[1..]);
      DecodeOfEncode(t[1..]);
    }
  }

  lemma EncodeCons(c: Scalar, t: Text)
    ensures Encode([c] + t) == EncodeScalar(c) + Encode(t)
  {
    assert ([c] + t)[1..] == t;
  }

  lemma DecodeFront(s: seq<Byte>)
    requires s != [] && WellFormed(s)
    ensures First(s).Good? && WellFormed(s[First(s).width..])
    ensures Decode(s) == [First(s).scalar] + Decode(s[First(s).width..])
  {
  }

  lemma EncodeOfDecodeStep(s: seq<Byte>)
    requires s != [] && WellFormed(s)
    requires var rest := s[First(s).width..]; Encode(Decode(rest)) == rest
    ensures Encode(Decode(s)) == s
  {
    hide *;
    var f := First(s);
    DecodeFront(s);
    EncodedFirst(s);
    EncodeCons(f.scalar, Decode(s[f.width..]));
    assert s == s[..f.width] + s[f.width..];
  }

  lemma {:induction false} EncodeOfDecode(s: seq<Byte>)
    requires WellFormed(s)
    ensures Encode(Decode(s)) == s
  {
    if s == [] {
    } else {
      DecodeFront(s);
      EncodeOfDecode(s[First(s).width..]);
      EncodeOfDecodeStep(s);
    }
  }

  /** Re-encoding reproduces the bytes exactly when they were well formed. */
  lemma ReproducedIffWellFormed(s: seq<Byte>)
    ensures Encode(Decode(s)) == s <==> WellFormed(s)
  {
    if WellFormed(s) {
      EncodeOfDecode(s);
    }
    DecodeOfEncode(Decode(s));
  }

  /** Every repair can be seen: unless the bytes are well formed, the text holds a U+FFFD. */
  lemma {:induction false} RepairIsVisible(s: seq<Byte>)
    requires !WellFormed(s)
    ensures exists i :: 0 <= i < |Decode(s)| && Decode(s)[i] == 0xFFFD
  {
    var f, rest := First(s), Decode(s[First(s).width..]);
    if f.Bad? {
      assert Decode(s)[0] == 0xFFFD;
    } else {
      RepairIsVisible(s[f.width..]);
      var i :| 0 <= i < |rest| && rest[i] == 0xFFFD;
      assert Decode(s)[i + 1] == 0xFFFD;
    }
  }

  /** A repair can grow a string, but never beyond three bytes for each byte read. */
  lemma {:induction false} RepairGrowth(s: seq<Byte>)
    ensures |Encode(Decode(s))| <= 3 * |s|
  {
    if s == [] {
    } else {
      var f := First(s);
      if f.Good? {
        EncodedFirst(s);
      }
      RepairGrowth(s[f.width..]);
    }
  }
}
