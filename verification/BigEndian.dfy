/** Fixed-width integers as big-endian bytes: what `readInt` and `writeInt` do for every width. */
module BigEndian {

  type Byte = x: int | 0 <= x < 256

  const MAX_INT32 := 0x7FFF_FFFF

  function Pow256(n: nat): (p: nat)
    ensures p > 0
  {
    if n == 0 then 1 else 256 * Pow256(n - 1)
  }

  /** The `n` bytes of an unsigned `v`, most significant first. */
  function UintBytes(v: nat, n: nat): (s: seq<Byte>)
    requires v < Pow256(n)
    ensures |s| == n
  {
    if n == 0 then [] else UintBytes(v / 256, n - 1) + [v % 256]
  }

  function BytesUint(s: seq<Byte>): (v: nat)
    ensures v < Pow256(|s|)
  {
    if s == [] then 0 else 256 * BytesUint(s[..|s| - 1]) + s[|s| - 1]
  }

  /** The two's complement pattern of `v` in 4 bytes. */
  function Int32Bytes(v: int): (s: seq<Byte>)
    requires -MAX_INT32 - 1 <= v <= MAX_INT32
    ensures |s| == 4
  {
    Pow256OfFour();
    UintBytes(if v < 0 then v + 0x1_0000_0000 else v, 4)
  }

  function BytesInt32(s: seq<Byte>): (v: int)
    requires |s| == 4
    ensures -MAX_INT32 - 1 <= v <= MAX_INT32
  {
    Pow256OfFour();
    var u := BytesUint(s);
    if u > MAX_INT32 then u - 0x1_0000_0000 else u
  }

  lemma Pow256OfFour()
    ensures Pow256(1) == 0x100 && Pow256(4) == 0x1_0000_0000
  {
    assert Pow256(1) == 0x100;
    assert Pow256(2) == 0x1_0000;
    assert Pow256(3) == 0x100_0000;
  }

  lemma {:induction false} UintRoundTrip(v: nat, n: nat)
    requires v < Pow256(n)
    ensures BytesUint(UintBytes(v, n)) == v
  {
    if n == 0 {
    } else {
      UintRoundTrip(v / 256, n - 1);
      assert UintBytes(v, n)[..n - 1] == UintBytes(v / 256, n - 1);
    }
  }

  lemma {:induction false} BytesRoundTrip(s: seq<Byte>)
    ensures UintBytes(BytesUint(s), |s|) == s
  {
    if s == [] {
    } else {
      BytesRoundTrip(s[..|s| - 1]);
      assert s == s[..|s| - 1] + [s[|s| - 1]];
    }
  }

  lemma Int32RoundTrip(v: int)
    requires -MAX_INT32 - 1 <= v <= MAX_INT32
    ensures BytesInt32(Int32Bytes(v)) == v
  {
    Pow256OfFour();
    UintRoundTrip(if v < 0 then v + 0x1_0000_0000 else v, 4);
  }

  lemma BytesInt32RoundTrip(s: seq<Byte>)
    requires |s| == 4
    ensures Int32Bytes(BytesInt32(s)) == s
  {
    Pow256OfFour();
    BytesRoundTrip(s);
  }
}
