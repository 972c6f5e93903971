/**
  What the laws of `Wire` leave open: which bytes the leaves read and write, and in which order the parts
  of a value come. The readers are pinned down on any buffer; the writers, against `WireWriter`.
 */
module WireFormat {
  import opened BigEndian
  import opened Optionals
  import opened Utf8
  import opened Wire

  // ---------------------------------------------------------------------------------------------
  // Leaf readers, on any buffer at any offset
  // ---------------------------------------------------------------------------------------------

  /** Network byte order and two's complement, as arithmetic over the four bytes. */
  lemma Int32Layout(s: seq<Byte>)
    requires |s| == 4
    ensures BytesUint(s) == 0x100_0000 * (s[0] as int) + 0x1_0000 * (s[1] as int) + 0x100 * (s[2] as int) + s[3]
    ensures BytesInt32(s) == BytesUint(s) - if s[0] >= 0x80 then 0x1_0000_0000 else 0
  {
    var t3, t2, t1 := s[..3], s[..2], s[..1];
    assert t3[..2] == t2 && t2[..1] == t1 && t1[..0] == [];
    assert BytesUint(t1) == s[0] && BytesUint(t2) == 0x100 * (s[0] as int) + s[1];
    assert BytesUint(t3) == 0x1_0000 * (s[0] as int) + 0x100 * (s[1] as int) + s[2];
  }

  /** A nonzero byte is true; the reader that checks Bools rejects exactly the bytes above 1. */
  lemma BoolReadsOneByte(d: Buffer, at: nat)
    ensures at >= |d| ==> BOOL_CODEC.read(SWIFT, d, at) == Throw(BufferOverflow, at)
    ensures at < |d| ==>
              && BOOL_CODEC.read(SWIFT, d, at) == Ok(d[at] != 0, at + 1)
              && BOOL_CODEC.read(EVERYTHING, d, at) ==
                 if d[at] > 1 then Throw(Rejected, at + 1) else Ok(d[at] == 1, at + 1)
    ensures BOOL_CODEC.bytes(true) == [1] && BOOL_CODEC.bytes(false) == [0]
  {
    if at < |d| {
      OneByte(d, at);
    }
  }

  /** The Int32 in the four bytes at `at`. */
  function Int32At(d: Buffer, at: nat): (n: int)
    requires at + 4 <= |d|
  {
    BytesInt32(d[at..at + 4])
  }

  /** Data: a trap exactly on a negative length, an overflow exactly if length or payload stick out. */
  lemma BlobReadsLength(d: Buffer, at: nat)
    ensures var r := BLOB_CODEC.read(SWIFT, d, at);
            && (r == Trap <==> at + 4 <= |d| && Int32At(d, at) < 0)
            && (r.Ok? <==> at + 4 <= |d| && Int32At(d, at) >= 0 && at + 4 + Int32At(d, at) <= |d|)
            && (r.Ok? ==> r.next == at + 4 + Int32At(d, at) && r.value == d[at + 4..r.next])
            && (r.Throw? ==> r.error == BufferOverflow)
  {
    hide BytesInt32;
  }

  /** Strings decode the same payload; writing one back reproduces its bytes exactly if they were well formed. */
  lemma StringReadsPayload(d: Buffer, at: nat)
    ensures var r, s := STRING_CODEC.read(SWIFT, d, at), BLOB_CODEC.read(SWIFT, d, at);
            && (r == Trap <==> s == Trap) && (r.Ok? <==> s.Ok?)
            && (r.Ok? ==>
                  && at + 4 <= r.next <= |d|
                  && r.value == Decode(d[at + 4..r.next])
                  && (STRING_CODEC.fits(r.value) && STRING_CODEC.bytes(r.value) == d[at..r.next] <==>
                        WellFormed(d[at + 4..r.next])))
  {
    BlobReadsLength(d, at);
    var s := BLOB_CODEC.read(SWIFT, d, at);
    if s.Ok? {
      var payload, t := d[at + 4..s.next], Decode(d[at + 4..s.next]);
      ReproducedIffWellFormed(payload);
      BytesInt32RoundTrip(d[at..at + 4]);
      hide Encode, Decode, WellFormed, Int32Bytes, BytesInt32;
      assert Int32Bytes(|payload|) == d[at..at + 4];
      assert d[at..s.next] == d[at..at + 4] + payload;
      if |Encode(t)| <= MAX_INT32 && Int32Bytes(|Encode(t)|) + Encode(t) == d[at..s.next] {
        assert (Int32Bytes(|Encode(t)|) + Encode(t))[4..] == d[at..s.next][4..];
      }
    }
  }

  /** The tag byte of an optional: 0 is nil, 1 precedes a value, and anything else throws. */
  lemma OptionalReadsTag<T(!new)>(c: Codec<T>, d: Buffer, at: nat)
    ensures at >= |d| ==> Optional(c).read(SWIFT, d, at) == Throw(BufferOverflow, at)
    ensures at < |d| && d[at] == 0 ==> Optional(c).read(SWIFT, d, at) == Ok(None, at + 1)
    ensures at < |d| && d[at] == 1 ==>
              var r := c.read(SWIFT, d, at + 1);
              && (r.Ok? ==> Optional(c).read(SWIFT, d, at) == Ok(Some(r.value), r.next))
              && (r.Throw? ==> Optional(c).read(SWIFT, d, at) == Throw(r.error, r.next))
              && (r.Trap? ==> Optional(c).read(SWIFT, d, at) == Trap)
    ensures at < |d| && d[at] > 1 ==> Optional(c).read(SWIFT, d, at) == Throw(UnexpectedOptionalTag, at + 1)
    ensures Optional(c).bytes(None) == [0] && forall v :: Optional(c).bytes(Some(v)) == [1] + c.bytes(v)
  {
    if at < |d| {
      OneByte(d, at);
    }
  }

  /** Enums: exactly the case numbers from 1 to the number of cases are accepted. */
  lemma EnumReadsCase<T(!new)>(all: seq<T>, d: Buffer, at: nat)
    requires Cases(all)
    ensures var r := Enum(all).read(SWIFT, d, at);
            && (at + 4 > |d| ==> r == Throw(BufferOverflow, at))
            && (at + 4 <= |d| && 1 <= Int32At(d, at) <= |all| ==> r == Ok(all[Int32At(d, at) - 1], at + 4))
            && (at + 4 <= |d| && !(1 <= Int32At(d, at) <= |all|) ==> r == Throw(UnexpectedEnumCase, at + 4))
  {
    hide BytesInt32;
  }

  /** Enums with payloads: the same, and the payload is read as that case. */
  lemma VariantReadsCase<T(!new)>(n: nat, tagOf: T -> nat, cases: nat -> Codec<T>, d: Buffer, at: nat)
    requires n <= MAX_INT32
    ensures var r := Variant(n, tagOf, cases).read(SWIFT, d, at);
            && (at + 4 > |d| ==> r == Throw(BufferOverflow, at))
            && (at + 4 <= |d| && 1 <= Int32At(d, at) <= n ==> r == cases(Int32At(d, at)).read(SWIFT, d, at + 4))
            && (at + 4 <= |d| && !(1 <= Int32At(d, at) <= n) ==> r == Throw(UnexpectedEnumCase, at + 4))
  {
    hide BytesInt32;
  }

  /** Arrays: a trap on a negative count, otherwise as many elements as it says, or the first failure among them. */
  lemma ListReadsCount<T(!new)>(c: Codec<T>, d: Buffer, at: nat)
    ensures var r := List(c).read(SWIFT, d, at);
            && (at + 4 > |d| ==> r == Throw(BufferOverflow, at))
            && (at + 4 <= |d| && Int32At(d, at) < 0 ==> r == Trap)
            && (r.Ok? ==> at + 4 <= |d| && |r.value| == Int32At(d, at))
            && (at + 4 <= |d| && Int32At(d, at) == 0 ==> r == Ok([], at + 4))
  {
    hide BytesInt32;
  }
}
