/**
  The shape every generated converter has: a writer that appends bytes, and a reader that moves an
  offset over a buffer. A reader may throw, or trap (a Swift runtime failure that ends the process).
 */
module Wire {
  import opened BigEndian
  import opened Optionals
  import opened Utf8

  type Buffer = seq<Byte>

  datatype FfiError =
    | BufferOverflow
    | IncompleteData
    | UnexpectedOptionalTag
    | UnexpectedEnumCase
    | Rejected // no Swift error: only a reader run with extra `Checks` reports it

  /** `next` is where the reader stands afterwards, also when it threw. */
  datatype Read<+T> = Ok(value: T, next: nat) | Throw(error: FfiError, next: nat) | Trap {
    predicate IsFailure() { !Ok? }

    function PropagateFailure<U>(): (r: Read<U>)
      requires !Ok?
    {
      match this
      case Throw(e, p) => Throw(e, p)
      case Trap => Trap
    }

    function Extract(): (r: (T, nat))
      requires Ok?
    {
      (value, next)
    }
  }

  /**
    Conditions the Swift readers leave unchecked. With a flag set, a reader throws `Rejected` on a Bool
    byte other than 0 and 1, on an ill-formed string payload, or on a negative length.
   */
  datatype Checks = Checks(bools: bool, texts: bool, lengths: bool)

  const SWIFT := Checks(false, false, false)
  const LENGTHS_ONLY := Checks(false, false, true)
  const EVERYTHING := Checks(true, true, true)

  /** `s` is what stands in `d` from offset `at` on. */
  predicate Window(d: Buffer, at: nat, s: Buffer) {
    at + |s| <= |d| && d[at..at + |s|] == s
  }

  lemma WindowSplit(d: Buffer, at: nat, s: Buffer, t: Buffer)
    ensures Window(d, at, s + t) <==> Window(d, at, s) && Window(d, at + |s|, t)
  {
    if at + |s| + |t| <= |d| {
      var w := d[at..at + |s + t|];
      assert w == d[at..at + |s|] + d[at + |s|..at + |s| + |t|];
      if w == s + t {
        assert d[at..at + |s|] == w[..|s|] == s;
        assert d[at + |s|..at + |s| + |t|] == w[|s|..] == t;
      }
    }
  }

  lemma WindowInContext(before: Buffer, s: Buffer, after: Buffer)
    ensures Window(before + s + after, |before|, s)
  {
  }

  // ---------------------------------------------------------------------------------------------
  // Primitives
  // ---------------------------------------------------------------------------------------------

  /** `readBytes`, and the guard and copy at the heart of `readInt`. */
  function ReadBytes(d: Buffer, at: nat, count: nat): (r: Read<Buffer>) {
    if at + count <= |d| then Ok(d[at..at + count], at + count) else Throw(BufferOverflow, at)
  }

  function ReadInt32(d: Buffer, at: nat): (r: Read<int>)
    ensures r.Ok? ==> r.next == at + 4 <= |d| && -MAX_INT32 - 1 <= r.value <= MAX_INT32
    ensures !r.Ok? ==> r == Throw(BufferOverflow, at)
  {
    var (s, p) :- ReadBytes(d, at, 4);
    Ok(BytesInt32(s), p)
  }

  lemma ReadInt32Window(d: Buffer, at: nat, v: int)
    requires -MAX_INT32 - 1 <= v <= MAX_INT32
    ensures ReadInt32(d, at) == Ok(v, at + 4) <==> Window(d, at, Int32Bytes(v))
  {
    Int32RoundTrip(v);
    if at + 4 <= |d| {
      BytesInt32RoundTrip(d[at..at + 4]);
    }
  }

  /** The Int32 length in front of strings, data and arrays; a negative one traps in a range or a loop bound. */
  function ReadLength(k: Checks, d: Buffer, at: nat): (r: Read<nat>)
    ensures r.Ok? ==> r.next == at + 4 <= |d| && r.value <= MAX_INT32
  {
    var (n, p) :- ReadInt32(d, at);
    if n >= 0 then Ok(n, p) else if k.lengths then Throw(Rejected, p) else Trap
  }

  // ---------------------------------------------------------------------------------------------
  // Codecs and their laws
  // ---------------------------------------------------------------------------------------------

  /** A converter: `fits` says when `bytes` can be written without an `Int32(count)` overflow. */
  datatype Codec<!T> = Codec(
    fits: T -> bool,
    bytes: T -> Buffer,
    read: (Checks, Buffer, nat) -> Read<T>)

  /** Reading what was written gives the value back and stops right behind it, whatever is checked. */
  ghost predicate RoundTrips<T(!new)>(c: Codec<T>) {
    forall k: Checks, d: Buffer, at: nat, v: T ::
      c.fits(v) && Window(d, at, c.bytes(v)) ==> c.read(k, d, at) == Ok(v, at + |c.bytes(v)|)
  }

  /** What an accepted stretch of buffer says about the value read from it. */
  ghost predicate Accepts<T>(c: Codec<T>, k: Checks, d: Buffer, at: nat, v: T, next: nat) {
    && at <= next <= |d|
    && |c.bytes(v)| <= 3 * (next - at)
    && (3 * |d| <= MAX_INT32 || k.texts ==> c.fits(v))
    && (k.texts ==> next == at + |c.bytes(v)|)
    && (k.texts && k.bools ==> Window(d, at, c.bytes(v)))
  }

  ghost predicate ReadLaw<T>(c: Codec<T>, k: Checks, d: Buffer, at: nat) {
    var r := c.read(k, d, at);
    at <= |d| ==>
      && (r.Ok? ==> Accepts(c, k, d, at, r.value, r.next))
      && (r.Throw? ==> at <= r.next <= |d|)
  }

  /** The four bytes before offset `p`, from `at` on, hold a negative Int32. */
  predicate NegativeBefore(d: Buffer, at: nat, p: nat) {
    at + 4 <= p <= |d| && BytesInt32(d[p - 4..p]) < 0
  }

  /**
    The checks only ever turn a Swift outcome into a rejection; the length check, only a trap, and it
    stops right behind the negative length that Swift traps on.
   */
  ghost predicate Agreement<T>(k: Checks, d: Buffer, at: nat, checked: Read<T>, swift: Read<T>) {
    && !(swift.Throw? && swift.error == Rejected)
    && (checked == swift || (checked.Throw? && checked.error == Rejected))
    && (k.lengths ==> checked != Trap)
    && (k == LENGTHS_ONLY && checked != swift ==> swift == Trap && NegativeBefore(d, at, checked.next))
    && (swift.Ok? ==> at <= swift.next)
  }

  ghost predicate AgreementLaw<T>(c: Codec<T>, k: Checks, d: Buffer, at: nat) {
    Agreement(k, d, at, c.read(k, d, at), c.read(SWIFT, d, at))
  }

  ghost predicate Lawful<T(!new)>(c: Codec<T>) {
    && RoundTrips(c)
    && (forall k: Checks, d: Buffer, at: nat {:trigger c.read(k, d, at)} :: ReadLaw(c, k, d, at))
    && (forall k: Checks, d: Buffer, at: nat {:trigger c.read(k, d, at)} :: AgreementLaw(c, k, d, at))
  }

  lemma RoundTripAt<T(!new)>(c: Codec<T>, k: Checks, d: Buffer, at: nat, v: T)
    requires Lawful(c) && c.fits(v) && Window(d, at, c.bytes(v))
    ensures c.read(k, d, at) == Ok(v, at + |c.bytes(v)|)
  {
  }

  lemma LawAt<T(!new)>(c: Codec<T>, k: Checks, d: Buffer, at: nat)
    requires Lawful(c)
    ensures ReadLaw(c, k, d, at) && AgreementLaw(c, k, d, at)
  {
    var _ := c.read(k, d, at);
  }

  // ---------------------------------------------------------------------------------------------
  // Leaf converters
  // ---------------------------------------------------------------------------------------------

  function ReadUint(n: nat, d: Buffer, at: nat): (r: Read<nat>) {
    var (s, p) :- ReadBytes(d, at, n);
    Ok(BytesUint(s), p)
  }

  function Uint(n: nat): (c: Codec<nat>) {
    Codec((v: nat) => v < Pow256(n),
          (v: nat) => if v < Pow256(n) then UintBytes(v, n) else [],
          (k, d, at) => ReadUint(n, d, at))
  }

  lemma ReadUintWindow(n: nat, d: Buffer, at: nat, v: nat)
    requires v < Pow256(n) && Window(d, at, UintBytes(v, n))
    ensures ReadUint(n, d, at) == Ok(v, at + n)
  {
    UintRoundTrip(v, n);
    hide UintBytes, BytesUint, Pow256;
  }

  lemma UintRoundTrips(n: nat)
    ensures RoundTrips(Uint(n))
  {
    hide UintBytes, BytesUint, Pow256, ReadUint, Window;
    var c := Uint(n);
    forall k: Checks, d: Buffer, at: nat, v: nat | c.fits(v) && Window(d, at, c.bytes(v))
      ensures c.read(k, d, at) == Ok(v, at + |c.bytes(v)|)
    {
      ReadUintWindow(n, d, at, v);
    }
  }

  lemma UintReads(n: nat, k: Checks, d: Buffer, at: nat)
    ensures ReadLaw(Uint(n), k, d, at) && AgreementLaw(Uint(n), k, d, at)
  {
    hide UintBytes, BytesUint, Pow256;
    if at + n <= |d| {
      BytesRoundTrip(d[at..at + n]);
    }
  }

  lemma UintLawful(n: nat)
    ensures Lawful(Uint(n))
  {
    UintRoundTrips(n);
    forall k: Checks, d: Buffer, at: nat
      ensures ReadLaw(Uint(n), k, d, at) && AgreementLaw(Uint(n), k, d, at)
    {
      UintReads(n, k, d, at);
    }
  }

  /** Any nonzero byte reads as true. */
  function ReadBool(k: Checks, d: Buffer, at: nat): (r: Read<bool>) {
    var (b, p) :- ReadUint(1, d, at);
    if k.bools && b > 1 then Throw(Rejected, p) else Ok(b != 0, p)
  }

  const BOOL_CODEC: Codec<bool> := Codec(_ => true, v => [if v then 1 else 0], ReadBool)

  lemma BoolLawful()
    ensures Lawful(BOOL_CODEC)
  {
    forall k, d: Buffer, at: nat
      ensures at < |d| ==> ReadUint(1, d, at) == Ok(d[at], at + 1)
      ensures ReadLaw(BOOL_CODEC, k, d, at) && AgreementLaw(BOOL_CODEC, k, d, at)
    {
      if at < |d| {
        OneByte(d, at);
      }
    }
  }

  lemma OneByte(d: Buffer, at: nat)
    requires at < |d|
    ensures ReadUint(1, d, at) == Ok(d[at], at + 1)
  {
    var s := d[at..at + 1];
    assert s == [d[at]] && s[..0] == [];
    assert BytesUint(s) == 256 * BytesUint(s[..0]) + d[at];
  }

  /** Length-prefixed bytes: `Data`, and the payload of a string. */
  function ReadBlob(k: Checks, d: Buffer, at: nat): (r: Read<Buffer>) {
    var (n, p) :- ReadLength(k, d, at);
    ReadBytes(d, p, n)
  }

  const BLOB_CODEC: Codec<Buffer> := Codec(
    v => |v| <= MAX_INT32,
    v => if |v| <= MAX_INT32 then Int32Bytes(|v|) + v else v,
    ReadBlob)

  lemma ReadBlobWindow(k: Checks, d: Buffer, at: nat, v: Buffer)
    requires |v| <= MAX_INT32 && Window(d, at, Int32Bytes(|v|) + v)
    ensures ReadBlob(k, d, at) == Ok(v, at + 4 + |v|)
  {
    hide Int32Bytes, BytesInt32;
    WindowSplit(d, at, Int32Bytes(|v|), v);
    ReadInt32Window(d, at, |v|);
  }

  lemma BlobRoundTrips()
    ensures RoundTrips(BLOB_CODEC)
  {
    hide Int32Bytes, ReadBlob, Window;
    forall k: Checks, d: Buffer, at: nat, v: Buffer | BLOB_CODEC.fits(v) && Window(d, at, BLOB_CODEC.bytes(v))
      ensures BLOB_CODEC.read(k, d, at) == Ok(v, at + |BLOB_CODEC.bytes(v)|)
    {
      ReadBlobWindow(k, d, at, v);
    }
  }

  lemma BlobReads(k: Checks, d: Buffer, at: nat)
    ensures ReadLaw(BLOB_CODEC, k, d, at) && AgreementLaw(BLOB_CODEC, k, d, at)
  {
    hide Int32Bytes, BytesInt32;
    var r := BLOB_CODEC.read(k, d, at);
    if r.Ok? {
      ReadInt32Window(d, at, |r.value|);
      WindowSplit(d, at, Int32Bytes(|r.value|), r.value);
    }
  }

  lemma BlobLawful()
    ensures Lawful(BLOB_CODEC)
  {
    BlobRoundTrips();
    forall k: Checks, d: Buffer, at: nat
      ensures ReadLaw(BLOB_CODEC, k, d, at) && AgreementLaw(BLOB_CODEC, k, d, at)
    {
      BlobReads(k, d, at);
    }
  }

  function ReadText(k: Checks, d: Buffer, at: nat): (r: Read<Text>) {
    var (s, p) :- ReadBlob(k, d, at);
    if k.texts && !WellFormed(s) then Throw(Rejected, p) else Ok(Decode(s), p)
  }

  const STRING_CODEC: Codec<Text> := Codec(
    v => BLOB_CODEC.fits(Encode(v)),
    v => BLOB_CODEC.bytes(Encode(v)),
    ReadText)

  lemma StringRoundTrips()
    ensures RoundTrips(STRING_CODEC)
  {
    hide Encode, Decode, WellFormed, Int32Bytes, ReadBlob, Window;
    forall k: Checks, d: Buffer, at: nat, v: Text | STRING_CODEC.fits(v) && Window(d, at, STRING_CODEC.bytes(v))
      ensures STRING_CODEC.read(k, d, at) == Ok(v, at + |STRING_CODEC.bytes(v)|)
    {
      DecodeOfEncode(v);
      ReadBlobWindow(k, d, at, Encode(v));
    }
  }

  lemma StringReads(k: Checks, d: Buffer, at: nat)
    ensures ReadLaw(STRING_CODEC, k, d, at) && AgreementLaw(STRING_CODEC, k, d, at)
  {
    hide Encode, Decode, WellFormed, Int32Bytes, BytesInt32, Window;
    BlobReads(k, d, at);
    var r := ReadBlob(k, d, at);
    if r.Ok? {
      RepairGrowth(r.value);
      ReproducedIffWellFormed(r.value);
    }
  }

  lemma StringLawful()
    ensures Lawful(STRING_CODEC)
  {
    StringRoundTrips();
    forall k: Checks, d: Buffer, at: nat
      ensures ReadLaw(STRING_CODEC, k, d, at) && AgreementLaw(STRING_CODEC, k, d, at)
    {
      StringReads(k, d, at);
    }
  }

  /** A case without payload carries no bytes. */
  function Constant<T(==)>(v: T): (c: Codec<T>) {
    Codec(w => w == v, _ => [], (k, d, at) => Ok(v, at))
  }

  lemma ConstantLawful<T(!new)>(v: T)
    ensures Lawful(Constant(v))
  {
    var c := Constant(v);
    forall k: Checks, d: Buffer, at: nat
      ensures ReadLaw(c, k, d, at) && AgreementLaw(c, k, d, at)
    {
    }
  }

  function ReadCase(n: nat, d: Buffer, at: nat): (r: Read<nat>) {
    var (v, p) :- ReadInt32(d, at);
    if 1 <= v <= n then Ok(v, p) else Throw(UnexpectedEnumCase, p)
  }

  function CaseNumber<T(==)>(all: seq<T>, v: T): (n: nat)
    ensures n <= |all|
    ensures n < |all| ==> all[n] == v && v !in all[..n]
    ensures n == |all| ==> v !in all
  {
    if all == [] || all[0] == v then 0 else 1 + CaseNumber(all[1..], v)
  }

  /** An enum without payloads, given by its cases in order: the Int32 case number, from 1. */
  function Enum<T(==)>(all: seq<T>): (c: Codec<T>)
    requires |all| < MAX_INT32
  {
    Codec((v: T) => v in all,
          (v: T) => Int32Bytes(CaseNumber(all, v) + 1),
          (k, d, at) =>
            var (n, p) :- ReadCase(|all|, d, at);
            Ok(all[n - 1], p))
  }

  ghost predicate Cases<T(!new)>(all: seq<T>) {
    && 0 < |all| < MAX_INT32
    && (forall i, j :: 0 <= i < j < |all| ==> all[i] != all[j])
    && (forall v: T :: v in all)
  }

  lemma EnumLawful<T(!new)>(all: seq<T>)
    requires Cases(all)
    ensures Lawful(Enum(all))
  {
    hide Int32Bytes, BytesInt32;
    var c := Enum(all);
    forall k: Checks, d: Buffer, at: nat, v | c.fits(v) && Window(d, at, c.bytes(v))
      ensures c.read(k, d, at) == Ok(v, at + |c.bytes(v)|)
    {
      ReadInt32Window(d, at, CaseNumber(all, v) + 1);
    }
    forall k: Checks, d: Buffer, at: nat
      ensures ReadLaw(c, k, d, at) && AgreementLaw(c, k, d, at)
    {
      var r := ReadInt32(d, at);
      if r.Ok? && 1 <= r.value <= |all| {
        ReadInt32Window(d, at, r.value);
        assert CaseNumber(all, all[r.value - 1]) == r.value - 1;
      }
    }
  }

  // ---------------------------------------------------------------------------------------------
  // Combinators
  // ---------------------------------------------------------------------------------------------

  function ReadPair<S, T>(a: Codec<S>, b: Codec<T>, k: Checks, d: Buffer, at: nat): (r: Read<(S, T)>) {
    var (x, p) :- a.read(k, d, at);
    var (y, q) :- b.read(k, d, p);
    Ok((x, y), q)
  }

  /** Two fields of a record, one after the other. */
  function Pair<S, T>(a: Codec<S>, b: Codec<T>): (c: Codec<(S, T)>) {
    Codec((v: (S, T)) => a.fits(v.0) && b.fits(v.1),
          (v: (S, T)) => a.bytes(v.0) + b.bytes(v.1),
          (k, d, at) => ReadPair(a, b, k, d, at))
  }

  lemma PairReads<S(!new), T(!new)>(a: Codec<S>, b: Codec<T>, k: Checks, d: Buffer, at: nat)
    requires Lawful(a) && Lawful(b)
    ensures ReadLaw(Pair(a, b), k, d, at) && AgreementLaw(Pair(a, b), k, d, at)
  {
    hide Lawful;
    LawAt(a, k, d, at);
    var r, s := a.read(k, d, at), a.read(SWIFT, d, at);
    if r.Ok? {
      LawAt(b, k, d, r.next);
      var t := b.read(k, d, r.next);
      if t.Ok? {
        WindowSplit(d, at, a.bytes(r.value), b.bytes(t.value));
      }
    }
    if s.Ok? {
      LawAt(b, k, d, s.next);
    }
  }

  lemma PairRoundTrips<S(!new), T(!new)>(a: Codec<S>, b: Codec<T>)
    requires Lawful(a) && Lawful(b)
    ensures RoundTrips(Pair(a, b))
  {
    hide Lawful;
    var c := Pair(a, b);
    forall k: Checks, d: Buffer, at: nat, v | c.fits(v) && Window(d, at, c.bytes(v))
      ensures c.read(k, d, at) == Ok(v, at + |c.bytes(v)|)
    {
      WindowSplit(d, at, a.bytes(v.0), b.bytes(v.1));
      RoundTripAt(a, k, d, at, v.0);
      RoundTripAt(b, k, d, at + |a.bytes(v.0)|, v.1);
    }
  }

  lemma PairLawful<S(!new), T(!new)>(a: Codec<S>, b: Codec<T>)
    requires Lawful(a) && Lawful(b)
    ensures Lawful(Pair(a, b))
  {
    PairRoundTrips(a, b);
    forall k: Checks, d: Buffer, at: nat
      ensures ReadLaw(Pair(a, b), k, d, at) && AgreementLaw(Pair(a, b), k, d, at)
    {
      PairReads(a, b, k, d, at);
    }
  }

  function MapRead<S, T>(r: Read<S>, f: S -> T): (m: Read<T>) {
    var (v, p) :- r;
    Ok(f(v), p)
  }

  /** A constructor, and the attempt to take apart what it made. */
  datatype View<!S, !T> = View(make: S -> T, get: T -> Maybe<S>)

  ghost predicate Faithful<S(!new), T(!new)>(view: View<S, T>, tagOf: T -> nat, tag: nat) {
    && (forall v :: tagOf(v) == tag ==> view.get(v).Some?)
    && (forall v :: view.get(v).Some? ==> view.make(view.get(v).value) == v)
    && (forall x :: tagOf(view.make(x)) == tag && view.get(view.make(x)) == Some(x))
  }

  /** What one case of an enum carries, made into a value of the enum. */
  function Case<S, T>(c: Codec<S>, view: View<S, T>): (m: Codec<T>) {
    Codec(v => view.get(v).Some? && c.fits(view.get(v).value),
          v => if view.get(v).Some? then c.bytes(view.get(v).value) else [],
          (k, d, at) => MapRead(c.read(k, d, at), view.make))
  }

  /** A lawful payload converter whose every value belongs to case `tag`. */
  ghost predicate LawfulCase<T(!new)>(c: Codec<T>, tagOf: T -> nat, tag: nat) {
    && Lawful(c)
    && (forall k, d, at :: c.read(k, d, at).Ok? ==> tagOf(c.read(k, d, at).value) == tag)
  }

  lemma CaseLawAt<T(!new)>(c: Codec<T>, tagOf: T -> nat, tag: nat, k: Checks, d: Buffer, at: nat)
    requires LawfulCase(c, tagOf, tag)
    ensures ReadLaw(c, k, d, at) && AgreementLaw(c, k, d, at)
  {
    LawAt(c, k, d, at);
  }

  lemma ConstantCaseLawful<T(!new)>(v: T, tagOf: T -> nat, tag: nat)
    requires tagOf(v) == tag
    ensures LawfulCase(Constant(v), tagOf, tag)
  {
    ConstantLawful(v);
  }

  lemma CaseReads<S(!new), T(!new)>(
    c: Codec<S>, view: View<S, T>, tagOf: T -> nat, tag: nat, k: Checks, d: Buffer, at: nat)
    requires Lawful(c) && Faithful(view, tagOf, tag)
    ensures var m := Case(c, view);
            && ReadLaw(m, k, d, at) && AgreementLaw(m, k, d, at)
            && (m.read(k, d, at).Ok? ==> tagOf(m.read(k, d, at).value) == tag)
  {
    hide Lawful;
    LawAt(c, k, d, at);
  }

  lemma CaseLawful<S(!new), T(!new)>(c: Codec<S>, view: View<S, T>, tagOf: T -> nat, tag: nat)
    requires Lawful(c) && Faithful(view, tagOf, tag)
    ensures LawfulCase(Case(c, view), tagOf, tag)
  {
    var m := Case(c, view);
    forall k: Checks, d: Buffer, at: nat
      ensures ReadLaw(m, k, d, at) && AgreementLaw(m, k, d, at)
      ensures m.read(k, d, at).Ok? ==> tagOf(m.read(k, d, at).value) == tag
    {
      CaseReads(c, view, tagOf, tag, k, d, at);
    }
  }

  function Untagged<T>(v: T): (n: nat) { 0 }

  /** A record: its fields paired up in the order in which they are written. */
  function Record<S, T>(c: Codec<S>, view: View<S, T>): (m: Codec<T>) {
    Case(c, view)
  }

  lemma RecordLawful<S(!new), T(!new)>(c: Codec<S>, view: View<S, T>)
    requires Lawful(c) && Faithful(view, Untagged, 0)
    ensures Lawful(Record(c, view))
  {
    CaseLawful(c, view, Untagged, 0);
  }

  function ReadMaybe<T>(c: Codec<T>, k: Checks, d: Buffer, at: nat): (r: Read<Maybe<T>>) {
    var (tag, p) :- ReadUint(1, d, at);
    if tag == 0 then Ok(None, p)
    else if tag == 1 then MapRead(c.read(k, d, p), v => Some(v))
    else Throw(UnexpectedOptionalTag, p)
  }

  /** An optional value: one tag byte, 0 or 1, and after a 1 the value. */
  function Optional<T>(c: Codec<T>): (o: Codec<Maybe<T>>) {
    Codec((v: Maybe<T>) => v.Some? ==> c.fits(v.value),
          (v: Maybe<T>) => if v.Some? then [1] + c.bytes(v.value) else [0],
          (k, d, at) => ReadMaybe(c, k, d, at))
  }

  lemma OptionalReads<T(!new)>(c: Codec<T>, k: Checks, d: Buffer, at: nat)
    requires Lawful(c)
    ensures ReadLaw(Optional(c), k, d, at) && AgreementLaw(Optional(c), k, d, at)
  {
    hide Lawful;
    if at < |d| {
      OneByte(d, at);
      LawAt(c, k, d, at + 1);
      var r := c.read(k, d, at + 1);
      if r.Ok? {
        WindowSplit(d, at, [1], c.bytes(r.value));
      }
    }
  }

  lemma SomeRoundTrip<T(!new)>(c: Codec<T>, k: Checks, d: Buffer, at: nat, v: T)
    requires Lawful(c) && c.fits(v) && Window(d, at, [1] + c.bytes(v))
    ensures ReadMaybe(c, k, d, at) == Ok(Some(v), at + 1 + |c.bytes(v)|)
  {
    hide Lawful;
    WindowSplit(d, at, [1], c.bytes(v));
    OneByte(d, at);
    assert d[at] == d[at..at + 1][0];
    RoundTripAt(c, k, d, at + 1, v);
  }

  lemma OptionalRoundTrips<T(!new)>(c: Codec<T>)
    requires Lawful(c)
    ensures RoundTrips(Optional(c))
  {
    hide Lawful;
    var o := Optional(c);
    forall k: Checks, d: Buffer, at: nat, v | o.fits(v) && Window(d, at, o.bytes(v))
      ensures o.read(k, d, at) == Ok(v, at + |o.bytes(v)|)
    {
      if v.Some? {
        SomeRoundTrip(c, k, d, at, v.value);
      } else {
        OneByte(d, at);
        assert d[at] == d[at..at + 1][0];
      }
    }
  }

  lemma OptionalLawful<T(!new)>(c: Codec<T>)
    requires Lawful(c)
    ensures Lawful(Optional(c))
  {
    OptionalRoundTrips(c);
    forall k: Checks, d: Buffer, at: nat
      ensures ReadLaw(Optional(c), k, d, at) && AgreementLaw(Optional(c), k, d, at)
    {
      OptionalReads(c, k, d, at);
    }
  }

  /** The loop of an array reader: `n` elements one after the other. */
  function ReadMany<T>(c: Codec<T>, k: Checks, d: Buffer, at: nat, n: nat): (r: Read<seq<T>>)
    ensures r.Ok? ==> |r.value| == n
    decreases n
  {
    if n == 0 then Ok([], at)
    else
      var (v, p) :- c.read(k, d, at);
      var (vs, q) :- ReadMany(c, k, d, p, n - 1);
      Ok([v] + vs, q)
  }

  function BytesOfMany<T>(c: Codec<T>, vs: seq<T>): (s: Buffer) {
    if vs == [] then [] else c.bytes(vs[0]) + BytesOfMany(c, vs[1..])
  }

  function ReadList<T>(c: Codec<T>, k: Checks, d: Buffer, at: nat): (r: Read<seq<T>>) {
    var (n, p) :- ReadLength(k, d, at);
    ReadMany(c, k, d, p, n)
  }

  predicate AllFit<T>(c: Codec<T>, vs: seq<T>) {
    forall i :: 0 <= i < |vs| ==> c.fits(vs[i])
  }

  /** An array: its Int32 count, then the elements. */
  function List<T>(c: Codec<T>): (l: Codec<seq<T>>) {
    Codec((vs: seq<T>) => |vs| <= MAX_INT32 && AllFit(c, vs),
          (vs: seq<T>) => if |vs| <= MAX_INT32 then Int32Bytes(|vs|) + BytesOfMany(c, vs) else [],
          (k, d, at) => ReadList(c, k, d, at))
  }

  lemma {:induction false} ReadManyRoundTrip<T(!new)>(c: Codec<T>, k: Checks, d: Buffer, at: nat, vs: seq<T>)
    requires Lawful(c) && AllFit(c, vs) && Window(d, at, BytesOfMany(c, vs))
    ensures ReadMany(c, k, d, at, |vs|) == Ok(vs, at + |BytesOfMany(c, vs)|)
    decreases |vs|
  {
    hide Lawful;
    if vs == [] {
    } else {
      var head, tail := c.bytes(vs[0]), BytesOfMany(c, vs[1..]);
      WindowSplit(d, at, head, tail);
      RoundTripAt(c, k, d, at, vs[0]);
      ReadManyRoundTrip(c, k, d, at + |head|, vs[1..]);
      assert vs == [vs[0]] + vs[1..];
    }
  }

  ghost predicate ReadManyLaw<T>(c: Codec<T>, k: Checks, d: Buffer, at: nat, r: Read<seq<T>>) {
    at <= |d| ==>
      && (r.Throw? ==> at <= r.next <= |d|)
      && (r.Ok? ==>
        && at <= r.next <= |d|
        && |BytesOfMany(c, r.value)| <= 3 * (r.next - at)
        && (3 * |d| <= MAX_INT32 || k.texts ==> AllFit(c, r.value))
        && (k.texts ==> r.next == at + |BytesOfMany(c, r.value)|)
        && (k.texts && k.bools ==> Window(d, at, BytesOfMany(c, r.value))))
  }

  lemma {:induction false} ReadManyReads<T(!new)>(c: Codec<T>, k: Checks, d: Buffer, at: nat, n: nat)
    requires Lawful(c)
    ensures ReadManyLaw(c, k, d, at, ReadMany(c, k, d, at, n))
    decreases n
  {
    hide Lawful;
    if n == 0 {
    } else {
      LawAt(c, k, d, at);
      var r := c.read(k, d, at);
      if r.Ok? {
        ReadManyReads(c, k, d, r.next, n - 1);
        var rest := ReadMany(c, k, d, r.next, n - 1);
        if rest.Ok? {
          assert ([r.value] + rest.value)[1..] == rest.value;
          WindowSplit(d, at, c.bytes(r.value), BytesOfMany(c, rest.value));
        }
      }
    }
  }

  lemma {:induction false} ReadManyAgrees<T(!new)>(c: Codec<T>, k: Checks, d: Buffer, at: nat, n: nat)
    requires Lawful(c)
    ensures Agreement(k, d, at, ReadMany(c, k, d, at, n), ReadMany(c, SWIFT, d, at, n))
    decreases n
  {
    hide Lawful;
    if n == 0 {
    } else {
      LawAt(c, k, d, at);
      var s := c.read(SWIFT, d, at);
      if s.Ok? {
        ReadManyAgrees(c, k, d, s.next, n - 1);
      }
    }
  }

  lemma ListReads<T(!new)>(c: Codec<T>, k: Checks, d: Buffer, at: nat)
    requires Lawful(c)
    ensures ReadLaw(List(c), k, d, at) && AgreementLaw(List(c), k, d, at)
  {
    hide Int32Bytes, BytesInt32, Lawful;
    var r := ReadInt32(d, at);
    if r.Ok? && r.value >= 0 {
      ReadInt32Window(d, at, r.value);
      ReadManyReads(c, k, d, r.next, r.value);
      ReadManyAgrees(c, k, d, r.next, r.value);
      var vs := ReadMany(c, k, d, r.next, r.value);
      if vs.Ok? {
        WindowSplit(d, at, Int32Bytes(r.value), BytesOfMany(c, vs.value));
      }
    }
  }

  lemma ListRoundTrips<T(!new)>(c: Codec<T>)
    requires Lawful(c)
    ensures RoundTrips(List(c))
  {
    hide Int32Bytes, BytesInt32, Lawful;
    var l := List(c);
    forall k: Checks, d: Buffer, at: nat, vs | l.fits(vs) && Window(d, at, l.bytes(vs))
      ensures l.read(k, d, at) == Ok(vs, at + |l.bytes(vs)|)
    {
      WindowSplit(d, at, Int32Bytes(|vs|), BytesOfMany(c, vs));
      ReadInt32Window(d, at, |vs|);
      ReadManyRoundTrip(c, k, d, at + 4, vs);
    }
  }

  lemma ListLawful<T(!new)>(c: Codec<T>)
    requires Lawful(c)
    ensures Lawful(List(c))
  {
    ListRoundTrips(c);
    forall k: Checks, d: Buffer, at: nat
      ensures ReadLaw(List(c), k, d, at) && AgreementLaw(List(c), k, d, at)
    {
      ListReads(c, k, d, at);
    }
  }

  function ReadVariant<T>(n: nat, cases: nat -> Codec<T>, k: Checks, d: Buffer, at: nat): (r: Read<T>) {
    var (tag, p) :- ReadCase(n, d, at);
    cases(tag).read(k, d, p)
  }

  /** An enum with payloads: the Int32 case number, then what that case carries. */
  function Variant<T>(n: nat, tagOf: T -> nat, cases: nat -> Codec<T>): (c: Codec<T>)
    requires n <= MAX_INT32
  {
    Codec((v: T) => 1 <= tagOf(v) <= n && cases(tagOf(v)).fits(v),
          (v: T) => if 1 <= tagOf(v) <= n then Int32Bytes(tagOf(v)) + cases(tagOf(v)).bytes(v) else [],
          (k, d, at) => ReadVariant(n, cases, k, d, at))
  }

  lemma VariantReads<T(!new)>(n: nat, tagOf: T -> nat, cases: nat -> Codec<T>, k: Checks, d: Buffer, at: nat)
    requires n <= MAX_INT32 && forall tag :: 1 <= tag <= n ==> LawfulCase(cases(tag), tagOf, tag)
    ensures ReadLaw(Variant(n, tagOf, cases), k, d, at) && AgreementLaw(Variant(n, tagOf, cases), k, d, at)
  {
    hide Int32Bytes, BytesInt32, Lawful;
    var r := ReadCase(n, d, at);
    if r.Ok? {
      var c := cases(r.value);
      LawAt(c, k, d, r.next);
      ReadInt32Window(d, at, r.value);
      var v := c.read(k, d, r.next);
      if v.Ok? {
        WindowSplit(d, at, Int32Bytes(r.value), c.bytes(v.value));
      }
    }
  }

  lemma VariantRoundTrips<T(!new)>(n: nat, tagOf: T -> nat, cases: nat -> Codec<T>)
    requires n <= MAX_INT32 && forall tag :: 1 <= tag <= n ==> LawfulCase(cases(tag), tagOf, tag)
    ensures RoundTrips(Variant(n, tagOf, cases))
  {
    hide Int32Bytes, BytesInt32, Lawful, Window;
    var c := Variant(n, tagOf, cases);
    forall k: Checks, d: Buffer, at: nat, v | c.fits(v) && Window(d, at, c.bytes(v))
      ensures c.read(k, d, at) == Ok(v, at + |c.bytes(v)|)
    {
      var tag := tagOf(v);
      WindowSplit(d, at, Int32Bytes(tag), cases(tag).bytes(v));
      ReadInt32Window(d, at, tag);
      assert LawfulCase(cases(tag), tagOf, tag);
      RoundTripAt(cases(tag), k, d, at + 4, v);
    }
  }

  lemma VariantLawful<T(!new)>(n: nat, tagOf: T -> nat, cases: nat -> Codec<T>)
    requires n <= MAX_INT32 && forall tag :: 1 <= tag <= n ==> LawfulCase(cases(tag), tagOf, tag)
    ensures Lawful(Variant(n, tagOf, cases))
  {
    VariantRoundTrips(n, tagOf, cases);
    forall k: Checks, d: Buffer, at: nat
      ensures ReadLaw(Variant(n, tagOf, cases), k, d, at) && AgreementLaw(Variant(n, tagOf, cases), k, d, at)
    {
      VariantReads(n, tagOf, cases, k, d, at);
    }
  }
}
