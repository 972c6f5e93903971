/** `FfiConverterTypeCustomRendererNode`: the recursive converter, lift and lower, and what they promise. */
module RendererCodec {
  import opened BigEndian
  import opened Optionals
  import opened Wire
  import opened RendererTree

  type Node = CustomRendererNode

  predicate HasChildren(h: Head) { !h.NilHead? && !h.StringHead? }

  function HeadOf(v: Node): (h: Head) {
    match v
    case NilNode => NilHead
    case StringNode(t) => StringHead(t)
    case BoxNode(m, p, _) => BoxHead(m, p)
    case ColumnNode(m, p, _) => ColumnHead(m, p)
    case RowNode(m, p, _) => RowHead(m, p)
    case SpacerNode(m, _) => SpacerHead(m)
    case TextNode(m, p, _) => TextHead(m, p)
    case ButtonNode(m, p, _) => ButtonHead(m, p)
    case TextFieldNode(m, p, _) => TextFieldHead(m, p)
  }

  function Assemble(h: Head, children: seq<Node>): (v: Node)
    requires !HasChildren(h) ==> children == []
    ensures HeadOf(v) == h
    ensures HasChildren(h) ==> v.children == children
  {
    match h
    case NilHead => NilNode
    case StringHead(t) => StringNode(t)
    case BoxHead(m, p) => BoxNode(m, p, children)
    case ColumnHead(m, p) => ColumnNode(m, p, children)
    case RowHead(m, p) => RowNode(m, p, children)
    case SpacerHead(m) => SpacerNode(m, children)
    case TextHead(m, p) => TextNode(m, p, children)
    case ButtonHead(m, p) => ButtonNode(m, p, children)
    case TextFieldHead(m, p) => TextFieldNode(m, p, children)
  }

  /** No `Int32(count)` in writing `v` overflows. */
  predicate Fits(v: Node)
    decreases v, 1
  {
    HEAD_CODEC.fits(HeadOf(v)) && (HasChildren(HeadOf(v)) ==> ChildrenFit(v.children))
  }

  predicate ChildrenFit(vs: seq<Node>)
    decreases vs, 1
  {
    |vs| <= MAX_INT32 && AllNodesFit(vs)
  }

  predicate AllNodesFit(vs: seq<Node>)
    decreases vs, 0
  {
    vs == [] || (Fits(vs[0]) && AllNodesFit(vs[1..]))
  }

  function NodeBytes(v: Node): (s: Buffer)
    decreases v, 1
  {
    HEAD_CODEC.bytes(HeadOf(v)) + if HasChildren(HeadOf(v)) then ChildrenBytes(v.children) else []
  }

  function ChildrenBytes(vs: seq<Node>): (s: Buffer)
    decreases vs, 1
  {
    if |vs| <= MAX_INT32 then Int32Bytes(|vs|) + NodesBytes(vs) else []
  }

  function NodesBytes(vs: seq<Node>): (s: Buffer)
    decreases vs, 0
  {
    if vs == [] then [] else NodeBytes(vs[0]) + NodesBytes(vs[1..])
  }

  lemma HeadAdvances(k: Checks, d: Buffer, at: nat)
    requires at <= |d|
    ensures var r := HEAD_CODEC.read(k, d, at); r.Ok? ==> at + 4 <= r.next <= |d|
  {
    hide Lawful, LawfulCase, HeadCase;
    var tag := ReadCase(9, d, at);
    if tag.Ok? {
      HeadCaseLawful(tag.value);
      CaseLawAt(HeadCase(tag.value), HeadTag, tag.value, k, d, tag.next);
    }
  }

  function ReadNode(k: Checks, d: Buffer, at: nat): (r: Read<Node>)
    requires at <= |d|
    ensures r.Ok? ==> at + 4 <= r.next <= |d|
    decreases |d| - at, 0
  {
    HeadAdvances(k, d, at);
    var (h, p) :- HEAD_CODEC.read(k, d, at);
    if HasChildren(h) then
      var (children, q) :- ReadChildren(k, d, p);
      Ok(Assemble(h, children), q)
    else Ok(Assemble(h, []), p)
  }

  function ReadChildren(k: Checks, d: Buffer, at: nat): (r: Read<seq<Node>>)
    requires at <= |d|
    ensures r.Ok? ==> at + 4 <= r.next <= |d|
    decreases |d| - at, 0
  {
    var (n, p) :- ReadLength(k, d, at);
    ReadNodes(k, d, p, n)
  }

  function ReadNodes(k: Checks, d: Buffer, at: nat, n: nat): (r: Read<seq<Node>>)
    requires at <= |d|
    ensures r.Ok? ==> at + 4 * n <= r.next <= |d| && |r.value| == n
    decreases |d| - at, 1, n
  {
    if n == 0 then Ok([], at)
    else
      var (v, p) :- ReadNode(k, d, at);
      var (vs, q) :- ReadNodes(k, d, p, n - 1);
      Ok([v] + vs, q)
  }

  // ---------------------------------------------------------------------------------------------
  // Reading what was written
  // ---------------------------------------------------------------------------------------------

  lemma HeadRoundTrip(k: Checks, d: Buffer, at: nat, h: Head)
    requires HEAD_CODEC.fits(h) && Window(d, at, HEAD_CODEC.bytes(h))
    ensures HEAD_CODEC.read(k, d, at) == Ok(h, at + |HEAD_CODEC.bytes(h)|)
  {
    hide *;
    HeadLawful();
    RoundTripAt(HEAD_CODEC, k, d, at, h);
  }

  lemma {:induction false} NodeRoundTrip(k: Checks, d: Buffer, at: nat, v: Node)
    requires Fits(v) && Window(d, at, NodeBytes(v))
    ensures ReadNode(k, d, at) == Ok(v, at + |NodeBytes(v)|)
    decreases v, 1
  {
    hide HEAD_CODEC, ChildrenBytes, ReadChildren, ChildrenFit;
    var h, head := HeadOf(v), HEAD_CODEC.bytes(HeadOf(v));
    if HasChildren(h) {
      WindowSplit(d, at, head, ChildrenBytes(v.children));
      HeadRoundTrip(k, d, at, h);
      ChildrenRoundTrip(k, d, at + |head|, v.children);
      assert Assemble(h, v.children) == v;
    } else {
      assert head + [] == head;
      HeadRoundTrip(k, d, at, h);
      assert Assemble(h, []) == v;
    }
  }

  lemma {:induction false} ChildrenRoundTrip(k: Checks, d: Buffer, at: nat, vs: seq<Node>)
    requires ChildrenFit(vs) && Window(d, at, ChildrenBytes(vs))
    ensures ReadChildren(k, d, at) == Ok(vs, at + |ChildrenBytes(vs)|)
    decreases vs, 1
  {
    hide HEAD_CODEC, NodesBytes, ReadNodes, AllNodesFit, Int32Bytes, BytesInt32;
    WindowSplit(d, at, Int32Bytes(|vs|), NodesBytes(vs));
    ReadInt32Window(d, at, |vs|);
    NodesRoundTrip(k, d, at + 4, vs);
  }

  lemma {:induction false} NodesRoundTrip(k: Checks, d: Buffer, at: nat, vs: seq<Node>)
    requires AllNodesFit(vs) && Window(d, at, NodesBytes(vs))
    ensures ReadNodes(k, d, at, |vs|) == Ok(vs, at + |NodesBytes(vs)|)
    decreases vs, 0
  {
    hide HEAD_CODEC, HeadOf, Fits, NodeBytes, ReadNode;
    if vs == [] {
    } else {
      var first := NodeBytes(vs[0]);
      WindowSplit(d, at, first, NodesBytes(vs[1..]));
      NodeRoundTrip(k, d, at, vs[0]);
      NodesRoundTrip(k, d, at + |first|, vs[1..]);
      assert vs == [vs[0]] + vs[1..];
    }
  }

  // ---------------------------------------------------------------------------------------------
  // Reading arbitrary bytes
  // ---------------------------------------------------------------------------------------------

  /** What an accepted stretch of buffer says about the tree read from it; compare `Wire.Accepts`. */
  ghost predicate NodeAccepted(k: Checks, d: Buffer, at: nat, v: Node, next: nat) {
    && |NodeBytes(v)| <= 3 * (next - at)
    && (3 * |d| <= MAX_INT32 || k.texts ==> Fits(v))
    && (k.texts ==> next == at + |NodeBytes(v)|)
    && (k.texts && k.bools ==> Window(d, at, NodeBytes(v)))
  }

  ghost predicate ChildrenAccepted(k: Checks, d: Buffer, at: nat, vs: seq<Node>, next: nat) {
    && |ChildrenBytes(vs)| <= 3 * (next - at)
    && (3 * |d| <= MAX_INT32 || k.texts ==> ChildrenFit(vs))
    && (k.texts ==> next == at + |ChildrenBytes(vs)|)
    && (k.texts && k.bools ==> Window(d, at, ChildrenBytes(vs)))
  }

  ghost predicate NodesAccepted(k: Checks, d: Buffer, at: nat, vs: seq<Node>, next: nat) {
    && |NodesBytes(vs)| <= 3 * (next - at)
    && (3 * |d| <= MAX_INT32 || k.texts ==> AllNodesFit(vs))
    && (k.texts ==> next == at + |NodesBytes(vs)|)
    && (k.texts && k.bools ==> Window(d, at, NodesBytes(vs)))
  }

  lemma HeadLaws(k: Checks, d: Buffer, at: nat)
    ensures ReadLaw(HEAD_CODEC, k, d, at) && AgreementLaw(HEAD_CODEC, k, d, at)
  {
    hide *;
    HeadLawful();
    LawAt(HEAD_CODEC, k, d, at);
  }

  lemma {:induction false} NodeReads(k: Checks, d: Buffer, at: nat)
    requires at <= |d|
    ensures var r := ReadNode(k, d, at);
            && (r.Ok? ==> NodeAccepted(k, d, at, r.value, r.next))
            && (r.Throw? ==> at <= r.next <= |d|)
    decreases |d| - at, 0
  {
    hide HEAD_CODEC, ChildrenBytes, ReadChildren, ChildrenFit;
    HeadLaws(k, d, at);
    HeadAdvances(k, d, at);
    var h := HEAD_CODEC.read(k, d, at);
    if h.Ok? && HasChildren(h.value) {
      ChildrenRead(k, d, h.next);
      var c := ReadChildren(k, d, h.next);
      if c.Ok? {
        WindowSplit(d, at, HEAD_CODEC.bytes(h.value), ChildrenBytes(c.value));
      }
    } else if h.Ok? {
      assert HEAD_CODEC.bytes(h.value) + [] == HEAD_CODEC.bytes(h.value);
    }
  }

  lemma {:induction false} ChildrenRead(k: Checks, d: Buffer, at: nat)
    requires at <= |d|
    ensures var r := ReadChildren(k, d, at);
            && (r.Ok? ==> ChildrenAccepted(k, d, at, r.value, r.next))
            && (r.Throw? ==> at <= r.next <= |d|)
    decreases |d| - at, 0
  {
    hide HEAD_CODEC, NodesBytes, ReadNodes, AllNodesFit, Int32Bytes, BytesInt32;
    var n := ReadInt32(d, at);
    if n.Ok? && n.value >= 0 {
      ReadInt32Window(d, at, n.value);
      NodesRead(k, d, n.next, n.value);
      var c := ReadNodes(k, d, n.next, n.value);
      if c.Ok? {
        WindowSplit(d, at, Int32Bytes(n.value), NodesBytes(c.value));
      }
    }
  }

  lemma {:induction false} NodesRead(k: Checks, d: Buffer, at: nat, n: nat)
    requires at <= |d|
    ensures var r := ReadNodes(k, d, at, n);
            && (r.Ok? ==> NodesAccepted(k, d, at, r.value, r.next))
            && (r.Throw? ==> at <= r.next <= |d|)
    decreases |d| - at, 1, n
  {
    hide HEAD_CODEC, HeadOf, Fits, NodeBytes, ReadNode;
    if n == 0 {
    } else {
      NodeReads(k, d, at);
      var v := ReadNode(k, d, at);
      if v.Ok? {
        NodesRead(k, d, v.next, n - 1);
        var vs := ReadNodes(k, d, v.next, n - 1);
        if vs.Ok? {
          assert ([v.value] + vs.value)[1..] == vs.value;
          WindowSplit(d, at, NodeBytes(v.value), NodesBytes(vs.value));
        }
      }
    }
  }

  /** Checking more never changes an outcome except into a rejection, and checking lengths only a trap. */
  lemma {:induction false} NodeAgrees(k: Checks, d: Buffer, at: nat)
    requires at <= |d|
    ensures Agreement(k, d, at, ReadNode(k, d, at), ReadNode(SWIFT, d, at))
    decreases |d| - at, 0
  {
    hide HEAD_CODEC, ReadNodes;
    HeadLaws(k, d, at);
    HeadAdvances(SWIFT, d, at);
    var h := HEAD_CODEC.read(SWIFT, d, at);
    if h.Ok? && HasChildren(h.value) {
      var n := ReadInt32(d, h.next);
      if n.Ok? && n.value >= 0 {
        NodesAgree(k, d, n.next, n.value);
      }
    }
  }

  lemma {:induction false} NodesAgree(k: Checks, d: Buffer, at: nat, n: nat)
    requires at <= |d|
    ensures Agreement(k, d, at, ReadNodes(k, d, at, n), ReadNodes(SWIFT, d, at, n))
    decreases |d| - at, 1, n
  {
    hide HEAD_CODEC, ReadNode;
    if n == 0 {
    } else {
      NodeAgrees(k, d, at);
      var v := ReadNode(SWIFT, d, at);
      if v.Ok? {
        NodesAgree(k, d, v.next, n - 1);
      }
    }
  }

  function NodeCount(v: Node): (n: nat)
    decreases v, 1
  {
    1 + if HasChildren(HeadOf(v)) then NodesCount(v.children) else 0
  }

  function NodesCount(vs: seq<Node>): (n: nat)
    decreases vs, 0
  {
    if vs == [] then 0 else NodeCount(vs[0]) + NodesCount(vs[1..])
  }

  lemma {:induction false} NodeCountBound(k: Checks, d: Buffer, at: nat)
    requires at <= |d|
    ensures var r := ReadNode(k, d, at); r.Ok? ==> 4 * NodeCount(r.value) <= r.next - at
    decreases |d| - at, 0
  {
    hide HEAD_CODEC, ReadNodes, NodesCount;
    HeadAdvances(k, d, at);
    var h := HEAD_CODEC.read(k, d, at);
    if h.Ok? && HasChildren(h.value) {
      var n := ReadLength(k, d, h.next);
      if n.Ok? {
        NodesCountBound(k, d, n.next, n.value);
      }
    }
  }

  lemma {:induction false} NodesCountBound(k: Checks, d: Buffer, at: nat, n: nat)
    requires at <= |d|
    ensures var r := ReadNodes(k, d, at, n); r.Ok? ==> 4 * NodesCount(r.value) <= r.next - at
    decreases |d| - at, 1, n
  {
    hide HEAD_CODEC, HeadOf, ReadNode, NodeCount;
    if n == 0 {
    } else {
      NodeCountBound(k, d, at);
      var v := ReadNode(k, d, at);
      if v.Ok? {
        NodesCountBound(k, d, v.next, n - 1);
        var vs := ReadNodes(k, d, v.next, n - 1);
        if vs.Ok? {
          assert ([v.value] + vs.value)[1..] == vs.value;
        }
      }
    }
  }

  // ---------------------------------------------------------------------------------------------
  // Lift and lower
  // ---------------------------------------------------------------------------------------------

  /** Reads one node from the whole buffer; bytes behind it are an error. */
  function LiftWith(k: Checks, d: Buffer): (r: Read<Node>) {
    var (v, p) :- ReadNode(k, d, 0);
    if p < |d| then Throw(IncompleteData, p) else Ok(v, p)
  }

  function Lift(d: Buffer): (r: Read<Node>) { LiftWith(SWIFT, d) }

  /** Writes a node and hands the bytes over with an Int32 length; `None` is a trap in an `Int32(count)`. */
  function Lower(v: Node): (r: Maybe<Buffer>) {
    if Fits(v) && |NodeBytes(v)| <= MAX_INT32 then Some(NodeBytes(v)) else None
  }

  /** In any context, a written node reads back as itself, and the reader stops right behind it. */
  lemma NodeInContext(v: Node, before: Buffer, after: Buffer)
    requires Fits(v)
    ensures ReadNode(SWIFT, before + NodeBytes(v) + after, |before|) == Ok(v, |before| + |NodeBytes(v)|)
  {
    WindowInContext(before, NodeBytes(v), after);
    NodeRoundTrip(SWIFT, before + NodeBytes(v) + after, |before|, v);
  }

  lemma LiftOfLower(v: Node)
    requires Lower(v).Some?
    ensures Lift(Lower(v).value) == Ok(v, |Lower(v).value|)
  {
    hide HEAD_CODEC, NodeBytes, ReadNode, Fits;
    var s := NodeBytes(v);
    assert s == [] + s + [];
    NodeInContext(v, [], []);
  }

  /** Encodings are injective, and none is a proper prefix of another. */
  lemma PrefixFree(u: Node, v: Node)
    requires Fits(u) && Fits(v) && NodeBytes(u) <= NodeBytes(v)
    ensures u == v
  {
    hide HEAD_CODEC, NodeBytes, ReadNode, Fits;
    var s, t := NodeBytes(u), NodeBytes(v);
    var rest := t[|s|..];
    assert t == [] + s + rest == [] + t + [];
    NodeInContext(u, [], rest);
    NodeInContext(v, [], []);
  }

  /**
    Writing a lifted tree reproduces the buffer byte for byte exactly when every Bool byte was 0 or 1
    and every string payload well formed; that is, when the reader with those checks accepts it too.
   */
  lemma ReproducedIffCanonical(d: Buffer)
    requires Lift(d).Ok?
    ensures (Fits(Lift(d).value) && NodeBytes(Lift(d).value) == d) <==> LiftWith(Checks(true, true, false), d).Ok?
  {
    hide HEAD_CODEC, NodeBytes, ReadNode, Fits;
    var k, v := Checks(true, true, false), Lift(d).value;
    NodeAgrees(k, d, 0);
    if LiftWith(k, d).Ok? {
      NodeReads(k, d, 0);
      assert d == d[0..|d|];
    }
    if Fits(v) && NodeBytes(v) == d {
      assert Window(d, 0, NodeBytes(v));
      NodeRoundTrip(k, d, 0, v);
    }
  }

  /** With well-formed strings the tree can be written again, in as many bytes, and reads back as itself. */
  lemma RereadWellFormed(d: Buffer)
    requires LiftWith(Checks(false, true, false), d).Ok?
    ensures Lift(d).Ok? && Fits(Lift(d).value)
    ensures |NodeBytes(Lift(d).value)| == |d|
    ensures Lift(NodeBytes(Lift(d).value)) == Lift(d)
  {
    hide HEAD_CODEC, NodeBytes, ReadNode, Fits;
    var k := Checks(false, true, false);
    NodeAgrees(k, d, 0);
    NodeReads(k, d, 0);
    var v := Lift(d).value;
    assert NodeBytes(v) == [] + NodeBytes(v) + [];
    NodeInContext(v, [], []);
  }

  /** Even ill-formed strings survive a second trip: up to 715,827,882 bytes the repaired tree can be lowered. */
  lemma RereadRepaired(d: Buffer)
    requires Lift(d).Ok? && 3 * |d| <= MAX_INT32
    ensures Lower(Lift(d).value).Some?
    ensures var again := Lift(Lower(Lift(d).value).value); again.Ok? && again.value == Lift(d).value
  {
    hide HEAD_CODEC, NodeBytes, ReadNode, Fits;
    NodeReads(SWIFT, d, 0);
    LiftOfLower(Lift(d).value);
  }

  /** On any bytes: the reader stays in the buffer, and a tree costs at least four bytes for each node. */
  lemma LiftIsBounded(d: Buffer, at: nat)
    requires at <= |d|
    ensures var r := ReadNode(SWIFT, d, at);
            && (r != Trap ==> at <= r.next <= |d|)
            && (r.Ok? ==> 4 * NodeCount(r.value) <= r.next - at)
  {
    hide HEAD_CODEC, NodeBytes, ReadNode, Fits;
    NodeReads(SWIFT, d, at);
    NodeCountBound(SWIFT, d, at);
  }

  /**
    The only way to trap is a negative length: the reader that checks lengths throws there, right behind
    the four bytes that hold it, and only there.
   */
  lemma TrapsIffNegativeLength(d: Buffer, at: nat)
    requires at <= |d|
    ensures var r, checked := ReadNode(SWIFT, d, at), ReadNode(LENGTHS_ONLY, d, at);
            && checked != Trap
            && (r == Trap <==> checked.Throw? && checked.error == Rejected)
            && (r == Trap ==> NegativeBefore(d, at, checked.next))
            && (r != Trap ==> r == checked)
  {
    NodeAgrees(LENGTHS_ONLY, d, at);
  }

  /** What a caller can see in the buffer: without four adjacent bytes that make a negative number, there is no trap. */
  lemma NoTrapWithoutNegative(d: Buffer, at: nat)
    requires at <= |d| && forall p :: at + 4 <= p <= |d| ==> !NegativeBefore(d, at, p)
    ensures ReadNode(SWIFT, d, at) != Trap
  {
    hide HEAD_CODEC, ReadNode;
    TrapsIffNegativeLength(d, at);
  }
}
