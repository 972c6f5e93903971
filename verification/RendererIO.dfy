/**
  The converters as the generated code runs them: a reader whose offset the calls advance, a writer
  whose buffer they grow, and loops over counted arrays. Each method is tied to a function of
  `Wire` or `RendererCodec`.
 */
module RendererIO {
  import opened BigEndian
  import opened Optionals
  import opened Wire
  import opened RendererTree
  import opened RendererCodec

  /** `rest` with the elements read before it in front. */
  function After<T>(done: seq<T>, rest: Read<seq<T>>): (r: Read<seq<T>>) {
    if rest.Ok? then Ok(done + rest.value, rest.next) else rest
  }

  lemma AfterNothing<T>(rest: Read<seq<T>>)
    ensures After([], rest) == rest
  {
    assert rest.Ok? ==> [] + rest.value == rest.value;
  }

  lemma AfterNext<T>(done: seq<T>, v: T, rest: Read<seq<T>>)
    ensures rest.Ok? ==> After(done, Ok([v] + rest.value, rest.next)) == After(done + [v], rest)
  {
    assert rest.Ok? ==> done + ([v] + rest.value) == (done + [v]) + rest.value;
  }

  class Reader {
    const data: Buffer
    var offset: nat

    constructor (data: Buffer)
      ensures this.data == data && offset == 0
    {
      this.data := data;
      offset := 0;
    }

    predicate HasRemaining()
      reads this
    {
      offset < |data|
    }

    method ReadInt() returns (r: Read<int>)
      modifies this
      ensures r == ReadInt32(data, old(offset)) && r != Trap && offset == r.next
    {
      if |data| < offset + 4 {
        return Throw(BufferOverflow, offset);
      }
      r := Ok(BytesInt32(data[offset..offset + 4]), offset + 4);
      offset := offset + 4;
    }

    /** Any converter that does not recurse. */
    method Read<T>(c: Codec<T>) returns (r: Read<T>)
      modifies this
      ensures r == c.read(SWIFT, data, old(offset)) && (r != Trap ==> offset == r.next)
    {
      r := c.read(SWIFT, data, offset);
      if r != Trap {
        offset := r.next;
      }
    }

    method ReadSequence<T>(c: Codec<T>) returns (r: Read<seq<T>>)
      modifies this
      ensures r == List(c).read(SWIFT, data, old(offset)) && (r != Trap ==> offset == r.next)
    {
      var count := ReadInt();
      if count.Throw? {
        return Throw(count.error, count.next);
      }
      if count.value < 0 {
        return Trap;
      }
      ghost var start := offset;
      var items := [];
      AfterNothing(ReadMany(c, SWIFT, data, start, count.value));
      for i := 0 to count.value
        invariant ReadMany(c, SWIFT, data, start, count.value) ==
                  After(items, ReadMany(c, SWIFT, data, offset, count.value - i))
      {
        var item := Read(c);
        match item {
          case Throw(e, p) => return Throw(e, p);
          case Trap => return Trap;
          case Ok(v, p) =>
            ghost var rest := ReadMany(c, SWIFT, data, p, count.value - i - 1);
            AfterNext(items, v, rest);
            items := items + [v];
        }
      }
      assert items + [] == items;
      r := Ok(items, offset);
    }

    method ReadNode() returns (r: Read<Node>)
      requires offset <= |data|
      modifies this
      ensures r == RendererCodec.ReadNode(SWIFT, data, old(offset)) && (r != Trap ==> offset == r.next)
      decreases |data| - offset, 0
    {
      hide HEAD_CODEC;
      HeadAdvances(SWIFT, data, offset);
      var head := Read(HEAD_CODEC);
      match head {
        case Throw(e, p) => return Throw(e, p);
        case Trap => return Trap;
        case Ok(h, _) =>
          if !HasChildren(h) {
            return Ok(Assemble(h, []), offset);
          }
          var children := ReadChildren();
          match children {
            case Throw(e, p) => return Throw(e, p);
            case Trap => return Trap;
            case Ok(c, _) => return Ok(Assemble(h, c), offset);
          }
      }
    }

    method ReadChildren() returns (r: Read<seq<Node>>)
      requires offset <= |data|
      modifies this
      ensures r == RendererCodec.ReadChildren(SWIFT, data, old(offset)) && (r != Trap ==> offset == r.next)
      decreases |data| - offset, 1
    {
      hide HEAD_CODEC, HeadOf, RendererCodec.ReadNode, BytesInt32;
      var count := ReadInt();
      if count.Throw? {
        return Throw(count.error, count.next);
      }
      if count.value < 0 {
        return Trap;
      }
      ghost var start := offset;
      var children := [];
      AfterNothing(ReadNodes(SWIFT, data, start, count.value));
      for i := 0 to count.value
        invariant start <= offset <= |data|
        invariant ReadNodes(SWIFT, data, start, count.value) ==
                  After(children, ReadNodes(SWIFT, data, offset, count.value - i))
      {
        var child := ReadNode();
        match child {
          case Throw(e, p) => return Throw(e, p);
          case Trap => return Trap;
          case Ok(v, p) =>
            ghost var rest := ReadNodes(SWIFT, data, p, count.value - i - 1);
            AfterNext(children, v, rest);
            children := children + [v];
        }
      }
      assert children + [] == children;
      r := Ok(children, offset);
    }
  }

  method LiftBuffer(d: Buffer) returns (r: Read<Node>)
    ensures r == Lift(d)
  {
    hide HEAD_CODEC;
    var reader := new Reader(d);
    r := reader.ReadNode();
    if r.Ok? && reader.HasRemaining() {
      r := Throw(IncompleteData, reader.offset);
    }
  }

  /** Each write reports whether it came through; when it did not, an `Int32(count)` trapped. */
  class Writer {
    var bytes: Buffer

    constructor ()
      ensures bytes == []
    {
      bytes := [];
    }

    method Write<T>(c: Codec<T>, v: T) returns (ok: bool)
      modifies this
      ensures ok == c.fits(v)
      ensures ok ==> bytes == old(bytes) + c.bytes(v)
    {
      ok := c.fits(v);
      if ok {
        bytes := bytes + c.bytes(v);
      }
    }

    method WriteCount(n: nat) returns (ok: bool)
      modifies this
      ensures ok == (n <= MAX_INT32)
      ensures bytes == old(bytes) + if n <= MAX_INT32 then Int32Bytes(n) else []
    {
      ok := n <= MAX_INT32;
      if ok {
        bytes := bytes + Int32Bytes(n);
      }
    }

    method WriteSequence<T>(c: Codec<T>, vs: seq<T>) returns (ok: bool)
      modifies this
      ensures ok == List(c).fits(vs)
      ensures ok ==> bytes == old(bytes) + List(c).bytes(vs)
    {
      ok := WriteCount(|vs|);
      if !ok {
        return;
      }
      ghost var counted := bytes;
      assert vs[0..] == vs;
      for i := 0 to |vs|
        invariant forall j :: 0 <= j < i ==> c.fits(vs[j])
        invariant counted + BytesOfMany(c, vs) == bytes + BytesOfMany(c, vs[i..])
      {
        ghost var before := bytes;
        var written := Write(c, vs[i]);
        if !written {
          return false;
        }
        assert vs[i..][1..] == vs[i + 1..];
        assert before + (c.bytes(vs[i]) + BytesOfMany(c, vs[i + 1..])) == bytes + BytesOfMany(c, vs[i + 1..]);
      }
      assert bytes + [] == bytes;
      assert old(bytes) + (Int32Bytes(|vs|) + BytesOfMany(c, vs)) == counted + BytesOfMany(c, vs);
    }

    method WriteNode(v: Node) returns (ok: bool)
      modifies this
      ensures ok == Fits(v)
      ensures ok ==> bytes == old(bytes) + NodeBytes(v)
      decreases v, 1
    {
      hide HEAD_CODEC;
      var h := HeadOf(v);
      ok := Write(HEAD_CODEC, h);
      if ok && HasChildren(h) {
        ok := WriteChildren(v.children);
      }
    }

    method WriteChildren(vs: seq<Node>) returns (ok: bool)
      modifies this
      ensures ok == ChildrenFit(vs)
      ensures ok ==> bytes == old(bytes) + ChildrenBytes(vs)
      decreases vs, 0
    {
      hide HEAD_CODEC, HeadOf, Fits, NodeBytes, Int32Bytes;
      ok := WriteCount(|vs|);
      if !ok {
        return;
      }
      ghost var counted := bytes;
      assert vs[0..] == vs;
      for i := 0 to |vs|
        invariant AllNodesFit(vs) == AllNodesFit(vs[i..])
        invariant counted + NodesBytes(vs) == bytes + NodesBytes(vs[i..])
      {
        ghost var before := bytes;
        assert vs[i..][0] == vs[i] && vs[i..][1..] == vs[i + 1..];
        var written := WriteNode(vs[i]);
        if !written {
          return false;
        }
        assert before + (NodeBytes(vs[i]) + NodesBytes(vs[i + 1..])) == bytes + NodesBytes(vs[i + 1..]);
      }
      assert bytes + [] == bytes;
      assert old(bytes) + (Int32Bytes(|vs|) + NodesBytes(vs)) == counted + NodesBytes(vs);
    }
  }

  method LowerNode(v: Node) returns (r: Maybe<Buffer>)
    ensures r == Lower(v)
  {
    hide HEAD_CODEC;
    var writer := new Writer();
    var ok := writer.WriteNode(v);
    assert [] + NodeBytes(v) == NodeBytes(v);
    if !ok || |writer.bytes| > MAX_INT32 {
      return None;
    }
    r := Some(writer.bytes);
  }
}
