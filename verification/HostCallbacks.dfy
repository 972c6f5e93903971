/** The callback converter on top of the handle map: lowering hands an object over, lifting takes it back. */
module HostCallbacks {
  import opened Handles
  import opened HandleMap

  /** A callback object: one written in Swift, or a wrapper around an even, Rust-made handle. */
  datatype Callbacks = SwiftObject(id: nat) | RustImpl(handle: Handle)

  type Owners = Table<Callbacks>

  /** `cloned` is the handle that Rust returns when asked to clone its own. */
  function Lower(t: Owners, v: Callbacks, cloned: Handle): (r: Reply<(Owners, Handle)>) {
    if v.RustImpl? then Fine((t, cloned)) else Insert(t, v)
  }

  function Lift(t: Owners, h: Handle): (r: Reply<(Owners, Callbacks)>) {
    if h % 2 == 0 then Fine((t, RustImpl(h))) else Remove(t, h)
  }

  /** The free entry of the vtable only prints when the handle is missing. */
  function VtableFree(t: Owners, h: Handle): (r: Owners) {
    match Remove(t, h)
    case Fine((t', _)) => t'
    case _ => t
  }

  /** The clone entry of the vtable is fatal when the handle is missing. */
  function VtableClone(t: Owners, h: Handle): (r: Reply<(Owners, Handle)>) {
    match Clone(t, h)
    case Fine(p) => Fine(p)
    case _ => Trap
  }

  /** Lifting a lowered Swift callback gives it back and leaves the live handles as they were. */
  lemma LiftOfLower(h: History<Callbacks>, v: Callbacks, cloned: Handle)
    requires Consistent(h) && v.SwiftObject? && Lower(h.table, v, cloned).Fine?
    ensures var (t, k) := Lower(h.table, v, cloned).value;
            && k % 2 == 1
            && Lift(t, k).Fine?
            && Lift(t, k).value.1 == v
            && Lift(t, k).value.0.live == h.table.live
  {
    assert h.table.current !in h.table.live;
    var (t, k) := Lower(h.table, v, cloned).value;
    assert t.live - {k} == h.table.live;
  }

  /** The same with any other traffic on the map in between, as long as nobody else takes the handle. */
  lemma LiftMuchLater(h: History<Callbacks>, v: Callbacks, between: seq<Call<Callbacks>>)
    requires Consistent(h) && v.SwiftObject? && After(h, InsertCall(v)).Some?
    requires var k := h.table.current; forall c :: c in between ==> c != RemoveCall(k)
    requires Run(After(h, InsertCall(v)).value, between).Some?
    ensures var t := Run(After(h, InsertCall(v)).value, between).value.table;
            && Lift(t, h.table.current).Fine?
            && Lift(t, h.table.current).value.1 == v
            && |Lift(t, h.table.current).value.0.live| == |t.live| - 1
  {
    CallKeepsConsistent(h, InsertCall(v));
    var next := After(h, InsertCall(v)).value;
    LiveUntilRemoved(next, between, h.table.current);
    RunKeepsConsistent(next, between);
    var t := Run(next, between).value.table;
    assert (t.live - {h.table.current}).Keys == t.live.Keys - {h.table.current};
  }

  /** A Rust-made callback never touches the map, in either direction. */
  lemma RustCallbacksPassThrough(t: Owners, h: Handle, cloned: Handle)
    requires h % 2 == 0 && cloned % 2 == 0
    ensures Lower(t, RustImpl(h), cloned) == Fine((t, cloned))
    ensures Lift(t, cloned) == Fine((t, RustImpl(cloned)))
  {
  }

  /** A clone keeps the object alive after the original handle is freed, and freeing both leaves nothing behind. */
  lemma CloneOutlivesOriginal(h: History<Callbacks>, k: Handle)
    requires Consistent(h) && k in h.table.live && VtableClone(h.table, k).Fine?
    ensures var (t, k') := VtableClone(h.table, k).value;
            && k' != k
            && Get(VtableFree(t, k), k') == Fine(h.table.live[k])
            && Get(VtableFree(t, k), k) == Stale
            && VtableFree(VtableFree(t, k), k').live == h.table.live - {k}
  {
    assert h.table.current !in h.table.live;
    var (t, k') := VtableClone(h.table, k).value;
    assert VtableFree(VtableFree(t, k), k').live == h.table.live - {k};
  }

  class FfiConverterTypeHostCallbacks {
    const handleMap: UniffiHandleMap<Callbacks>

    constructor (handleMap: UniffiHandleMap<Callbacks>)
      ensures this.handleMap == handleMap
    {
      this.handleMap := handleMap;
    }

    method LowerCallback(v: Callbacks, cloned: Handle) returns (r: Reply<Handle>)
      modifies handleMap
      ensures match Lower(old(handleMap.Contents()), v, cloned)
              case Fine((t, h)) => r == Fine(h) && handleMap.Contents() == t
              case _ => r == Trap && handleMap.Contents() == old(handleMap.Contents())
    {
      if v.RustImpl? {
        return Fine(cloned);
      }
      r := handleMap.Insert(v);
    }

    method LiftCallback(h: Handle) returns (r: Reply<Callbacks>)
      modifies handleMap
      ensures match Lift(old(handleMap.Contents()), h)
              case Fine((t, v)) => r == Fine(v) && handleMap.Contents() == t
              case _ => r == Stale && handleMap.Contents() == old(handleMap.Contents())
    {
      if h % 2 == 0 {
        return Fine(RustImpl(h));
      }
      r := handleMap.Remove(h);
    }

    method UniffiFree(h: Handle)
      modifies handleMap
      ensures handleMap.Contents() == VtableFree(old(handleMap.Contents()), h)
    {
      var _ := handleMap.Remove(h);
    }

    method UniffiClone(h: Handle) returns (r: Reply<Handle>)
      modifies handleMap
      ensures match VtableClone(old(handleMap.Contents()), h)
              case Fine((t, k)) => r == Fine(k) && handleMap.Contents() == t
              case _ => r == Trap && handleMap.Contents() == old(handleMap.Contents())
    {
      r := handleMap.Clone(h);
      if r.Stale? {
        r := Trap;
      }
    }
  }
}
