/** `UniffiHandleMap`: handles stand for Swift objects on the other side of the FFI. */
module HandleMap {
  import opened Handles

  /** Every method runs with the lock held, so calls are atomic. */
  class UniffiHandleMap<T> {
    var map_: map<Handle, T>
    var currentHandle: Handle

    function Contents(): (t: Table<T>)
      reads this
    {
      Table(map_, currentHandle)
    }

    constructor ()
      ensures Contents() == Empty()
    {
      map_ := map[];
      currentHandle := INITIAL;
    }

    method DoInsert(obj: T) returns (r: Reply<Handle>)
      modifies this
      ensures match Handles.Insert(old(Contents()), obj)
              case Fine((t, h)) => r == Fine(h) && Contents() == t
              case _ => r == Trap && Contents() == old(Contents())
    {
      var handle := currentHandle;
      if currentHandle + DELTA > MAX_UINT64 {
        return Trap;
      }
      currentHandle := currentHandle + DELTA;
      map_ := map_[handle := obj];
      r := Fine(handle);
    }

    method Insert(obj: T) returns (r: Reply<Handle>)
      modifies this
      ensures match Handles.Insert(old(Contents()), obj)
              case Fine((t, h)) => r == Fine(h) && Contents() == t
              case _ => r == Trap && Contents() == old(Contents())
    {
      r := DoInsert(obj);
    }

    method Get(handle: Handle) returns (r: Reply<T>)
      ensures r == Handles.Get(Contents(), handle)
    {
      r := if handle in map_ then Fine(map_[handle]) else Stale;
    }

    method Clone(handle: Handle) returns (r: Reply<Handle>)
      modifies this
      ensures match Handles.Clone(old(Contents()), handle)
              case Fine((t, h)) => r == Fine(h) && Contents() == t
              case Stale => r == Stale && Contents() == old(Contents())
              case Trap => r == Trap && Contents() == old(Contents())
    {
      if handle !in map_ {
        return Stale;
      }
      r := DoInsert(map_[handle]);
    }

    method Remove(handle: Handle) returns (r: Reply<T>)
      modifies this
      ensures match Handles.Remove(old(Contents()), handle)
              case Fine((t, obj)) => r == Fine(obj) && Contents() == t
              case _ => r == Stale && Contents() == old(Contents())
    {
      if handle !in map_ {
        return Stale;
      }
      r := Fine(map_[handle]);
      map_ := map_ - {handle};
    }

    method Count() returns (n: nat)
      ensures n == |Contents().live|
    {
      n := |map_|;
    }
  }
}
