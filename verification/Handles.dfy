/** What `UniffiHandleMap` does, as a table that stands for its two fields, and what every run of calls keeps. */
module Handles {
  import opened Optionals

  type Handle = nat

  const MAX_UINT64 := 0xFFFF_FFFF_FFFF_FFFF
  const INITIAL: Handle := 1
  const DELTA := 2

  /** `Stale` is the error `unexpectedStaleHandle`; `Trap` the fatal overflow of `currentHandle`. */
  datatype Reply<+R> = Fine(value: R) | Stale | Trap

  datatype Table<T> = Table(live: map<Handle, T>, current: Handle)

  function Empty<T>(): (t: Table<T>) { Table(map[], INITIAL) }

  function Insert<T>(t: Table<T>, obj: T): (r: Reply<(Table<T>, Handle)>) {
    if t.current + DELTA > MAX_UINT64 then Trap
    else Fine((Table(t.live[t.current := obj], t.current + DELTA), t.current))
  }

  function Get<T>(t: Table<T>, h: Handle): (r: Reply<T>) {
    if h in t.live then Fine(t.live[h]) else Stale
  }

  function Clone<T>(t: Table<T>, h: Handle): (r: Reply<(Table<T>, Handle)>) {
    if h in t.live then Insert(t, t.live[h]) else Stale
  }

  function Remove<T>(t: Table<T>, h: Handle): (r: Reply<(Table<T>, T)>) {
    if h in t.live then Fine((t.(live := t.live - {h}), t.live[h])) else Stale
  }

  // ---------------------------------------------------------------------------------------------
  // Whole runs
  // ---------------------------------------------------------------------------------------------

  datatype Call<T> =
    | InsertCall(obj: T)
    | CloneCall(handle: Handle)
    | RemoveCall(handle: Handle)
    | GetCall(handle: Handle)

  /** A table together with what has happened to it. `issued` keeps the object each handle was made for. */
  datatype History<T> = History(
    table: Table<T>, issued: map<Handle, T>, removed: set<Handle>, inserts: nat, clones: nat, removes: nat)

  function Start<T>(): (h: History<T>) { History(Empty(), map[], {}, 0, 0, 0) }

  /** One call; `None` when the process traps in it. A stale handle only makes the call fail. */
  function After<T>(h: History<T>, c: Call<T>): (r: Maybe<History<T>>) {
    match c
    case InsertCall(obj) =>
      (match Insert(h.table, obj)
       case Fine((t, k)) => Some(h.(table := t, issued := h.issued[k := obj], inserts := h.inserts + 1))
       case _ => None)
    case CloneCall(k) =>
      (match Clone(h.table, k)
       case Fine((t, k')) => Some(h.(table := t, issued := h.issued[k' := h.table.live[k]], clones := h.clones + 1))
       case Stale => Some(h)
       case Trap => None)
    case RemoveCall(k) =>
      (match Remove(h.table, k)
       case Fine((t, _)) => Some(h.(table := t, removed := h.removed + {k}, removes := h.removes + 1))
       case _ => Some(h))
    case GetCall(_) => Some(h)
  }

  function Run<T>(h: History<T>, calls: seq<Call<T>>): (r: Maybe<History<T>>)
    decreases |calls|
  {
    if calls == [] then Some(h)
    else
      match After(h, calls[0])
      case None => None
      case Some(next) => Run(next, calls[1..])
  }

  /** What every run keeps. */
  ghost predicate Consistent<T>(h: History<T>) {
    && h.table.current == INITIAL + DELTA * (h.inserts + h.clones)
    && |h.table.live| + h.removes == h.inserts + h.clones
    && Tracked(h)
  }

  /** The live handles are those issued and not removed, each with the object it was issued for. */
  ghost predicate Tracked<T>(h: History<T>) {
    && (forall k :: k in h.issued ==> k % 2 == 1 && k < h.table.current)
    && h.removed <= h.issued.Keys
    && h.table.live.Keys == h.issued.Keys - h.removed
    && (forall k :: k in h.table.live ==> h.table.live[k] == h.issued[k])
  }

  /** Everything ever issued or removed stays so. */
  ghost predicate Extends<T>(later: History<T>, h: History<T>) {
    && h.removed <= later.removed
    && h.issued.Keys <= later.issued.Keys
    && (forall k :: k in h.issued ==> later.issued[k] == h.issued[k])
  }

  lemma IssueKeepsTracked<T>(h: History<T>, next: History<T>, obj: T)
    requires Tracked(h) && h.table.current % 2 == 1
    requires next.table == Table(h.table.live[h.table.current := obj], h.table.current + DELTA)
    requires next.issued == h.issued[h.table.current := obj] && next.removed == h.removed
    ensures Tracked(next)
  {
  }

  lemma IssueKeepsConsistent<T>(h: History<T>, next: History<T>, obj: T)
    requires Consistent(h)
    requires next.table == Table(h.table.live[h.table.current := obj], h.table.current + DELTA)
    requires next.issued == h.issued[h.table.current := obj] && next.removed == h.removed
    requires next.inserts + next.clones == h.inserts + h.clones + 1 && next.removes == h.removes
    ensures Consistent(next)
  {
    var k := h.table.current;
    assert k !in h.table.live;
    hide Tracked;
    IssueKeepsTracked(h, next, obj);
    OneMore(h.table.live, k, obj);
  }

  lemma OneMore<T>(m: map<Handle, T>, k: Handle, v: T)
    requires k !in m
    ensures |m[k := v]| == |m| + 1
  {
    assert m[k := v].Keys == m.Keys + {k};
  }

  lemma RemoveKeepsConsistent<T>(h: History<T>, k: Handle)
    requires Consistent(h) && k in h.table.live
    ensures var (t, _) := Remove(h.table, k).value;
            Consistent(h.(table := t, removed := h.removed + {k}, removes := h.removes + 1))
  {
    var (t, _) := Remove(h.table, k).value;
    assert t.live.Keys == h.table.live.Keys - {k};
    assert |t.live| == |t.live.Keys| == |h.table.live.Keys| - 1;
  }

  lemma CallKeepsConsistent<T>(h: History<T>, c: Call<T>)
    requires Consistent(h)
    ensures After(h, c).Some? ==> Consistent(After(h, c).value) && Extends(After(h, c).value, h)
  {
    match c
    case InsertCall(obj) =>
      if Insert(h.table, obj).Fine? {
        IssueKeepsConsistent(h, After(h, c).value, obj);
      }
    case CloneCall(k) =>
      if Clone(h.table, k).Fine? {
        IssueKeepsConsistent(h, After(h, c).value, h.table.live[k]);
      }
    case RemoveCall(k) =>
      if k in h.table.live {
        RemoveKeepsConsistent(h, k);
      }
    case GetCall(_) =>
  }

  lemma {:induction false} RunKeepsConsistent<T>(h: History<T>, calls: seq<Call<T>>)
    requires Consistent(h)
    ensures Run(h, calls).Some? ==> Consistent(Run(h, calls).value) && Extends(Run(h, calls).value, h)
    decreases |calls|
  {
    if calls == [] {
    } else {
      CallKeepsConsistent(h, calls[0]);
      if After(h, calls[0]).Some? {
        RunKeepsConsistent(After(h, calls[0]).value, calls[1..]);
      }
    }
  }

  /**
    Conservation: after any run the live handles number inserts plus clones minus removes, all issued
    ones are odd and below `currentHandle`, and a handle is live exactly when it was issued and not yet
    removed; it then yields the object it was issued for.
   */
  lemma EveryRunConserves<T>(calls: seq<Call<T>>, k: Handle)
    requires Run(Start<T>(), calls).Some?
    ensures var h := Run(Start<T>(), calls).value;
            && |h.table.live| == h.inserts + h.clones - h.removes
            && (k in h.issued ==> k % 2 == 1 && k < h.table.current)
            && (Get(h.table, k).Fine? <==> k in h.issued && k !in h.removed)
            && (Get(h.table, k).Fine? ==> Get(h.table, k).value == h.issued[k])
  {
    RunKeepsConsistent(Start<T>(), calls);
  }

  /** A new handle is one that was never issued before. */
  lemma IssuedHandleIsFresh<T>(h: History<T>, obj: T)
    requires Consistent(h) && Insert(h.table, obj).Fine?
    ensures Insert(h.table, obj).value.1 !in h.issued
  {
  }

  /** A removed handle is stale forever. */
  lemma RemovedStaysStale<T>(h: History<T>, calls: seq<Call<T>>, k: Handle)
    requires Consistent(h) && k in h.removed && Run(h, calls).Some?
    ensures Get(Run(h, calls).value.table, k) == Stale
    ensures Clone(Run(h, calls).value.table, k) == Stale && Remove(Run(h, calls).value.table, k) == Stale
  {
    RunKeepsConsistent(h, calls);
  }

  /** The counter overflows exactly when 2^63 - 1 handles have been issued. */
  lemma TrapsIffExhausted<T>(h: History<T>, obj: T)
    requires Consistent(h)
    ensures Insert(h.table, obj) == Trap <==> h.inserts + h.clones >= 0x7FFF_FFFF_FFFF_FFFF
  {
  }

  lemma StaysLive<T>(h: History<T>, c: Call<T>, k: Handle)
    requires Consistent(h) && k in h.table.live && After(h, c).Some? && c != RemoveCall(k)
    ensures var t := After(h, c).value.table; k in t.live && t.live[k] == h.table.live[k]
  {
  }

  /** As long as nobody removes it, a live handle keeps yielding its object, whatever else happens. */
  lemma {:induction false} LiveUntilRemoved<T>(h: History<T>, calls: seq<Call<T>>, k: Handle)
    requires Consistent(h) && k in h.table.live && Run(h, calls).Some?
    requires forall c :: c in calls ==> c != RemoveCall(k)
    ensures Get(Run(h, calls).value.table, k) == Fine(h.table.live[k])
    decreases |calls|
  {
    hide Consistent, After;
    if calls == [] {
    } else {
      CallKeepsConsistent(h, calls[0]);
      assert calls[0] in calls && forall c :: c in calls[1..] ==> c in calls;
      StaysLive(h, calls[0], k);
      LiveUntilRemoved(After(h, calls[0]).value, calls[1..], k);
    }
  }
}
