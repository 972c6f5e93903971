/** The container's lock sequence: every lock is tried, and the report at the end is exact. */
module LockSequence {
  import opened Optionals
  import opened JsObject
  import opened Lockdown

  datatype Target = Window | SocketPrototype | Navigator | Document

  datatype Realm = Realm(window: Object, socketPrototype: Object, navigator: Object, document: Object) {
    function At(t: Target): (o: Object) {
      match t
      case Window => window
      case SocketPrototype => socketPrototype
      case Navigator => navigator
      case Document => document
    }

    function With(t: Target, o: Object): (r: Realm)
      ensures r.At(t) == o
      ensures forall u :: u != t ==> r.At(u) == At(u)
    {
      match t
      case Window => this.(window := o)
      case SocketPrototype => this.(socketPrototype := o)
      case Navigator => this.(navigator := o)
      case Document => this.(document := o)
    }
  }

  datatype Site = Site(target: Target, lock: Lock)

  /** A failure as recorded: which object, which property. */
  type Failure = (Target, Key)

  datatype Progress = Finished(realm: Realm, failures: seq<Failure>) | Aborted(realm: Realm, failures: seq<Failure>)

  function RunLocks(r: Realm, failures: seq<Failure>, sites: seq<Site>): (p: Progress)
    decreases |sites|
  {
    if sites == [] then Finished(r, failures)
    else
      var s := sites[0];
      match Attempt(r.At(s.target), s.lock)
      case Escapes(o) => Aborted(r.With(s.target, o), failures)
      case Checked(o, failed) =>
        RunLocks(r.With(s.target, o), failures + if failed then [(s.target, s.lock.key)] else [], sites[1..])
  }

  /** The closing report: the failures an Error is thrown for, if there are any. */
  function Report(failures: seq<Failure>): (thrown: Maybe<seq<Failure>>) {
    if failures == [] then None else Some(failures)
  }

  /** The value published by the host: only the boolean `true` grants. */
  datatype Decision = Boolean(b: bool) | Unresolved | SomethingElse(id: nat)

  /** What the script pins its properties to. */
  datatype Gates = Gates(socket: Value, fetch: Value, beacon: Value, element: Value, worker: Value, emptyText: Value)

  function PinTo(v: Value): (d: Descriptor) { NOTHING.(value := Some(v), writable := Some(false)) }

  function CookieDescriptor(g: Gates): (d: Descriptor) {
    NOTHING.(getter := Some(Fun(26, Returns(g.emptyText))), setter := Some(Fun(27, Returns(Undefined))))
  }

  /** The helpers' closures are numbered as the script makes them, two for each property; those of `cookie` follow. */
  function EarlySites(g: Gates): (sites: seq<Site>) {
    [ Site(Window, Pinned(WebSocket, g.socket, 0, 1)),
      Site(SocketPrototype, Custom(Constructor, PinTo(g.socket), IsValue(g.socket))),
      Site(Window, Pinned(Fetch, g.fetch, 2, 3)),
      Site(Window, Absent(XMLHttpRequest, 4, 5)),
      Site(Window, Absent(EventSource, 6, 7)),
      Site(Navigator, Pinned(SendBeacon, g.beacon, 8, 9)),
      Site(Window, Absent(IndexedDB, 10, 11)),
      Site(Window, Absent(Caches, 12, 13)),
      Site(Document, Custom(Cookie, CookieDescriptor(g), IsValue(g.emptyText))),
      Site(Window, Absent(SharedWorker, 14, 15)) ]
  }

  function WorkerSites(g: Gates): (sites: seq<Site>) {
    [Site(Navigator, Custom(ServiceWorker, PinTo(g.worker), IsValue(g.worker)))]
  }

  function LateSites(g: Gates): (sites: seq<Site>) {
    [ Site(Document, Pinned(CreateElement, g.element, 16, 17)),
      Site(Window, Absent(TruapiPolicy, 18, 19)) ]
  }

  /** `current => current === v`. */
  function IsValue(v: Value): (verify: Value -> bool) { current => StrictEquals(current, v) }

  /** The locks in the order of the script. */
  function Sequence(g: Gates, hasServiceWorker: bool, allowed: Decision): (sites: seq<Site>) {
    EarlySites(g) + ((if hasServiceWorker then WorkerSites(g) else []) + (LateSites(g) + PeerConnectionSites(allowed)))
  }

  /** `installWebRtcPolicy`: all three constructor names go unless the decision is `true` itself. */
  function PeerConnectionSites(allowed: Decision): (sites: seq<Site>) {
    if allowed == Boolean(true) then []
    else [ Site(Window, Absent(RTCPeerConnection, 20, 21)),
           Site(Window, Absent(WebkitRTCPeerConnection, 22, 23)),
           Site(Window, Absent(MozRTCPeerConnection, 24, 25)) ]
  }

  predicate Distinct(sites: seq<Site>) {
    forall i, j :: 0 <= i < j < |sites| ==> sites[i].target != sites[j].target || sites[i].lock.key != sites[j].lock.key
  }

  function Rank(key: Key): (n: nat) {
    match key
    case WebSocket => 0
    case Constructor => 1
    case Fetch => 2
    case XMLHttpRequest => 3
    case EventSource => 4
    case SendBeacon => 5
    case IndexedDB => 6
    case Caches => 7
    case Cookie => 8
    case SharedWorker => 9
    case ServiceWorker => 10
    case CreateElement => 11
    case TruapiPolicy => 12
    case RTCPeerConnection => 13
    case WebkitRTCPeerConnection => 14
    case MozRTCPeerConnection => 15
    case OtherKey(_) => 16
  }

  /** The ranks of the keys ascend, from `low` on and below `high`. */
  predicate Ascending(sites: seq<Site>, low: int, high: int) {
    && (forall i :: 0 <= i < |sites| ==> low <= Rank(sites[i].lock.key) < high)
    && (forall i :: 0 < i < |sites| ==> Rank(sites[i - 1].lock.key) < Rank(sites[i].lock.key))
  }

  lemma AscendingAppend(a: seq<Site>, b: seq<Site>, low: int, middle: int, high: int)
    requires low <= middle <= high && Ascending(a, low, middle) && Ascending(b, middle, high)
    ensures Ascending(a + b, low, high)
  {
  }

  lemma {:induction false} AscendingOrder(sites: seq<Site>, i: nat, j: nat)
    requires Ascending(sites, 0, 16) && i < j < |sites|
    ensures Rank(sites[i].lock.key) < Rank(sites[j].lock.key)
    decreases j
  {
    if i + 1 < j {
      AscendingOrder(sites, i, j - 1);
    }
    assert Rank(sites[j - 1].lock.key) < Rank(sites[j].lock.key);
  }

  lemma EarlyAscend(g: Gates)
    ensures Ascending(EarlySites(g), 0, 10)
  {
  }

  lemma LateAscend(g: Gates)
    ensures Ascending(WorkerSites(g), 10, 11) && Ascending(LateSites(g), 11, 13)
  {
  }

  lemma PeersAscend(allowed: Decision)
    ensures Ascending(PeerConnectionSites(allowed), 13, 16)
  {
  }

  lemma SequenceIsDistinct(g: Gates, hasServiceWorker: bool, allowed: Decision)
    ensures Distinct(Sequence(g, hasServiceWorker, allowed))
  {
    hide EarlySites, WorkerSites, LateSites, PeerConnectionSites, Rank;
    EarlyAscend(g);
    LateAscend(g);
    PeersAscend(allowed);
    var sites := Sequence(g, hasServiceWorker, allowed);
    var worker := if hasServiceWorker then WorkerSites(g) else [];
    AscendingAppend(LateSites(g), PeerConnectionSites(allowed), 11, 13, 16);
    AscendingAppend(worker, LateSites(g) + PeerConnectionSites(allowed), 10, 11, 16);
    AscendingAppend(EarlySites(g), worker + (LateSites(g) + PeerConnectionSites(allowed)), 0, 10, 16);
    hide Ascending;
    forall i, j | 0 <= i < j < |sites|
      ensures sites[i].lock.key != sites[j].lock.key
    {
      AscendingOrder(sites, i, j);
    }
  }

  predicate Untouched(sites: seq<Site>, t: Target, key: Key) {
    forall i :: 0 <= i < |sites| ==> sites[i].target != t || sites[i].lock.key != key
  }

  // ---------------------------------------------------------------------------------------------
  // A lock only looks at, and only touches, its own property
  // ---------------------------------------------------------------------------------------------

  predicate SameAt(o: Object, p: Object, key: Key) {
    && Own(o, key) == Own(p, key)
    && o.extensible == p.extensible
    && (key in o.inherited <==> key in p.inherited)
    && (key in o.inherited ==> o.inherited[key] == p.inherited[key])
  }

  lemma DefinedIsLocal(o: Object, p: Object, l: Lock)
    requires SameAt(o, p, l.key)
    ensures SameAt(Defined(o, l), Defined(p, l), l.key)
  {
    hide DescriptorOf, Applied;
  }

  lemma AttemptIsLocal(o: Object, p: Object, l: Lock)
    requires SameAt(o, p, l.key)
    ensures var a, b := Attempt(o, l), Attempt(p, l);
            && a.Escapes? == b.Escapes?
            && (a.Checked? ==> a.failed == b.failed)
            && SameAt(a.target, b.target, l.key)
  {
    hide Defined, Verifies;
    DefinedIsLocal(o, p, l);
  }

  lemma AttemptLeavesOthers(o: Object, l: Lock, key: Key)
    requires key != l.key
    ensures SameAt(o, Attempt(o, l).target, key)
  {
  }

  /** No read-back of the sequence throws, going by the realm as it was found. */
  ghost predicate ReadsReturn(r: Realm, sites: seq<Site>) {
    forall i :: 0 <= i < |sites| ==> Attempt(r.At(sites[i].target), sites[i].lock).Checked?
  }

  /** The locks that fail, judged one by one on the realm as it was found. */
  function Failing(r: Realm, sites: seq<Site>): (f: seq<Failure>) {
    if sites == [] then []
    else
      var s := sites[0];
      var a := Attempt(r.At(s.target), s.lock);
      (if a.Checked? && a.failed then [(s.target, s.lock.key)] else []) + Failing(r, sites[1..])
  }

  ghost predicate SameAtSites(r: Realm, q: Realm, sites: seq<Site>) {
    forall i :: 0 <= i < |sites| ==> SameAt(r.At(sites[i].target), q.At(sites[i].target), sites[i].lock.key)
  }

  /** One lock, tried on a realm that looks the same to it as the one it was found in. */
  lemma OneLock(r: Realm, q: Realm, s: Site)
    requires SameAt(r.At(s.target), q.At(s.target), s.lock.key)
    ensures var a, b := Attempt(r.At(s.target), s.lock), Attempt(q.At(s.target), s.lock);
            var next := q.With(s.target, b.target);
            && a.Escapes? == b.Escapes?
            && (a.Checked? ==> a.failed == b.failed)
            && SameAt(a.target, next.At(s.target), s.lock.key)
            && (forall t, key :: t != s.target || key != s.lock.key ==> SameAt(q.At(t), next.At(t), key))
  {
    AttemptIsLocal(r.At(s.target), q.At(s.target), s.lock);
    var next := q.With(s.target, Attempt(q.At(s.target), s.lock).target);
    forall t, key | t != s.target || key != s.lock.key
      ensures SameAt(q.At(t), next.At(t), key)
    {
      if t == s.target {
        AttemptLeavesOthers(q.At(t), s.lock, key);
      }
    }
  }

  lemma SameAtReflexive(o: Object, key: Key)
    ensures SameAt(o, o, key)
  {
  }

  lemma RealmLooksLikeItself(r: Realm, sites: seq<Site>)
    ensures SameAtSites(r, r, sites)
  {
  }

  lemma SameAtTransitive(o: Object, p: Object, q: Object, key: Key)
    requires SameAt(o, p, key) && SameAt(p, q, key)
    ensures SameAt(o, q, key)
  {
  }

  /** What no lock of the rest of the sequence is about stays as it is. */
  lemma {:induction false} RunLeavesOthers(q: Realm, failures: seq<Failure>, sites: seq<Site>, t: Target, key: Key)
    requires Untouched(sites, t, key) && RunLocks(q, failures, sites).Finished?
    ensures SameAt(q.At(t), RunLocks(q, failures, sites).realm.At(t), key)
    decreases |sites|
  {
    hide Attempt, SameAt;
    if sites == [] {
      SameAtReflexive(q.At(t), key);
    } else {
      var s := sites[0];
      SameAtReflexive(q.At(s.target), s.lock.key);
      OneLock(q, q, s);
      var next := q.With(s.target, Attempt(q.At(s.target), s.lock).target);
      var recorded := failures + if Attempt(q.At(s.target), s.lock).failed then [(s.target, s.lock.key)] else [];
      RunLeavesOthers(next, recorded, sites[1..], t, key);
      SameAtTransitive(q.At(t), next.At(t), RunLocks(next, recorded, sites[1..]).realm.At(t), key);
    }
  }

  /** After one lock the realm still looks to the others as it was found. */
  lemma NextLooksTheSame(r: Realm, q: Realm, sites: seq<Site>)
    requires sites != [] && Distinct(sites) && SameAtSites(r, q, sites)
    ensures var s := sites[0];
            SameAtSites(r, q.With(s.target, Attempt(q.At(s.target), s.lock).target), sites[1..])
  {
    hide Attempt, SameAt;
    var s := sites[0];
    OneLock(r, q, s);
    var next := q.With(s.target, Attempt(q.At(s.target), s.lock).target);
    forall i | 0 <= i < |sites| - 1
      ensures var u := sites[1..][i]; SameAt(r.At(u.target), next.At(u.target), u.lock.key)
    {
      var u := sites[i + 1];
      SameAtTransitive(r.At(u.target), q.At(u.target), next.At(u.target), u.lock.key);
    }
  }

  /** Every lock of the sequence is tried, and fails or not as it would have alone. */
  lemma {:induction false} RunFromSimilar(r: Realm, q: Realm, failures: seq<Failure>, sites: seq<Site>)
    requires Distinct(sites) && ReadsReturn(r, sites) && SameAtSites(r, q, sites)
    ensures RunLocks(q, failures, sites).Finished?
    ensures RunLocks(q, failures, sites).failures == failures + Failing(r, sites)
    decreases |sites|
  {
    hide Attempt, SameAt;
    if sites == [] {
    } else {
      var s := sites[0];
      OneLock(r, q, s);
      NextLooksTheSame(r, q, sites);
      var a := Attempt(q.At(s.target), s.lock);
      var recorded := if a.failed then [(s.target, s.lock.key)] else [];
      RunFromSimilar(r, q.With(s.target, a.target), failures + recorded, sites[1..]);
      assert failures + (recorded + Failing(r, sites[1..])) == failures + recorded + Failing(r, sites[1..]);
    }
  }

  /** In the end every property is as its lock, tried alone, would have left it. */
  lemma {:induction false} RunReaches(r: Realm, q: Realm, failures: seq<Failure>, sites: seq<Site>, i: nat)
    requires Distinct(sites) && ReadsReturn(r, sites) && SameAtSites(r, q, sites) && i < |sites|
    ensures RunLocks(q, failures, sites).Finished?
    ensures var s := sites[i];
            SameAt(Attempt(r.At(s.target), s.lock).target, RunLocks(q, failures, sites).realm.At(s.target), s.lock.key)
    decreases |sites|
  {
    hide Attempt, SameAt;
    RunFromSimilar(r, q, failures, sites);
    var s, rest := sites[0], sites[1..];
    OneLock(r, q, s);
    NextLooksTheSame(r, q, sites);
    var a := Attempt(q.At(s.target), s.lock);
    var next := q.With(s.target, a.target);
    var recorded := failures + if a.failed then [(s.target, s.lock.key)] else [];
    if i == 0 {
      RunLeavesOthers(next, recorded, rest, s.target, s.lock.key);
      SameAtTransitive(
        Attempt(r.At(s.target), s.lock).target, next.At(s.target),
        RunLocks(next, recorded, rest).realm.At(s.target), s.lock.key);
    } else {
      assert rest[i - 1] == sites[i];
      RunReaches(r, next, recorded, rest, i - 1);
    }
  }

  /**
    Every lock is tried whatever failed before it, and the failure list holds, in order, exactly the
    locks that fail when judged alone on the realm as it was found. The report throws exactly when
    there is one.
   */
  lemma ReportIsExact(r: Realm, sites: seq<Site>)
    requires Distinct(sites) && ReadsReturn(r, sites)
    ensures RunLocks(r, [], sites).Finished?
    ensures RunLocks(r, [], sites).failures == Failing(r, sites)
    ensures Report(RunLocks(r, [], sites).failures).Some? <==>
              exists i :: 0 <= i < |sites| && Attempt(r.At(sites[i].target), sites[i].lock).failed
  {
    RunFromSimilar(r, r, [], sites);
    FailingIsEmptyIff(r, sites);
  }

  lemma {:induction false} FailingIsEmptyIff(r: Realm, sites: seq<Site>)
    requires ReadsReturn(r, sites)
    ensures Failing(r, sites) == [] <==>
              forall i :: 0 <= i < |sites| ==> !Attempt(r.At(sites[i].target), sites[i].lock).failed
    decreases |sites|
  {
    hide Attempt;
    if sites == [] {
    } else {
      FailingIsEmptyIff(r, sites[1..]);
      assert forall i :: 0 < i < |sites| ==> sites[i] == sites[1..][i - 1];
    }
  }

  lemma AbsentReadsUndefined(o: Object, l: Lock)
    requires l.Absent? && Attempt(o, l).Checked? && !Attempt(o, l).failed
    ensures Get(Attempt(o, l).target, l.key) == Returns(Undefined)
  {
  }

  lemma SameAtReads(o: Object, p: Object, key: Key)
    requires SameAt(o, p, key)
    ensures Get(o, key) == Get(p, key) && (LockedAt(o, key) <==> LockedAt(p, key))
  {
  }

  lemma PeerConnectionsComeLast(g: Gates, hasServiceWorker: bool, allowed: Decision)
    requires allowed != Boolean(true)
    ensures var sites := Sequence(g, hasServiceWorker, allowed);
            && |sites| > 3
            && sites[|sites| - 3..] == PeerConnectionSites(allowed)
  {
  }

  /**
    Unless the host said `true`, a sequence that reports nothing leaves no peer connection: all three
    names read undefined, and if the window was extensible and had them configurable or not at all,
    they do so after every later run of operations.
   */
  lemma DenialRemovesPeerConnections(r: Realm, g: Gates, hasServiceWorker: bool, allowed: Decision, name: Key)
    requires allowed != Boolean(true)
    requires name in {RTCPeerConnection, WebkitRTCPeerConnection, MozRTCPeerConnection}
    requires ReadsReturn(r, Sequence(g, hasServiceWorker, allowed))
    requires RunLocks(r, [], Sequence(g, hasServiceWorker, allowed)).failures == []
    ensures var after := RunLocks(r, [], Sequence(g, hasServiceWorker, allowed)).realm.window;
            && Get(after, name) == Returns(Undefined)
            && (Lockable(r.window, name) ==> ReadsTheSameForever(after, name))
  {
    hide Sequence, Attempt, SameAt;
    var sites := Sequence(g, hasServiceWorker, allowed);
    SequenceIsDistinct(g, hasServiceWorker, allowed);
    PeerConnectionsComeLast(g, hasServiceWorker, allowed);
    RealmLooksLikeItself(r, sites);
    RunFromSimilar(r, r, [], sites);
    FailingIsEmptyIff(r, sites);
    var last := if name == RTCPeerConnection then 0 else if name == WebkitRTCPeerConnection then 1 else 2;
    var n := |sites| - 3 + last;
    assert sites[n] == sites[|sites| - 3..][last];
    var l := sites[n].lock;
    RunReaches(r, r, [], sites, n);
    var after := RunLocks(r, [], sites).realm.window;
    AbsentReadsUndefined(r.window, l);
    SameAtReads(Attempt(r.window, l).target, after, name);
    if Lockable(r.window, name) {
      LockTakes(r.window, l);
      LockedIffReadsTheSame(after, name);
    }
  }

  // ---------------------------------------------------------------------------------------------
  // What a clean run leaves behind
  // ---------------------------------------------------------------------------------------------

  /** A sequence that ran to its end met no read-back that throws. */
  lemma {:induction false} FinishedReadsReturn(r: Realm, q: Realm, failures: seq<Failure>, sites: seq<Site>)
    requires Distinct(sites) && SameAtSites(r, q, sites) && RunLocks(q, failures, sites).Finished?
    ensures ReadsReturn(r, sites)
    decreases |sites|
  {
    hide Attempt, SameAt;
    if sites == [] {
    } else {
      var s := sites[0];
      OneLock(r, q, s);
      NextLooksTheSame(r, q, sites);
      var a := Attempt(q.At(s.target), s.lock);
      var recorded := if a.failed then [(s.target, s.lock.key)] else [];
      FinishedReadsReturn(r, q.With(s.target, a.target), failures + recorded, sites[1..]);
      assert forall i :: 0 < i < |sites| ==> sites[i] == sites[1..][i - 1];
    }
  }

  /** Every lock of a sequence that reports nothing passes its read-back in the end, and holds where lockable. */
  lemma CleanLockHolds(r: Realm, sites: seq<Site>, s: Site)
    requires Distinct(sites) && s in sites
    requires RunLocks(r, [], sites).Finished? && RunLocks(r, [], sites).failures == []
    ensures var end := RunLocks(r, [], sites).realm.At(s.target);
            && Get(end, s.lock.key).Returns? && Verifies(s.lock, Get(end, s.lock.key).value)
            && (Lockable(r.At(s.target), s.lock.key) && Pins(s.lock) ==> ReadsTheSameForever(end, s.lock.key))
  {
    var i :| 0 <= i < |sites| && sites[i] == s;
    var o, end := r.At(s.target), RunLocks(r, [], sites).realm.At(s.target);
    RealmLooksLikeItself(r, sites);
    FinishedReadsReturn(r, r, [], sites);
    RunFromSimilar(r, r, [], sites);
    FailingIsEmptyIff(r, sites);
    RunReaches(r, r, [], sites, i);
    SameAtReads(Attempt(o, s.lock).target, end, s.lock.key);
    PassedReadBack(o, s.lock);
    hide Attempt, SameAt, Verifies, RunLocks, Distinct;
    if Lockable(o, s.lock.key) && Pins(s.lock) {
      LockTakes(o, s.lock);
      LockedIffReadsTheSame(end, s.lock.key);
    }
  }

  lemma PassedReadBack(o: Object, l: Lock)
    requires Attempt(o, l).Checked? && !Attempt(o, l).failed
    ensures Get(Attempt(o, l).target, l.key).Returns? && Verifies(l, Get(Attempt(o, l).target, l.key).value)
  {
  }

  /** The property reads as `v` now, and for good if it was absent on an extensible object or configurable before. */
  ghost predicate ReadsAs(found: Object, now: Object, key: Key, v: Value) {
    && Get(now, key).Returns? && StrictEquals(Get(now, key).value, v)
    && (Lockable(found, key) ==> ReadsTheSameForever(now, key))
  }

  lemma CleanLockReads(r: Realm, sites: seq<Site>, s: Site, v: Value)
    requires Distinct(sites) && s in sites
    requires RunLocks(r, [], sites).Finished? && RunLocks(r, [], sites).failures == []
    requires Pins(s.lock) && forall w :: Verifies(s.lock, w) ==> StrictEquals(w, v)
    ensures ReadsAs(r.At(s.target), RunLocks(r, [], sites).realm.At(s.target), s.lock.key, v)
  {
    hide RunLocks, Verifies, Distinct, Pins;
    CleanLockHolds(r, sites, s);
  }

  /** Where a product could reach out, store or run code beyond the container, it finds what the script put there. */
  ghost predicate Contained(found: Realm, now: Realm, g: Gates, hasServiceWorker: bool) {
    && ReadsAs(found.window, now.window, WebSocket, g.socket)
    && ReadsAs(found.socketPrototype, now.socketPrototype, Constructor, g.socket)
    && ReadsAs(found.window, now.window, Fetch, g.fetch)
    && ReadsAs(found.window, now.window, XMLHttpRequest, Undefined)
    && ReadsAs(found.window, now.window, EventSource, Undefined)
    && ReadsAs(found.navigator, now.navigator, SendBeacon, g.beacon)
    && ReadsAs(found.window, now.window, IndexedDB, Undefined)
    && ReadsAs(found.window, now.window, Caches, Undefined)
    && ReadsAs(found.document, now.document, Cookie, g.emptyText)
    && ReadsAs(found.window, now.window, SharedWorker, Undefined)
    && (hasServiceWorker ==> ReadsAs(found.navigator, now.navigator, ServiceWorker, g.worker))
    && ReadsAs(found.document, now.document, CreateElement, g.element)
    && ReadsAs(found.window, now.window, TruapiPolicy, Undefined)
  }

  /** Without the host's `true` there is no peer connection; with it, the three names are as they were found. */
  ghost predicate PeerConnectionsDecided(found: Realm, now: Realm, allowed: Decision) {
    forall name :: name in {RTCPeerConnection, WebkitRTCPeerConnection, MozRTCPeerConnection} ==>
                     if allowed == Boolean(true) then Own(now.window, name) == Own(found.window, name)
                     else ReadsAs(found.window, now.window, name, Undefined)
  }

  lemma EarlyAreInSequence(g: Gates, hasServiceWorker: bool, allowed: Decision, s: Site)
    requires s in EarlySites(g) || s in LateSites(g) || (hasServiceWorker && s in WorkerSites(g))
             || s in PeerConnectionSites(allowed)
    ensures s in Sequence(g, hasServiceWorker, allowed)
  {
    hide EarlySites, LateSites, WorkerSites, PeerConnectionSites;
  }

  lemma ListedLockReads(r: Realm, g: Gates, hasServiceWorker: bool, allowed: Decision, s: Site, v: Value)
    requires var p := RunLocks(r, [], Sequence(g, hasServiceWorker, allowed)); p.Finished? && p.failures == []
    requires s in EarlySites(g) || s in LateSites(g) || (hasServiceWorker && s in WorkerSites(g))
             || s in PeerConnectionSites(allowed)
    requires Pins(s.lock) && forall w :: Verifies(s.lock, w) ==> StrictEquals(w, v)
    ensures var end := RunLocks(r, [], Sequence(g, hasServiceWorker, allowed)).realm;
            ReadsAs(r.At(s.target), end.At(s.target), s.lock.key, v)
  {
    hide RunLocks, Verifies, Distinct, Pins, EarlySites, LateSites, WorkerSites, PeerConnectionSites;
    EarlyAreInSequence(g, hasServiceWorker, allowed, s);
    SequenceIsDistinct(g, hasServiceWorker, allowed);
    hide Sequence;
    CleanLockReads(r, Sequence(g, hasServiceWorker, allowed), s, v);
  }

  lemma NetworkIsClosed(r: Realm, g: Gates, hasServiceWorker: bool, allowed: Decision)
    requires var p := RunLocks(r, [], Sequence(g, hasServiceWorker, allowed)); p.Finished? && p.failures == []
    ensures var now := RunLocks(r, [], Sequence(g, hasServiceWorker, allowed)).realm;
            && ReadsAs(r.window, now.window, WebSocket, g.socket)
            && ReadsAs(r.socketPrototype, now.socketPrototype, Constructor, g.socket)
            && ReadsAs(r.window, now.window, Fetch, g.fetch)
            && ReadsAs(r.window, now.window, XMLHttpRequest, Undefined)
            && ReadsAs(r.window, now.window, EventSource, Undefined)
            && ReadsAs(r.navigator, now.navigator, SendBeacon, g.beacon)
  {
    hide RunLocks, Sequence, ReadsAs;
    ListedLockReads(r, g, hasServiceWorker, allowed, EarlySites(g)[0], g.socket);
    ListedLockReads(r, g, hasServiceWorker, allowed, EarlySites(g)[1], g.socket);
    ListedLockReads(r, g, hasServiceWorker, allowed, EarlySites(g)[2], g.fetch);
    ListedLockReads(r, g, hasServiceWorker, allowed, EarlySites(g)[3], Undefined);
    ListedLockReads(r, g, hasServiceWorker, allowed, EarlySites(g)[4], Undefined);
    ListedLockReads(r, g, hasServiceWorker, allowed, EarlySites(g)[5], g.beacon);
  }

  lemma StorageAndDomAreClosed(r: Realm, g: Gates, hasServiceWorker: bool, allowed: Decision)
    requires var p := RunLocks(r, [], Sequence(g, hasServiceWorker, allowed)); p.Finished? && p.failures == []
    ensures var now := RunLocks(r, [], Sequence(g, hasServiceWorker, allowed)).realm;
            && ReadsAs(r.window, now.window, IndexedDB, Undefined)
            && ReadsAs(r.window, now.window, Caches, Undefined)
            && ReadsAs(r.document, now.document, Cookie, g.emptyText)
            && ReadsAs(r.window, now.window, SharedWorker, Undefined)
            && (hasServiceWorker ==> ReadsAs(r.navigator, now.navigator, ServiceWorker, g.worker))
            && ReadsAs(r.document, now.document, CreateElement, g.element)
            && ReadsAs(r.window, now.window, TruapiPolicy, Undefined)
  {
    hide RunLocks, Sequence, ReadsAs;
    ListedLockReads(r, g, hasServiceWorker, allowed, EarlySites(g)[6], Undefined);
    ListedLockReads(r, g, hasServiceWorker, allowed, EarlySites(g)[7], Undefined);
    ListedLockReads(r, g, hasServiceWorker, allowed, EarlySites(g)[8], g.emptyText);
    ListedLockReads(r, g, hasServiceWorker, allowed, EarlySites(g)[9], Undefined);
    if hasServiceWorker {
      ListedLockReads(r, g, hasServiceWorker, allowed, WorkerSites(g)[0], g.worker);
    }
    ListedLockReads(r, g, hasServiceWorker, allowed, LateSites(g)[0], g.element);
    ListedLockReads(r, g, hasServiceWorker, allowed, LateSites(g)[1], Undefined);
  }

  lemma PeerConnectionsFollowDecision(r: Realm, g: Gates, hasServiceWorker: bool, allowed: Decision)
    requires var p := RunLocks(r, [], Sequence(g, hasServiceWorker, allowed)); p.Finished? && p.failures == []
    ensures PeerConnectionsDecided(r, RunLocks(r, [], Sequence(g, hasServiceWorker, allowed)).realm, allowed)
  {
    hide RunLocks, Sequence, ReadsAs;
    if allowed != Boolean(true) {
      ListedLockReads(r, g, hasServiceWorker, allowed, PeerConnectionSites(allowed)[0], Undefined);
      ListedLockReads(r, g, hasServiceWorker, allowed, PeerConnectionSites(allowed)[1], Undefined);
      ListedLockReads(r, g, hasServiceWorker, allowed, PeerConnectionSites(allowed)[2], Undefined);
    } else {
      forall name | name in {RTCPeerConnection, WebkitRTCPeerConnection, MozRTCPeerConnection}
        ensures Untouched(Sequence(g, hasServiceWorker, allowed), Window, name)
      {
        GrantTouchesNoPeer(g, hasServiceWorker, name);
      }
      RunLeavesOthers(r, [], Sequence(g, hasServiceWorker, allowed), Window, RTCPeerConnection);
      RunLeavesOthers(r, [], Sequence(g, hasServiceWorker, allowed), Window, WebkitRTCPeerConnection);
      RunLeavesOthers(r, [], Sequence(g, hasServiceWorker, allowed), Window, MozRTCPeerConnection);
    }
  }

  lemma GrantTouchesNoPeer(g: Gates, hasServiceWorker: bool, name: Key)
    requires name in {RTCPeerConnection, WebkitRTCPeerConnection, MozRTCPeerConnection}
    ensures Untouched(Sequence(g, hasServiceWorker, Boolean(true)), Window, name)
  {
  }

  /**
    A sequence that runs to its end and reports nothing leaves the realm contained, whatever it was before,
    and peer connections as the host decided.
   */
  lemma CleanRunContains(r: Realm, g: Gates, hasServiceWorker: bool, allowed: Decision)
    requires var p := RunLocks(r, [], Sequence(g, hasServiceWorker, allowed)); p.Finished? && p.failures == []
    ensures var now := RunLocks(r, [], Sequence(g, hasServiceWorker, allowed)).realm;
            Contained(r, now, g, hasServiceWorker) && PeerConnectionsDecided(r, now, allowed)
  {
    hide RunLocks, Sequence, ReadsAs, PeerConnectionsDecided;
    NetworkIsClosed(r, g, hasServiceWorker, allowed);
    StorageAndDomAreClosed(r, g, hasServiceWorker, allowed);
    PeerConnectionsFollowDecision(r, g, hasServiceWorker, allowed);
  }
}
