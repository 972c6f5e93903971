/** The container script: the locks one after the other on four objects, then the report. */
module ContainerScript {
  import opened Optionals
  import opened JsObject
  import opened Lockdown
  import opened LockSequence
  import opened LockHelpers

  /** An uncaught exception of a read ends the script early; otherwise the report decides. */
  datatype Ending = Escaped | Reported(thrown: Maybe<seq<Entry>>)

  class Script {
    const window: Cell
    const socketPrototype: Cell
    const navigator: Cell
    const document: Cell
    const recorder: Recorder
    /** The failures as `LockSequence` records them. */
    ghost var recorded: seq<Failure>

    constructor (window: Cell, socketPrototype: Cell, navigator: Cell, document: Cell)
      requires window != socketPrototype && window != navigator && window != document
      requires socketPrototype != navigator && socketPrototype != document && navigator != document
      ensures Valid() && recorded == [] && recorder.nextFunction == 0 && fresh(recorder)
      ensures this.window == window && this.socketPrototype == socketPrototype
      ensures this.navigator == navigator && this.document == document
    {
      this.window, this.socketPrototype, this.navigator, this.document := window, socketPrototype, navigator, document;
      recorder := new Recorder();
      recorded := [];
    }

    function CellAt(t: Target): (c: Cell) {
      match t
      case Window => window
      case SocketPrototype => socketPrototype
      case Navigator => navigator
      case Document => document
    }

    ghost predicate Valid()
      reads this, recorder
    {
      && window != socketPrototype && window != navigator && window != document
      && socketPrototype != navigator && socketPrototype != document && navigator != document
      && recorder.failures == Entries(recorded)
    }

    ghost function Objects(): (r: Realm)
      reads window, socketPrototype, navigator, document
    {
      Realm(window.state, socketPrototype.state, navigator.state, document.state)
    }

    ghost function Entries(failures: seq<Failure>): (es: seq<Entry>) {
      seq(|failures|, i requires 0 <= i < |failures| => Entry(CellAt(failures[i].0).name, failures[i].1))
    }

    ghost function Now(): (s: Snapshot)
      reads this, recorder, window, socketPrototype, navigator, document
    {
      Snapshot(Objects(), recorded, recorder.nextFunction)
    }

    /** The one cell that a lock writes to is that of its target. */
    lemma OneCell(before: Realm, t: Target, o: Object)
      requires Objects().At(t) == o && forall u :: u != t ==> Objects().At(u) == before.At(u)
      ensures Objects() == before.With(t, o)
    {
      var now, expected := Objects(), before.With(t, o);
      assert now.At(Window) == expected.At(Window) && now.At(SocketPrototype) == expected.At(SocketPrototype);
      assert now.At(Navigator) == expected.At(Navigator) && now.At(Document) == expected.At(Document);
    }

    method Remove(t: Target, key: Key, ghost sites: seq<Site>, ghost i: nat) returns (escaped: bool)
      requires Valid() && i < |sites|
      requires sites[i] == Site(t, Absent(key, recorder.nextFunction, recorder.nextFunction + 1))
      modifies this, recorder, CellAt(t)
      ensures Valid() && Did(old(Now()), Now(), sites, i, escaped)
    {
      ghost var before := Now();
      escaped := recorder.FreezeAndDelete(CellAt(t), key);
      recorded := recorded + Recorded(before.realm, sites[i]);
      OneCell(before.realm, t, CellAt(t).state);
      Performing(before, Now(), sites, i, escaped);
    }

    method Pin(t: Target, key: Key, value: Value, ghost sites: seq<Site>, ghost i: nat) returns (escaped: bool)
      requires Valid() && i < |sites|
      requires sites[i] == Site(t, Pinned(key, value, recorder.nextFunction, recorder.nextFunction + 1))
      modifies this, recorder, CellAt(t)
      ensures Valid() && Did(old(Now()), Now(), sites, i, escaped)
    {
      ghost var before := Now();
      escaped := recorder.FreezeValue(CellAt(t), key, value);
      recorded := recorded + Recorded(before.realm, sites[i]);
      OneCell(before.realm, t, CellAt(t).state);
      Performing(before, Now(), sites, i, escaped);
    }

    method Install(t: Target, key: Key, desc: Descriptor, verify: Value -> bool, ghost sites: seq<Site>, ghost i: nat)
      requires Valid() && i < |sites| && sites[i] == Site(t, Custom(key, desc, verify))
      modifies this, recorder, CellAt(t)
      ensures Valid() && Did(old(Now()), Now(), sites, i, false)
    {
      ghost var before := Now();
      recorder.FreezeCustom(CellAt(t), key, desc, verify);
      recorded := recorded + Recorded(before.realm, sites[i]);
      OneCell(before.realm, t, CellAt(t).state);
      Performing(before, Now(), sites, i, false);
    }

    method LockConnections(g: Gates, ghost sites: seq<Site>) returns (escaped: bool)
      requires Valid() && recorder.nextFunction == 0 && EarlySites(g) <= sites
      modifies this, recorder, window, socketPrototype
      ensures Valid() && DidAll(old(Now()), Now(), sites, 0, 3, escaped) && (!escaped ==> recorder.nextFunction == 4)
    {
      hide RunLocks, Get;
      escaped := Pin(Window, WebSocket, g.socket, sites, 0);
      if escaped {
        return;
      }
      Install(SocketPrototype, Constructor, PinTo(g.socket), IsValue(g.socket), sites, 1);
      escaped := Pin(Window, Fetch, g.fetch, sites, 2);
    }

    method LockRequests(g: Gates, ghost sites: seq<Site>) returns (escaped: bool)
      requires Valid() && recorder.nextFunction == 4 && EarlySites(g) <= sites
      modifies this, recorder, window, navigator
      ensures Valid() && DidAll(old(Now()), Now(), sites, 3, 6, escaped) && (!escaped ==> recorder.nextFunction == 10)
    {
      hide RunLocks, Get;
      escaped := Remove(Window, XMLHttpRequest, sites, 3);
      if escaped {
        return;
      }
      escaped := Remove(Window, EventSource, sites, 4);
      if escaped {
        return;
      }
      escaped := Pin(Navigator, SendBeacon, g.beacon, sites, 5);
    }

    method LockStorage(g: Gates, ghost sites: seq<Site>) returns (escaped: bool)
      requires Valid() && recorder.nextFunction == 10 && EarlySites(g) <= sites
      modifies this, recorder, window, document
      ensures Valid() && DidAll(old(Now()), Now(), sites, 6, 10, escaped) && (!escaped ==> recorder.nextFunction == 16)
    {
      hide RunLocks, Get;
      escaped := Remove(Window, IndexedDB, sites, 6);
      if escaped {
        return;
      }
      escaped := Remove(Window, Caches, sites, 7);
      if escaped {
        return;
      }
      Install(Document, Cookie, CookieDescriptor(g), IsValue(g.emptyText), sites, 8);
      escaped := Remove(Window, SharedWorker, sites, 9);
    }

    method LockWorkersAndDom(g: Gates, hasServiceWorker: bool, ghost sites: seq<Site>) returns (escaped: bool)
      requires Valid() && recorder.nextFunction == 16
      requires |sites| >= PolicyAt(hasServiceWorker)
      requires hasServiceWorker ==> sites[10] == WorkerSites(g)[0]
      requires sites[PolicyAt(hasServiceWorker) - 1] == LateSites(g)[0]
      modifies this, recorder, navigator, document
      ensures Valid() && DidAll(old(Now()), Now(), sites, 10, PolicyAt(hasServiceWorker), escaped)
      ensures !escaped ==> recorder.nextFunction == 18
    {
      hide RunLocks, Get;
      ghost var i := 10;
      if hasServiceWorker {
        Install(Navigator, ServiceWorker, PinTo(g.worker), IsValue(g.worker), sites, 10);
        i := 11;
      }
      escaped := Pin(Document, CreateElement, g.element, sites, i);
    }

    /** The decision that the window as it stands would give. */
    ghost function DecisionHere(webRtcAllowed: Value -> Decision): (d: Decision)
      reads window
    {
      var policy := Get(window.state, TruapiPolicy);
      if policy.Returns? then webRtcAllowed(policy.value) else Unresolved
    }

    /** `installWebRtcPolicy(window, consumeWebRtcPolicy(window))`. */
    method LockPeerConnections(webRtcAllowed: Value -> Decision, ghost sites: seq<Site>, ghost i: nat)
      returns (escaped: bool)
      requires Valid() && recorder.nextFunction == 18 && i < |sites| && webRtcAllowed(Undefined) == Unresolved
      requires sites[i] == Site(Window, Absent(TruapiPolicy, 18, 19))
      requires sites[i + 1..] == PeerConnectionSites(DecisionHere(webRtcAllowed))
      modifies this, recorder, window
      ensures Valid()
      ensures !escaped ==>
                && Get(old(window.state), TruapiPolicy).Returns?
                && RunLocks(old(Objects()), old(recorded), sites[i..]) == Finished(Objects(), recorded)
      ensures escaped ==>
                || Get(old(window.state), TruapiPolicy).Throws?
                || RunLocks(old(Objects()), old(recorded), sites[i..]) == Aborted(Objects(), recorded)
    {
      ghost var decision, before := DecisionHere(webRtcAllowed), Now();
      ghost var readable := Get(window.state, TruapiPolicy).Returns?;
      hide Get, RunLocks, Denial, Recorded, Attempt;
      var allowed := recorder.ConsumeWebRtcPolicy(window, webRtcAllowed);
      if readable {
        recorded := recorded + Recorded(before.realm, sites[i]);
        OneCell(before.realm, Window, window.state);
        Performing(before, Now(), sites, i, allowed.None?);
      }
      if allowed.None? {
        return true;
      }
      assert allowed.value == decision;
      escaped := InstallPolicy(allowed.value);
    }

    method InstallPolicy(allowed: Decision) returns (escaped: bool)
      requires Valid() && recorder.nextFunction == 20
      modifies this, recorder, window
      ensures Valid()
      ensures RunLocks(old(Objects()), old(recorded), PeerConnectionSites(allowed)) ==
              if escaped then Aborted(Objects(), recorded) else Finished(Objects(), recorded)
    {
      hide Attempt;
      ghost var p := RunLocks(Objects(), recorded, PeerConnectionSites(allowed));
      DenialIsSequence(window.name, Objects(), recorded);
      hide Denial, RunLocks;
      escaped := recorder.InstallWebRtcPolicy(window, allowed);
      if allowed != Boolean(true) {
        recorded := p.failures;
        assert recorder.failures == Entries(recorded);
      }
    }

    /**
      The whole script. `hasServiceWorker` is the truth value of `navigator.serviceWorker`, and
      `webRtcAllowed` reads the decision off the published policy.
     */
    method RunScript(g: Gates, hasServiceWorker: bool, webRtcAllowed: Value -> Decision) returns (ending: Ending)
      requires Valid() && recorded == [] && recorder.nextFunction == 0 && webRtcAllowed(Undefined) == Unresolved
      modifies this, recorder, window, socketPrototype, navigator, document
      ensures Valid()
      ensures var p := RunLocks(old(Objects()), [], Sequence(g, hasServiceWorker, old(DecisionHere(webRtcAllowed))));
              match ending
              case Reported(thrown) =>
                && p == Finished(Objects(), recorded)
                && thrown == (match Report(recorded) case None => None case Some(failures) => Some(Entries(failures)))
              case Escaped =>
                Get(old(window.state), TruapiPolicy).Throws? || p == Aborted(Objects(), recorded)
      ensures ending == Reported(None) ==>
                && Contained(old(Objects()), Objects(), g, hasServiceWorker)
                && PeerConnectionsDecided(old(Objects()), Objects(), old(DecisionHere(webRtcAllowed)))
    {
      hide RunLocks, Get, Contained, PeerConnectionsDecided;
      ghost var sites := Sequence(g, hasServiceWorker, DecisionHere(webRtcAllowed));
      SequenceAt(g, hasServiceWorker, DecisionHere(webRtcAllowed));
      assert sites[0..] == sites;
      var escaped := LockConnections(g, sites);
      if escaped {
        return Escaped;
      }
      escaped := LockRequests(g, sites);
      if escaped {
        return Escaped;
      }
      escaped := LockStorage(g, sites);
      if escaped {
        return Escaped;
      }
      escaped := LockWorkersAndDom(g, hasServiceWorker, sites);
      if escaped {
        return Escaped;
      }
      escaped := LockPeerConnections(webRtcAllowed, sites, PolicyAt(hasServiceWorker));
      if escaped {
        return Escaped;
      }
      var thrown := recorder.ReportLockdownFailures();
      ending := Reported(thrown);
      if thrown.None? {
        assert |recorded| == |recorder.failures| == 0;
        CleanRunContains(old(Objects()), g, hasServiceWorker, old(DecisionHere(webRtcAllowed)));
      }
    }
  }

  /** A moment of the script. */
  datatype Snapshot = Snapshot(realm: Realm, recorded: seq<Failure>, next: nat)

  function Recorded(r: Realm, s: Site): (fs: seq<Failure>) {
    var a := Attempt(r.At(s.target), s.lock);
    if a.Checked? && a.failed then [(s.target, s.lock.key)] else []
  }

  /** Locks `i` up to `j` have been tried, unless a read-back escaped before. */
  predicate DidAll(before: Snapshot, after: Snapshot, sites: seq<Site>, i: nat, j: nat, escaped: bool)
    requires i <= j <= |sites|
  {
    var all := RunLocks(before.realm, before.recorded, sites[i..]);
    && (escaped ==> all == Aborted(after.realm, after.recorded))
    && (!escaped ==> all == RunLocks(after.realm, after.recorded, sites[j..]) && SamePolicy(before, after))
  }

  /** Lock `i` has been tried, and nothing else has happened. */
  predicate Did(before: Snapshot, after: Snapshot, sites: seq<Site>, i: nat, escaped: bool)
    requires i < |sites|
  {
    var all := RunLocks(before.realm, before.recorded, sites[i..]);
    && (escaped ==> all == Aborted(after.realm, after.recorded))
    && (!escaped ==> all == RunLocks(after.realm, after.recorded, sites[i + 1..]))
    && after.next == before.next + (if sites[i].lock.Custom? then 0 else 2)
    && (sites[i].lock.key != TruapiPolicy ==> SamePolicy(before, after))
  }

  predicate SamePolicy(before: Snapshot, after: Snapshot) {
    Get(before.realm.window, TruapiPolicy) == Get(after.realm.window, TruapiPolicy)
  }

  lemma Performing(before: Snapshot, after: Snapshot, sites: seq<Site>, i: nat, escaped: bool)
    requires i < |sites|
    requires var s := sites[i];
             var a := Attempt(before.realm.At(s.target), s.lock);
             && after == Snapshot(before.realm.With(s.target, a.target), before.recorded + Recorded(before.realm, s),
                                  before.next + if s.lock.Custom? then 0 else 2)
             && escaped == a.Escapes?
    ensures Did(before, after, sites, i, escaped)
  {
    var s := sites[i];
    var o := before.realm.At(s.target);
    assert sites[i..][1..] == sites[i + 1..];
    if s.lock.key != TruapiPolicy {
      assert after.realm.At(Window) == after.realm.window && before.realm.At(Window) == before.realm.window;
      if s.target == Window {
        AttemptLeavesOthers(o, s.lock, TruapiPolicy);
        SameAtReads(o, Attempt(o, s.lock).target, TruapiPolicy);
      }
    }
  }

  /** Where in the sequence the policy is removed. */
  function PolicyAt(hasServiceWorker: bool): (i: nat) { if hasServiceWorker then 12 else 11 }

  lemma SequenceAt(g: Gates, hasServiceWorker: bool, allowed: Decision)
    ensures var sites, i := Sequence(g, hasServiceWorker, allowed), PolicyAt(hasServiceWorker);
            && i < |sites|
            && EarlySites(g) <= sites
            && (hasServiceWorker ==> sites[10] == WorkerSites(g)[0])
            && sites[i - 1] == LateSites(g)[0]
            && sites[i] == LateSites(g)[1]
            && sites[i + 1..] == PeerConnectionSites(allowed)
  {
    assert |EarlySites(g)| == 10 && |WorkerSites(g)| == 1 && |LateSites(g)| == 2;
    hide EarlySites, WorkerSites, LateSites, PeerConnectionSites;
  }

  /** A denial does what the last three locks of the sequence do. */
  lemma DenialIsSequence(name: string, r: Realm, failures: seq<Failure>)
    ensures var d := Denial(name, r.window, 20);
            var p := RunLocks(r, failures, PeerConnectionSites(Unresolved));
            && p.realm == r.(window := d.target)
            && p.Aborted? == d.escaped
            && |p.failures| == |failures| + |d.recorded| && failures <= p.failures
            && forall k :: 0 <= k < |d.recorded| ==>
                             && p.failures[|failures| + k].0 == Window
                             && d.recorded[k] == Entry(name, p.failures[|failures| + k].1)
  {
    hide Attempt, RunLocks;
    var l1 := Absent(RTCPeerConnection, 20, 21);
    var l2 := Absent(WebkitRTCPeerConnection, 22, 23);
    var l3 := Absent(MozRTCPeerConnection, 24, 25);
    var s2, s3 := Site(Window, l2), Site(Window, l3);
    var a := Attempt(r.window, l1);
    RunLocksCons(r, failures, Site(Window, l1), [s2, s3]);
    assert PeerConnectionSites(Unresolved) == [Site(Window, l1)] + [s2, s3];
    if a.Checked? {
      var f1 := failures + if a.failed then [(Window, l1.key)] else [];
      var r1 := r.(window := a.target);
      var b := Attempt(r1.window, l2);
      RunLocksCons(r1, f1, s2, [s3]);
      assert [s2, s3] == [s2] + [s3];
      if b.Checked? {
        var f2 := f1 + if b.failed then [(Window, l2.key)] else [];
        RunLocksCons(r1.(window := b.target), f2, s3, []);
        assert [s3] == [s3] + [];
        RunLocksNothing(r1.(window := Attempt(b.target, l3).target),
                        f2 + Recorded(r1.(window := b.target), s3));
      }
    }
  }

  lemma RunLocksNothing(r: Realm, failures: seq<Failure>)
    ensures RunLocks(r, failures, []) == Finished(r, failures)
  {
  }

  lemma RunLocksCons(r: Realm, failures: seq<Failure>, s: Site, rest: seq<Site>)
    ensures RunLocks(r, failures, [s] + rest) ==
            var a := Attempt(r.At(s.target), s.lock);
            var next := r.With(s.target, a.target);
            if a.Escapes? then Aborted(next, failures)
            else RunLocks(next, failures + if a.failed then [(s.target, s.lock.key)] else [], rest)
  {
    assert ([s] + rest)[1..] == rest;
  }
}
