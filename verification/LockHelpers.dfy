/** The locking helpers at work: they redefine properties in place and push to one failure list. */
module LockHelpers {
  import opened Optionals
  import opened JsObject
  import opened Lockdown
  import LockSequence

  /** A mutable object; `name` is what a failure message calls it. */
  class Cell {
    const name: string
    var state: Object

    constructor (name: string, state: Object)
      ensures this.name == name && this.state == state
    {
      this.name := name;
      this.state := state;
    }

    /** `Object.defineProperty`, reporting whether it threw. */
    method DefineProperty(key: Key, desc: Descriptor) returns (threw: bool)
      modifies this
      ensures threw == Define(old(state), key, desc).None?
      ensures state == Define(old(state), key, desc).GetOr(old(state))
    {
      var r := Define(state, key, desc);
      threw := r.None?;
      state := r.GetOr(state);
    }

    /** `delete` in strict code, reporting whether it threw. */
    method DeleteProperty(key: Key) returns (threw: bool)
      modifies this
      ensures threw == Delete(old(state), key).None?
      ensures state == Delete(old(state), key).GetOr(old(state))
    {
      var r := Delete(state, key);
      threw := r.None?;
      state := r.GetOr(state);
    }
  }

  datatype Entry = Entry(describe: string, key: Key)

  /** What a helper works on: the object, the failure list, and how many closures were made so far. */
  datatype Moment = Moment(target: Object, failures: seq<Entry>, next: nat)

  /** What `freezeAndDelete`, `freezeValue` and `freezeCustom` share in their contracts. */
  predicate Performed(before: Moment, after: Moment, name: string, l: Lock, escaped: bool) {
    var a := Attempt(before.target, l);
    && after.target == a.target
    && escaped == a.Escapes?
    && after.failures == before.failures + Failed(name, l.key, a)
    && after.next == before.next + (if l.Custom? then 0 else 2)
  }

  class Recorder {
    var failures: seq<Entry>
    var nextFunction: nat

    constructor ()
      ensures failures == [] && nextFunction == 0
    {
      failures := [];
      nextFunction := 0;
    }

    method RecordFailure(obj: Cell?, key: Key)
      modifies this`failures
      ensures failures == old(failures) + [Entry(if obj == null then "object" else obj.name, key)]
    {
      failures := failures + [Entry(if obj == null then "object" else obj.name, key)];
    }

    ghost function Now(obj: Cell): (m: Moment)
      reads this, obj
    {
      Moment(obj.state, failures, nextFunction)
    }

    method FreezeAndDelete(obj: Cell?, key: Key) returns (escaped: bool)
      modifies this, obj
      ensures obj != null ==>
                var l := Absent(key, old(nextFunction), old(nextFunction) + 1);
                Performed(old(Now(obj)), Now(obj), obj.name, l, escaped)
      ensures obj == null ==> !escaped && failures == old(failures)
    {
      hide Validates, Applied;
      var getter := nextFunction;
      nextFunction := nextFunction + 2;
      if obj == null {
        return false; // both attempts throw and are caught; `obj?.[prop]` is undefined
      }
      var threw := obj.DefineProperty(key, PinDescriptor(getter, getter + 1, Undefined));
      if threw {
        var _ := obj.DeleteProperty(key);
      }
      match Get(obj.state, key) {
        case Throws => return true;
        case Returns(v) =>
          escaped := false;
          if v != Undefined {
            RecordFailure(obj, key);
          }
      }
    }

    method FreezeValue(obj: Cell?, key: Key, value: Value) returns (escaped: bool)
      modifies this, obj
      ensures obj != null ==>
                var l := Pinned(key, value, old(nextFunction), old(nextFunction) + 1);
                Performed(old(Now(obj)), Now(obj), obj.name, l, escaped)
      ensures obj == null ==>
                !escaped && failures == old(failures) + if value == Undefined then [] else [Entry("object", key)]
    {
      var getter := nextFunction;
      nextFunction := nextFunction + 2;
      var current := Returns(Undefined);
      if obj != null {
        var _ := obj.DefineProperty(key, PinDescriptor(getter, getter + 1, value));
        current := Get(obj.state, key);
      }
      match current {
        case Throws => return true;
        case Returns(v) =>
          escaped := false;
          if !StrictEquals(v, value) {
            RecordFailure(obj, key);
          }
      }
    }

    method FreezeCustom(obj: Cell?, key: Key, desc: Descriptor, verify: Value -> bool)
      modifies this, obj
      ensures obj != null ==> Performed(old(Now(obj)), Now(obj), obj.name, Custom(key, desc, verify), false)
      ensures obj == null ==> failures == old(failures) + if verify(Undefined) then [] else [Entry("object", key)]
    {
      var current := Returns(Undefined);
      if obj != null {
        var _ := obj.DefineProperty(key, Merged(desc));
        current := Get(obj.state, key);
      }
      var locked := current.Returns? && verify(current.value);
      if !locked {
        RecordFailure(obj, key);
      }
    }

    /** The report throws exactly when something was recorded, and then names all of it. */
    method ReportLockdownFailures() returns (thrown: Maybe<seq<Entry>>)
      ensures thrown == if failures == [] then None else Some(failures)
    {
      thrown := if |failures| == 0 then None else Some(failures);
    }

    /** Reads the decision off the published policy, then removes the global. */
    method ConsumeWebRtcPolicy(win: Cell, webRtcAllowed: Value -> LockSequence.Decision)
      returns (allowed: Maybe<LockSequence.Decision>)
      requires webRtcAllowed(Undefined) == LockSequence.Unresolved
      modifies this, win
      ensures Get(old(win.state), TruapiPolicy).Throws? ==>
                allowed == None && win.state == old(win.state) && failures == old(failures)
      ensures Get(old(win.state), TruapiPolicy).Returns? ==>
                var l := Absent(TruapiPolicy, old(nextFunction), old(nextFunction) + 1);
                && Performed(old(Now(win)), Now(win), win.name, l, allowed.None?)
                && (allowed.Some? ==> allowed.value == webRtcAllowed(Get(old(win.state), TruapiPolicy).value))
    {
      match Get(win.state, TruapiPolicy) {
        case Throws => return None;
        case Returns(policy) =>
          var escaped := FreezeAndDelete(win, TruapiPolicy);
          allowed := if escaped then None else Some(webRtcAllowed(policy));
      }
    }

    /** Unless the decision is `true` itself, all three constructor names are removed. */
    method InstallWebRtcPolicy(win: Cell, allowed: LockSequence.Decision) returns (escaped: bool)
      modifies this, win
      ensures allowed == LockSequence.Boolean(true) ==>
                !escaped && win.state == old(win.state) && failures == old(failures)
      ensures allowed != LockSequence.Boolean(true) ==>
                var r := Denial(win.name, old(win.state), old(nextFunction));
                win.state == r.target && escaped == r.escaped && failures == old(failures) + r.recorded
    {
      if allowed == LockSequence.Boolean(true) {
        return false;
      }
      hide Performed, Denial;
      ghost var before := Now(win);
      escaped := FreezeAndDelete(win, RTCPeerConnection);
      ghost var first := Now(win);
      FirstRemoval(win.name, before, first, escaped);
      if escaped {
        return;
      }
      escaped := FreezeAndDelete(win, WebkitRTCPeerConnection);
      ghost var second := Now(win);
      SecondRemoval(win.name, before, first, second, escaped);
      if escaped {
        return;
      }
      escaped := FreezeAndDelete(win, MozRTCPeerConnection);
      ThirdRemoval(win.name, before, first, second, Now(win), escaped);
    }
  }

  function Failed(name: string, key: Key, a: Attempted): (es: seq<Entry>) {
    if a.Checked? && a.failed then [Entry(name, key)] else []
  }

  datatype Removal = Removal(target: Object, recorded: seq<Entry>, escaped: bool)

  /** The three removals of a denial, one after the other until a read-back throws. */
  function Denial(name: string, o: Object, n: nat): (r: Removal) {
    var a := Attempt(o, Absent(RTCPeerConnection, n, n + 1));
    var fa := Failed(name, RTCPeerConnection, a);
    if a.Escapes? then Removal(a.target, fa, true)
    else
      var b := Attempt(a.target, Absent(WebkitRTCPeerConnection, n + 2, n + 3));
      var fb := fa + Failed(name, WebkitRTCPeerConnection, b);
      if b.Escapes? then Removal(b.target, fb, true)
      else
        var c := Attempt(b.target, Absent(MozRTCPeerConnection, n + 4, n + 5));
        Removal(c.target, fb + Failed(name, MozRTCPeerConnection, c), c.Escapes?)
  }

  lemma FirstRemoval(name: string, before: Moment, first: Moment, escaped: bool)
    requires Performed(before, first, name, Absent(RTCPeerConnection, before.next, before.next + 1), escaped)
    ensures first.next == before.next + 2
    ensures var r := Denial(name, before.target, before.next);
            escaped ==> r.escaped && first.target == r.target && first.failures == before.failures + r.recorded
  {
    hide Attempt, Failed;
  }

  lemma SecondRemoval(name: string, before: Moment, first: Moment, second: Moment, escaped: bool)
    requires Performed(before, first, name, Absent(RTCPeerConnection, before.next, before.next + 1), false)
    requires Performed(first, second, name, Absent(WebkitRTCPeerConnection, first.next, first.next + 1), escaped)
    ensures second.next == before.next + 4
    ensures var r := Denial(name, before.target, before.next);
            escaped ==> r.escaped && second.target == r.target && second.failures == before.failures + r.recorded
  {
    hide Attempt, Failed;
  }

  lemma ThirdRemoval(name: string, before: Moment, first: Moment, second: Moment, third: Moment, escaped: bool)
    requires Performed(before, first, name, Absent(RTCPeerConnection, before.next, before.next + 1), false)
    requires Performed(first, second, name, Absent(WebkitRTCPeerConnection, first.next, first.next + 1), false)
    requires Performed(second, third, name, Absent(MozRTCPeerConnection, second.next, second.next + 1), escaped)
    ensures var r := Denial(name, before.target, before.next);
            escaped == r.escaped && third.target == r.target && third.failures == before.failures + r.recorded
  {
    hide Attempt, Failed;
  }

  /** A denial that neither threw nor recorded anything leaves all three names undefined. */
  lemma DenialLeavesNone(name: string, o: Object, n: nat, key: Key)
    requires key in {RTCPeerConnection, WebkitRTCPeerConnection, MozRTCPeerConnection}
    requires !Denial(name, o, n).escaped && Denial(name, o, n).recorded == []
    ensures Get(Denial(name, o, n).target, key) == Returns(Undefined)
  {
    hide Attempt, Get, LockSequence.SameAt;
    var l1 := Absent(RTCPeerConnection, n, n + 1);
    var l2 := Absent(WebkitRTCPeerConnection, n + 2, n + 3);
    var l3 := Absent(MozRTCPeerConnection, n + 4, n + 5);
    var p := Attempt(o, l1).target;
    var q := Attempt(p, l2).target;
    var r := Attempt(q, l3).target;
    LockSequence.AbsentReadsUndefined(o, l1);
    LockSequence.AbsentReadsUndefined(p, l2);
    LockSequence.AbsentReadsUndefined(q, l3);
    LockSequence.AttemptLeavesOthers(p, l2, RTCPeerConnection);
    LockSequence.SameAtReads(p, q, RTCPeerConnection);
    LockSequence.AttemptLeavesOthers(q, l3, RTCPeerConnection);
    LockSequence.SameAtReads(q, r, RTCPeerConnection);
    LockSequence.AttemptLeavesOthers(q, l3, WebkitRTCPeerConnection);
    LockSequence.SameAtReads(q, r, WebkitRTCPeerConnection);
  }
}
