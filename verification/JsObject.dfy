/**
  JavaScript ordinary objects: the internal methods that decide whether a property can still change.
  Section numbers are those of ECMA-262.
 */
module JsObject {
  import opened Optionals

  /** Property names: those the lock sequence names, and all others. */
  datatype Key =
    | WebSocket | Constructor | Fetch | XMLHttpRequest | EventSource | SendBeacon | IndexedDB | Caches | Cookie
    | SharedWorker | ServiceWorker | CreateElement | TruapiPolicy
    | RTCPeerConnection | WebkitRTCPeerConnection | MozRTCPeerConnection
    | OtherKey(name: string)

  /** Values as far as `===` and SameValue tell them apart. */
  datatype Value = Undefined | NaN | PlusZero | MinusZero | Other(id: nat)

  predicate StrictEquals(x: Value, y: Value) {
    (x == y && x != NaN) || (x in {PlusZero, MinusZero} && y in {PlusZero, MinusZero})
  }

  datatype Outcome = Returns(value: Value) | Throws

  /** A function object: which one it is, and what calling it as a getter does. */
  datatype Fun = NoFun | Fun(id: nat, result: Outcome)

  datatype Property =
    | Data(value: Value, writable: bool, enumerable: bool, configurable: bool)
    | Accessor(getter: Fun, setter: Fun, enumerable: bool, configurable: bool)

  datatype Descriptor = Descriptor(
    value: Maybe<Value>, writable: Maybe<bool>, getter: Maybe<Fun>, setter: Maybe<Fun>,
    enumerable: Maybe<bool>, configurable: Maybe<bool>)
  {
    predicate IsAccessor() { getter.Some? || setter.Some? }

    predicate IsData() { value.Some? || writable.Some? }
  }

  /** `inherited` is what a lookup finds along the prototype chain. */
  datatype Object = Object(props: map<Key, Property>, extensible: bool, inherited: map<Key, Property>)

  /** Section 10.1.6.3, steps 2 to 4: may `desc` be applied at `key`? */
  predicate Validates(o: Object, key: Key, desc: Descriptor) {
    if key !in o.props then o.extensible
    else
      var p := o.props[key];
      p.configurable
      || (&& desc.configurable != Some(true)
          && (desc.enumerable.Some? ==> desc.enumerable.value == p.enumerable)
          && (desc.IsAccessor() ==> p.Accessor?)
          && (desc.IsData() ==> p.Data?)
          && (p.Accessor? && desc.getter.Some? ==> desc.getter.value == p.getter)
          && (p.Accessor? && desc.setter.Some? ==> desc.setter.value == p.setter)
          && (p.Data? && !p.writable ==>
                desc.writable != Some(true) && (desc.value.Some? ==> desc.value.value == p.value)))
  }

  /** Section 10.1.6.3, steps 2.c to 2.d and 5: the property after a validated definition. */
  function Applied(current: Maybe<Property>, desc: Descriptor): (p: Property) {
    var enumerable := desc.enumerable.GetOr(current.Some? && current.value.enumerable);
    var configurable := desc.configurable.GetOr(current.Some? && current.value.configurable);
    if desc.IsAccessor() || (!desc.IsData() && current.Some? && current.value.Accessor?) then
      var kept := current.Some? && current.value.Accessor?;
      Accessor(
        desc.getter.GetOr(if kept then current.value.getter else NoFun),
        desc.setter.GetOr(if kept then current.value.setter else NoFun),
        enumerable, configurable)
    else
      var kept := current.Some? && current.value.Data?;
      Data(
        desc.value.GetOr(if kept then current.value.value else Undefined),
        desc.writable.GetOr(kept && current.value.writable),
        enumerable, configurable)
  }

  function Own(o: Object, key: Key): (p: Maybe<Property>) {
    if key in o.props then Some(o.props[key]) else None
  }

  /** `Object.defineProperty`; `None` is a TypeError, also for a descriptor that mixes both kinds. */
  function Define(o: Object, key: Key, desc: Descriptor): (r: Maybe<Object>) {
    if desc.IsAccessor() && desc.IsData() then None
    else if Validates(o, key, desc) then Some(o.(props := o.props[key := Applied(Own(o, key), desc)]))
    else None
  }

  /** Section 10.1.10.1; `None` when the property stays, which strict code turns into a TypeError. */
  function Delete(o: Object, key: Key): (r: Maybe<Object>) {
    if key !in o.props then Some(o)
    else if o.props[key].configurable then Some(o.(props := o.props - {key}))
    else None
  }

  function Call(get: Fun): (r: Outcome) {
    if get.NoFun? then Returns(Undefined) else get.result
  }

  function ReadProperty(p: Property): (r: Outcome) {
    if p.Data? then Returns(p.value) else Call(p.getter)
  }

  /** Section 10.1.8.1. */
  function Get(o: Object, key: Key): (r: Outcome) {
    if key in o.props then ReadProperty(o.props[key])
    else if key in o.inherited then ReadProperty(o.inherited[key])
    else Returns(Undefined)
  }

  const DEFAULT_DATA := Data(Undefined, true, true, true)

  const ALL_TRUE := Descriptor(None, Some(true), None, None, Some(true), Some(true))
  const NOTHING := Descriptor(None, None, None, None, None, None)

  /**
    Section 10.1.9.2 with `o` as the receiver, once the lookup has found `found`, here or anywhere
    else. Calling a setter changes nothing by itself.
   */
  function SetFound(o: Object, found: Property, key: Key, v: Value): (r: Object) {
    if found.Accessor? || !found.writable then o
    else if key in o.props then
      if o.props[key].Accessor? || !o.props[key].writable then o
      else Define(o, key, NOTHING.(value := Some(v))).GetOr(o)
    else Define(o, key, ALL_TRUE.(value := Some(v))).GetOr(o)
  }

  function Assign(o: Object, key: Key, v: Value): (r: Object) {
    SetFound(o,
             if key in o.props then o.props[key] else if key in o.inherited then o.inherited[key] else DEFAULT_DATA,
             key, v)
  }

  /** What a script can do to an object, failed attempts included. */
  datatype Operation =
    | DoAssign(key: Key, value: Value)
    | DoReflectSet(found: Property, key: Key, value: Value) // `Reflect.set` on another target, received here
    | DoDefine(key: Key, desc: Descriptor)
    | DoDelete(key: Key)
    | DoPreventExtensions
    | DoChangePrototypes(inherited: map<Key, Property>)

  function Step(o: Object, op: Operation): (r: Object) {
    match op
    case DoAssign(k, v) => Assign(o, k, v)
    case DoReflectSet(found, k, v) => SetFound(o, found, k, v)
    case DoDefine(k, desc) => Define(o, k, desc).GetOr(o)
    case DoDelete(k) => Delete(o, k).GetOr(o)
    case DoPreventExtensions => o.(extensible := false)
    case DoChangePrototypes(inherited) => o.(inherited := inherited)
  }

  function Run(o: Object, ops: seq<Operation>): (r: Object)
    decreases |ops|
  {
    if ops == [] then o else Run(Step(o, ops[0]), ops[1..])
  }

  // ---------------------------------------------------------------------------------------------
  // What the operations achieve
  // ---------------------------------------------------------------------------------------------

  /** Nothing but the own property at `key` differs. */
  ghost predicate OnlyAt(o: Object, r: Object, key: Key) {
    && (forall k :: k != key ==> Own(r, k) == Own(o, k))
    && r.extensible == o.extensible && r.inherited == o.inherited
  }

  /**
    A delete is refused exactly at a non-configurable own property. Otherwise the key is no own property
    any more and reads as inherited, or undefined; all others are as they were.
   */
  lemma DeleteRemoves(o: Object, key: Key)
    ensures Delete(o, key).None? <==> key in o.props && !o.props[key].configurable
    ensures var r := Step(o, DoDelete(key));
            && OnlyAt(o, r, key)
            && (Delete(o, key).None? ==> r == o)
            && (Delete(o, key).Some? ==>
                  && key !in r.props
                  && (key in o.inherited ==> Get(r, key) == ReadProperty(o.inherited[key]))
                  && (key !in o.inherited ==> Get(r, key) == Returns(Undefined)))
  {
  }

  /** Where an assignment goes through: a writable data property, or none, on an object that can take one. */
  predicate Assignable(o: Object, key: Key) {
    if key in o.props then o.props[key].Data? && o.props[key].writable
    else o.extensible && (key in o.inherited ==> o.inherited[key].Data? && o.inherited[key].writable)
  }

  /** An assignment that goes through is read back and can be repeated; any other changes nothing. */
  lemma AssignmentIsRead(o: Object, key: Key, v: Value)
    ensures var r := Step(o, DoAssign(key, v));
            && OnlyAt(o, r, key)
            && (!Assignable(o, key) ==> r == o)
            && (Assignable(o, key) ==>
                  && Get(r, key) == Returns(v) && Assignable(r, key)
                  && r.props[key] == (if key in o.props then o.props[key].(value := v) else Data(v, true, true, true)))
  {
    hide Validates, Applied;
    if Assignable(o, key) {
      AssignmentIsDefined(o, key, v);
    } else if key !in o.props && !o.extensible {
      ClosedRefuses(o, key, ALL_TRUE.(value := Some(v)));
    }
  }

  lemma ClosedRefuses(o: Object, key: Key, desc: Descriptor)
    requires key !in o.props && !o.extensible
    ensures Define(o, key, desc).None?
  {
  }

  /** The definition that an assignment comes down to is not refused. */
  lemma AssignmentIsDefined(o: Object, key: Key, v: Value)
    requires Assignable(o, key)
    ensures var desc := (if key in o.props then NOTHING else ALL_TRUE).(value := Some(v));
            var p := if key in o.props then o.props[key].(value := v) else Data(v, true, true, true);
            Define(o, key, desc) == Some(o.(props := o.props[key := p]))
  {
  }

  /** The same for a set from another target, where the lookup found `found`: that and the receiver decide. */
  lemma ReflectedSetIsRead(o: Object, found: Property, key: Key, v: Value)
    ensures var r := Step(o, DoReflectSet(found, key, v));
            && OnlyAt(o, r, key)
            && (if && found.Data? && found.writable
                   && (if key in o.props then o.props[key].Data? && o.props[key].writable else o.extensible)
                then Get(r, key) == Returns(v) else r == o)
  {
    hide Validates, Applied;
    var bare := o.(inherited := map[]);
    if Assignable(bare, key) {
      AssignmentIsDefined(bare, key, v);
      SameDefinition(o, bare, key, (if key in o.props then NOTHING else ALL_TRUE).(value := Some(v)));
    } else if key !in o.props {
      ClosedRefuses(o, key, ALL_TRUE.(value := Some(v)));
    }
  }

  /** A definition does not look at what is inherited. */
  lemma SameDefinition(o: Object, p: Object, key: Key, desc: Descriptor)
    requires p == o.(inherited := p.inherited)
    ensures Define(o, key, desc).Some? <==> Define(p, key, desc).Some?
    ensures Define(o, key, desc).Some? ==> Define(o, key, desc).value.props == Define(p, key, desc).value.props
  {
  }

  /** The last of two assignments is the one that is read. */
  lemma LastAssignmentIsRead(o: Object, key: Key, v: Value, w: Value)
    requires Assignable(o, key)
    ensures Get(Run(o, [DoAssign(key, v), DoAssign(key, w)]), key) == Returns(w)
  {
    hide Step, Get, Assignable;
    AssignmentIsRead(o, key, v);
    AssignmentIsRead(Step(o, DoAssign(key, v)), key, w);
    var end := Step(Step(o, DoAssign(key, v)), DoAssign(key, w));
    assert [DoAssign(key, v), DoAssign(key, w)][1..] == [DoAssign(key, w)] && [DoAssign(key, w)][1..] == [];
    assert Run(end, []) == end;
  }

  /** What a non-configurable property may turn into: section 6.1.7.3. */
  predicate KeepsInvariants(p: Property, q: Property) {
    && !q.configurable && q.enumerable == p.enumerable
    && (p.Accessor? ==> q.Accessor? && q.getter == p.getter && q.setter == p.setter)
    && (p.Data? ==> q.Data? && (!p.writable ==> !q.writable && q.value == p.value))
  }

  /**
    A definition is refused exactly if it is of both kinds, would add to a closed object, or would break an
    invariant of a non-configurable property.
   */
  lemma DefineRefusedIff(o: Object, key: Key, desc: Descriptor)
    ensures Define(o, key, desc).None? <==>
              || (desc.IsAccessor() && desc.IsData())
              || (key !in o.props && !o.extensible)
              || (&& key in o.props && !o.props[key].configurable
                  && !KeepsInvariants(o.props[key], Applied(Own(o, key), desc)))
  {
  }

  /** A definition that goes through gives the property what the descriptor names, and leaves the rest as it was. */
  lemma DefineSets(o: Object, key: Key, desc: Descriptor)
    requires Define(o, key, desc).Some?
    ensures var r := Define(o, key, desc).value;
            && OnlyAt(o, r, key) && key in r.props
            && var p := r.props[key];
               && (desc.enumerable.Some? ==> p.enumerable == desc.enumerable.value)
               && (desc.configurable.Some? ==> p.configurable == desc.configurable.value)
               && (desc.IsData() ==> p.Data?) && (desc.IsAccessor() ==> p.Accessor?)
               && (desc.value.Some? ==> p.value == desc.value.value && Get(r, key) == Returns(desc.value.value))
               && (desc.writable.Some? ==> p.writable == desc.writable.value)
               && (desc.getter.Some? ==> p.getter == desc.getter.value && Get(r, key) == Call(desc.getter.value))
               && (desc.setter.Some? ==> p.setter == desc.setter.value)
  {
  }

  /** What the descriptor leaves open stays, or is off and undefined on a new property. */
  lemma DefineKeeps(o: Object, key: Key, desc: Descriptor)
    requires Define(o, key, desc).Some?
    ensures var p, q := Own(o, key), Define(o, key, desc).value.props[key];
            && (desc.enumerable.None? ==> q.enumerable == (p.Some? && p.value.enumerable))
            && (desc.configurable.None? ==> q.configurable == (p.Some? && p.value.configurable))
            && (p.Some? && !desc.IsData() && !desc.IsAccessor() ==> q.Data? == p.value.Data?)
            && (q.Data? && desc.value.None? ==>
                  q.value == if p.Some? && p.value.Data? then p.value.value else Undefined)
            && (q.Data? && desc.writable.None? ==> q.writable == (p.Some? && p.value.Data? && p.value.writable))
            && (q.Accessor? && desc.getter.None? ==>
                  q.getter == if p.Some? && p.value.Accessor? then p.value.getter else NoFun)
            && (q.Accessor? && desc.setter.None? ==>
                  q.setter == if p.Some? && p.value.Accessor? then p.value.setter else NoFun)
  {
  }

  lemma {:induction false} ClosedStaysClosed(o: Object, key: Key, ops: seq<Operation>)
    requires !o.extensible && key !in o.props
    ensures !Run(o, ops).extensible && key !in Run(o, ops).props
    decreases |ops|
  {
    if ops == [] {
    } else {
      ClosedStaysClosed(Step(o, ops[0]), key, ops[1..]);
    }
  }

  /** Once extensions are prevented, an object gets no new property, whatever is tried. */
  lemma NoExtensionAfterPreventing(o: Object, key: Key, ops: seq<Operation>)
    requires key !in o.props
    ensures key !in Run(Step(o, DoPreventExtensions), ops).props
  {
    ClosedStaysClosed(Step(o, DoPreventExtensions), key, ops);
  }

  /** No later operation can change the property. */
  predicate Locked(p: Property) { !p.configurable && (p.Accessor? || !p.writable) }

  predicate LockedAt(o: Object, key: Key) { key in o.props && Locked(o.props[key]) }

  lemma StepKeepsLocked(o: Object, key: Key, op: Operation)
    requires LockedAt(o, key)
    ensures key in Step(o, op).props && Step(o, op).props[key] == o.props[key]
  {
  }

  /** A locked property is the very same property after any run. */
  lemma {:induction false} RunKeepsLocked(o: Object, key: Key, ops: seq<Operation>)
    requires LockedAt(o, key)
    ensures key in Run(o, ops).props && Run(o, ops).props[key] == o.props[key]
    decreases |ops|
  {
    if ops == [] {
    } else {
      StepKeepsLocked(o, key, ops[0]);
      RunKeepsLocked(Step(o, ops[0]), key, ops[1..]);
    }
  }

  ghost predicate ReadsTheSameForever(o: Object, key: Key) {
    forall ops :: Get(Run(o, ops), key) == Get(o, key)
  }

  /** Whatever is not locked can be made to read differently by a single operation. */
  lemma UnlockedCanChange(o: Object, key: Key) returns (op: Operation)
    requires !LockedAt(o, key)
    ensures Get(Step(o, op), key) != Get(o, key)
  {
    var v := if Get(o, key) == Returns(NaN) then Undefined else NaN;
    if key !in o.props && !o.extensible {
      op := DoChangePrototypes(map[key := Data(v, true, true, true)]);
    } else if key !in o.props || o.props[key].configurable {
      op := DoDefine(key, NOTHING.(value := Some(v)));
    } else {
      op := DoAssign(key, v);
    }
  }

  /** Being locked is exactly what it takes to read the same after every run. */
  lemma LockedIffReadsTheSame(o: Object, key: Key)
    ensures LockedAt(o, key) <==> ReadsTheSameForever(o, key)
  {
    if LockedAt(o, key) {
      forall ops
        ensures Get(Run(o, ops), key) == Get(o, key)
      {
        RunKeepsLocked(o, key, ops);
      }
    } else {
      var op := UnlockedCanChange(o, key);
      assert Run(o, [op]) == Step(o, op) by {
        assert [op][1..] == [];
        assert Run(Step(o, op), []) == Step(o, op);
      }
    }
  }
}
