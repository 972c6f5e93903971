/** A lock on one property: what the three helpers attempt, when the attempt holds, and what it reports. */
module Lockdown {
  import opened Optionals
  import opened JsObject

  /**
    A lock on one property. `getter` and `setter` stand for the closures the helper makes for it; they
    can be any function objects, the setter being one that ignores what it is given.
   */
  datatype Lock =
    | Absent(key: Key, getter: nat, setter: nat)               // freezeAndDelete
    | Pinned(key: Key, value: Value, getter: nat, setter: nat) // freezeValue
    | Custom(key: Key, desc: Descriptor, verify: Value -> bool) // freezeCustom; a throwing verify counts as false

  function PinDescriptor(getter: nat, setter: nat, v: Value): (d: Descriptor) {
    NOTHING.(getter := Some(Fun(getter, Returns(v))), setter := Some(Fun(setter, Returns(Undefined))),
             configurable := Some(false))
  }

  /** `{ configurable: false, ...descriptor }`: the caller's own `configurable` wins. */
  function Merged(desc: Descriptor): (d: Descriptor) {
    desc.(configurable := Some(desc.configurable.GetOr(false)))
  }

  function DescriptorOf(l: Lock): (d: Descriptor) {
    match l
    case Absent(_, g, s) => PinDescriptor(g, s, Undefined)
    case Pinned(_, v, g, s) => PinDescriptor(g, s, v)
    case Custom(_, desc, _) => Merged(desc)
  }

  /** The read-back that decides whether the lock took. */
  predicate Verifies(l: Lock, v: Value) {
    match l
    case Absent(_, _, _) => v == Undefined
    case Pinned(_, w, _, _) => StrictEquals(v, w)
    case Custom(_, _, verify) => verify(v)
  }

  /** The object after the attempt, and whether a failure was recorded; `Escapes` is a throwing read-back. */
  datatype Attempted = Checked(target: Object, failed: bool) | Escapes(target: Object)

  function Defined(o: Object, l: Lock): (r: Object) {
    match Define(o, l.key, DescriptorOf(l))
    case Some(r) => r
    case None => if l.Absent? then Delete(o, l.key).GetOr(o) else o
  }

  function Attempt(o: Object, l: Lock): (r: Attempted) {
    var after := Defined(o, l);
    match Get(after, l.key)
    case Returns(v) => Checked(after, !Verifies(l, v))
    case Throws => if l.Custom? then Checked(after, true) else Escapes(after)
  }

  /** What a caller can check beforehand: the property can still be (re)defined freely. */
  predicate Lockable(o: Object, key: Key) {
    if key in o.props then o.props[key].configurable else o.extensible
  }

  /** The descriptor of the lock leaves neither `configurable` nor a writable value behind. */
  predicate Pins(l: Lock) {
    && !(l.Custom? && l.desc.configurable == Some(true))
    && DescriptorOf(l).IsAccessor() != DescriptorOf(l).IsData()
    && (DescriptorOf(l).IsData() ==> DescriptorOf(l).writable == Some(false))
  }

  /** What the property reads as once the lock has taken. */
  function PinnedRead(o: Object, l: Lock): (r: Outcome) {
    ReadProperty(Applied(Own(o, l.key), DescriptorOf(l)))
  }

  /**
    On an absent or configurable property the lock takes: the property is locked, and after every later
    run of operations it still reads as pinned. For `freezeAndDelete` and `freezeValue` that is the
    fixed value, and no failure is recorded (but for NaN, which no `!==` read-back accepts).
   */
  lemma LockTakes(o: Object, l: Lock)
    requires Lockable(o, l.key) && Pins(l)
    ensures var after := Attempt(o, l).target;
            LockedAt(after, l.key) && ReadsTheSameForever(after, l.key) && Get(after, l.key) == PinnedRead(o, l)
    ensures l.Absent? ==> Attempt(o, l).Checked? && !Attempt(o, l).failed && PinnedRead(o, l) == Returns(Undefined)
    ensures l.Pinned? ==>
              && Attempt(o, l).Checked?
              && PinnedRead(o, l) == Returns(l.value)
              && (Attempt(o, l).failed <==> l.value == NaN)
    ensures l.Custom? ==>
              && Attempt(o, l).Checked?
              && (Attempt(o, l).failed <==> PinnedRead(o, l).Throws? || !l.verify(PinnedRead(o, l).value))
  {
    LockedIffReadsTheSame(Attempt(o, l).target, l.key);
  }

  /** Whatever the object, the `delete` fallback of `freezeAndDelete` never removes anything. */
  lemma DeleteFallbackIsIdle(o: Object, l: Lock)
    requires l.Absent? && Define(o, l.key, DescriptorOf(l)).None?
    ensures Delete(o, l.key).GetOr(o) == o
  {
  }

  /**
    Recording no failure is not yet a lock. The property keeps its reading for good exactly when the
    definition was admissible or the property was locked already. For `freezeAndDelete` and
    `freezeValue` that means: it was absent on an extensible object, or configurable, or locked.
   */
  lemma PersistsIff(o: Object, l: Lock)
    requires Pins(l)
    ensures var persists := ReadsTheSameForever(Attempt(o, l).target, l.key);
            && (persists <==> Validates(o, l.key, DescriptorOf(l)) || LockedAt(o, l.key))
            && (!l.Custom? ==> (persists <==> Lockable(o, l.key) || LockedAt(o, l.key)))
  {
    LockedIffReadsTheSame(Attempt(o, l).target, l.key);
    if l.Absent? && Define(o, l.key, DescriptorOf(l)).None? {
      DeleteFallbackIsIdle(o, l);
    }
    if LockedAt(o, l.key) {
      StepKeepsLocked(o, l.key, DoDefine(l.key, DescriptorOf(l)));
    }
  }

  /** The gap: a non-configurable but writable property that happens to read right is reported as locked. */
  lemma SilentGap(l: Lock, o: Object)
    requires l.Absent? && o == Object(map[l.key := Data(Undefined, true, true, false)], true, map[])
    ensures Attempt(o, l) == Checked(o, false)
    ensures Get(Step(o, DoAssign(l.key, Other(0))), l.key) == Returns(Other(0))
  {
  }

  /** When exactly a lock is recorded as failed, in terms of the object as it was found. */
  lemma FailsIff(o: Object, l: Lock)
    requires !l.Custom?
    ensures Attempt(o, l).Checked? && Attempt(o, l).failed <==>
              if Define(o, l.key, DescriptorOf(l)).Some? then l.Pinned? && l.value == NaN
              else
                && Get(o, l.key).Returns?
                && var v, w := Get(o, l.key).value, if l.Absent? then Undefined else l.value;
                   && (v != w || w == NaN)
                   && !(v == PlusZero && w == MinusZero) && !(v == MinusZero && w == PlusZero)
  {
    if Define(o, l.key, DescriptorOf(l)).None? && l.Absent? {
      DeleteFallbackIsIdle(o, l);
    }
  }

  /** A read-back escapes only where nothing could be defined, from a getter that was there before. */
  lemma EscapesIff(o: Object, l: Lock)
    ensures Attempt(o, l).Escapes? <==>
              !l.Custom? && Define(o, l.key, DescriptorOf(l)).None? && Get(o, l.key).Throws?
    ensures Attempt(o, l).Escapes? ==> Attempt(o, l).target == o
  {
    if Define(o, l.key, DescriptorOf(l)).None? && l.Absent? {
      DeleteFallbackIsIdle(o, l);
    }
  }

  /** A `freezeCustom` whose descriptor says `configurable: true` keeps the property so, and locks nothing. */
  lemma CallersConfigurableWins(o: Object, l: Lock)
    requires l.Custom? && l.desc.configurable == Some(true) && Lockable(o, l.key)
    requires l.desc.IsAccessor() != l.desc.IsData()
    ensures var after := Attempt(o, l).target;
            && l.key in after.props && after.props[l.key].configurable
            && !ReadsTheSameForever(after, l.key)
  {
    LockedIffReadsTheSame(Attempt(o, l).target, l.key);
  }
}
