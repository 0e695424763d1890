/** The table-driven merge that folds a freshly decoded snapshot of an
    entity into the live one (`UpdateFrom`), with the four kinds that add
    steps of their own: a light's state (the XY pair), a scene (its light
    list), the software-update device types (two id lists) and the bridge
    configuration (its whitelist). */
module Merging {
  import opened Entities
  import Prop
  import opened Common
  import Platform
  import Observable

  /** A merged entity and whether the merge reported a change. */
  datatype Merged = Merged(entity: Entity, changed: bool)

  /** A merged property value and whether it changed. */
  datatype ValueMerge = ValueMerge(value: Value, changed: bool)

  /** What a table getter returns: a platform boolean is read as the
      platform integer, everything else as stored. */
  function Get(platformBool: bool, v: Value): Value
  {
    if platformBool && v.Flag? then Num(Platform.ToPlatformBool(v.b) as int) else v
  }

  /** What a table setter stores for the value handed to it: a platform
      integer given to a platform boolean is decoded, everything else is
      stored as given. */
  function Put(platformBool: bool, v: Value): Value
  {
    if platformBool && v.Num? && -0x8000 <= v.n < 0x8000 then
      Flag(Platform.ToBool(v.n as Platform.Int16))
    else v
  }

  /** Whether a property of a kind is a platform boolean. */
  predicate PlatformBool(k: Kind, name: Prop.Property)
  {
    TypeOf(k, name) == Some(PlatformBoolT)
  }

  /** Writing back what a getter read leaves a well-typed value as it was,
      and two well-typed values read the same exactly when they are equal. */
  lemma GetPut(t: FieldType, a: Value, b: Value)
    requires Fits(a, t) && Fits(b, t)
    ensures Put(t == PlatformBoolT, Get(t == PlatformBoolT, a)) == a
    ensures Get(t == PlatformBoolT, a) == Get(t == PlatformBoolT, b) <==> a == b
  {
    if t == PlatformBoolT {
      Platform.DecodeEncode(a.b);
      Platform.EncodeInjective(a.b, b.b);
    }
  }

  /** One table step (the body of the loop in `UpdateFrom`): a property
      whose incoming value is not an entity, or whose current value is
      null, is overwritten when the two differ; an entity-valued property
      that is already set is merged in place. (A current value that is set
      but is not an entity cannot meet an incoming entity in a well-typed
      entity; it is left alone.) */
  function MergeValue(platformBool: bool, cur: Value, from: Value): (r: ValueMerge)
    ensures !r.changed ==> r.value == cur
    decreases cur, 2
  {
    var fromValue := Get(platformBool, from);
    var current := Get(platformBool, cur);
    if !fromValue.Nested? || current.Null? then
      if current != fromValue then ValueMerge(Put(platformBool, fromValue), true) else ValueMerge(cur, false)
    else if cur.Nested? then
      var m := Merge(cur.e, fromValue.e);
      ValueMerge(Nested(m.entity), m.changed)
    else
      ValueMerge(cur, false)
  }

  /** Some incoming whitelist key is missing from the local whitelist. */
  predicate WhiteListKeyMissing(local: map<string, Entity>, incoming: map<string, Entity>)
  {
    exists key | key in incoming :: key !in local
  }

  /** The bridge configuration's whitelist step: replaced wholesale when an
      incoming key is missing locally, otherwise each incoming entry is
      merged into the local entry under the same key and local-only entries
      are kept. (Both whitelists are dictionaries in a well-typed bridge
      configuration; anything else is left alone.) */
  function MergeWhiteList(cur: Value, from: Value): (r: ValueMerge)
    ensures !r.changed ==> r.value == cur
    decreases cur, 1
  {
    if !cur.Keyed? || !from.Keyed? then ValueMerge(cur, false)
    else
      var local := cur.m;
      var incoming := from.m;
      if WhiteListKeyMissing(local, incoming) then
        ValueMerge(from, true)
      else
        ValueMerge(
          Keyed(map key | key in local :: if key in incoming then Merge(local[key], incoming[key]).entity else local[key]),
          exists key | key in incoming && key in local :: Merge(local[key], incoming[key]).changed)
  }

  /** The whitelist step as the code is written: it walks the incoming
      whitelist and looks its keys up in the local one, so a null incoming
      whitelist, or a null local one facing any incoming key, raises a
      null-reference exception. Otherwise it is the step above. */
  function MergeWhiteListAsWritten(cur: Value, from: Value): (r: Outcome<ValueMerge>)
    requires cur.Null? || cur.Keyed?
    requires from.Null? || from.Keyed?
    ensures r.Throws? <==> from.Null? || (cur.Null? && from.m != map[])
    ensures r.Throws? ==> r.exception == "NullReferenceException"
    ensures r.Done? ==> r.value == MergeWhiteList(cur, from)
  {
    if from.Null? || (cur.Null? && from.m != map[]) then Throws("NullReferenceException")
    else Done(MergeWhiteList(cur, from))
  }

  /** A configuration answer without a whitelist makes the step as written
      raise, where the step the merge uses keeps the local whitelist. */
  lemma WhiteListAsWrittenFailsWithoutList(cur: Value)
    requires cur.Null? || cur.Keyed?
    ensures MergeWhiteListAsWritten(cur, Null) == Throws("NullReferenceException")
    ensures MergeWhiteList(cur, Null) == ValueMerge(cur, false)
  {
  }

  /** A null local whitelist with a non-empty incoming one raises as
      written, and also leaves the whitelist null in the step the merge uses. */
  lemma WhiteListAsWrittenFailsWithoutLocal(from: Value)
    requires from.Keyed? && from.m != map[]
    ensures MergeWhiteListAsWritten(Null, from) == Throws("NullReferenceException")
    ensures MergeWhiteList(Null, from) == ValueMerge(Null, false)
  {
  }

  /** A light's `Type` step as the code is written: the table hands a
      different incoming type to the `Type` setter, which lower-cases it to
      derive the capabilities, so a null incoming type replacing a set one
      raises a null-reference exception. Otherwise it is the table step. */
  function MergeTypeAsWritten(cur: Value, from: Value): (r: Outcome<ValueMerge>)
    requires cur.Null? || cur.Text?
    requires from.Null? || from.Text?
    ensures r.Throws? <==> from.Null? && cur.Text?
    ensures r.Throws? ==> r.exception == "NullReferenceException"
    ensures r.Done? ==> r.value == MergeValue(PlatformBool(LightBulb, Prop.Type), cur, from)
  {
    if from.Null? && cur != from then Throws("NullReferenceException")
    else Done(MergeValue(PlatformBool(LightBulb, Prop.Type), cur, from))
  }

  /** A light answer without a type makes the step as written raise, where
      the table step the merge uses stores the null type. */
  lemma TypeAsWrittenFailsWithoutType(t: string)
    ensures MergeTypeAsWritten(Text(t), Null) == Throws("NullReferenceException")
    ensures MergeValue(PlatformBool(LightBulb, Prop.Type), Text(t), Null) == ValueMerge(Null, true)
  {
  }

  /** Replace a hand-merged property iff the incoming value differs (the
      XY pair as corrected, and the ordered id lists compared element by
      element). */
  function ReplaceIfDifferent(cur: Value, from: Value): (r: ValueMerge)
    ensures r.value == from
    ensures r.changed <==> cur != from
  {
    var a := Observable.Assign(cur, from);
    ValueMerge(a.value, a.changed)
  }

  /** The XY step as the code is written: it reads both coordinates of
      both pairs, so a missing pair on either side raises a null-reference
      exception instead of completing the merge. */
  function MergeXYAsWritten(cur: Value, from: Value): (r: Outcome<ValueMerge>)
    ensures r.Done? <==> cur.Coords? && from.Coords?
    ensures r.Done? ==> r.value.value == from && (r.value.changed <==> cur != from)
  {
    if !cur.Coords? || !from.Coords? then Throws("NullReferenceException")
    else if cur.x != from.x || cur.y != from.y then Done(ValueMerge(from, true))
    else Done(ValueMerge(cur, false))
  }

  /** A light without a colour pair (a dimmable light, whose state has no
      `xy`) cannot be merged as written, while the corrected step merges
      it with no change; where both pairs are present the two agree. */
  lemma MergeXYAsWrittenFailsWithoutPair(p: Value)
    ensures MergeXYAsWritten(Null, p).Throws? && MergeXYAsWritten(p, Null).Throws?
    ensures ReplaceIfDifferent(Null, Null) == ValueMerge(Null, false)
    ensures p.Coords? ==> ReplaceIfDifferent(p, Null) == ValueMerge(Null, true)
    ensures forall a: Value, b: Value | a.Coords? && b.Coords? :: MergeXYAsWritten(a, b) == Done(ReplaceIfDifferent(a, b))
  {
  }

  /** The properties a kind merges by hand after the table walk. */
  function HandMerged(k: Kind): set<Prop.Property>
  {
    match k
    case State => {Prop.XY}
    case Scene => {Prop.Lights}
    case SoftwareUpdateDeviceTypes => {Prop.Lights, Prop.Sensors}
    case BridgeConfiguration => {Prop.WhiteList}
    case _ => {}
  }

  /** Each hand-merged property is declared by its kind and lies outside
      the kind's table. */
  lemma HandMergedDeclared(k: Kind)
    ensures forall name | name in HandMerged(k) :: TypeOf(k, name).Some? && name !in Table(k)
  {
  }

  /** The step the merge takes on one property: a table step (reading and
      writing a platform boolean as an integer or not), the whitelist's
      step, a replacement, or nothing. */
  datatype Step = Walk(platformBool: bool) | WhiteListStep | Replace | Keep

  /** A table property takes one table step, a hand-merged property its
      kind's own step, and every other property (an id, the bridge's
      `PortalServices`) is left alone. */
  function StepOf(k: Kind, name: Prop.Property): (r: Step)
    ensures r.Walk? <==> name in Table(k)
    ensures r.Walk? ==> r.platformBool == PlatformBool(k, name)
    ensures r == WhiteListStep ==> k == BridgeConfiguration
    ensures r == Keep <==> name !in Table(k) && name !in HandMerged(k)
  {
    if name in Table(k) then Walk(PlatformBool(k, name))
    else if name in HandMerged(k) then (if name == Prop.WhiteList then WhiteListStep else Replace)
    else Keep
  }

  /** The value a step produces from the current and the incoming value,
      and whether it changed anything. */
  function Take(s: Step, cur: Value, from: Value): (r: ValueMerge)
    ensures !r.changed ==> r.value == cur
    decreases cur, 3
  {
    match s
    case Walk(platformBool) => MergeValue(platformBool, cur, from)
    case WhiteListStep => MergeWhiteList(cur, from)
    case Replace => ReplaceIfDifferent(cur, from)
    case Keep => ValueMerge(cur, false)
  }

  /** What the merge does to one property of `cur`: its step, or nothing
      when the snapshot lacks the property (which a snapshot of the same
      well-typed kind never does). */
  function FieldMerge(cur: Entity, from: Entity, name: Prop.Property): (r: ValueMerge)
    requires name in cur.fields
    ensures !r.changed ==> r.value == cur.fields[name]
    decreases cur, 2
  {
    if name !in from.fields then ValueMerge(cur.fields[name], false)
    else Take(StepOf(cur.kind, name), cur.fields[name], from.fields[name])
  }

  /** `UpdateFrom`: merge `from` into `cur`. A kind with its own steps
      first checks that `from` is of the same kind and reports no change
      otherwise (the other kinds are only ever merged with their own
      kind). The result reports a change iff some property's step did. */
  function Merge(cur: Entity, from: Entity): (r: Merged)
    ensures r.entity.kind == cur.kind && r.entity.fields.Keys == cur.fields.Keys
    ensures !r.changed ==> r.entity == cur
    decreases cur, 3
  {
    if cur.kind != from.kind then Merged(cur, false)
    else
      Merged(Entity(cur.kind, map name | name in cur.fields :: FieldMerge(cur, from, name).value),
             exists name | name in cur.fields :: FieldMerge(cur, from, name).changed)
  }
}
