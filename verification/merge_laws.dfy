/** What a merge guarantees: it keeps entities well typed, merging an
    entity with itself changes nothing, the reported flag is exactly
    "something changed", and merging the same snapshot twice reports no
    change the second time. */
module MergeLaws {
  import opened Entities
  import Prop
  import opened Merging
  import Common
  import LightBulbs

  /** A well-typed whitelist: a dictionary of well-typed whitelist
      entries. */
  predicate WhiteListFits(v: Value)
  {
    Fits(v, KeyedT(WhiteList))
  }

  /** A step suits a property type: a table step reads platform booleans
      exactly when the type is one, and the whitelist step is taken only on
      a whitelist. */
  predicate Suits(s: Step, t: FieldType)
  {
    match s
    case Walk(platformBool) => platformBool == (t == PlatformBoolT)
    case WhiteListStep => t == KeyedT(WhiteList)
    case _ => true
  }

  /** Only the bridge configuration merges a whitelist by hand. */
  lemma WhiteListOfBridge(k: Kind)
    requires Prop.WhiteList in HandMerged(k)
    ensures k == BridgeConfiguration
  {
  }

  /** Every declared property's step suits its declared type. */
  lemma StepSuits(k: Kind, name: Prop.Property)
    requires TypeOf(k, name).Some?
    ensures Suits(StepOf(k, name), TypeOf(k, name).value)
  {
    if StepOf(k, name) == WhiteListStep {
      WhiteListOfBridge(k);
    }
  }

  lemma {:induction false} MergeValueFits(t: FieldType, cur: Value, from: Value)
    requires Fits(cur, t) && Fits(from, t)
    ensures Fits(MergeValue(t == PlatformBoolT, cur, from).value, t)
    decreases cur, 2
  {
    var fromValue := Get(t == PlatformBoolT, from);
    if !fromValue.Nested? || Get(t == PlatformBoolT, cur).Null? {
      GetPut(t, from, from);
    } else {
      MergeConforms(cur.e, from.e);
    }
  }

  lemma {:induction false} WhiteListFitsMerge(cur: Value, from: Value)
    requires WhiteListFits(cur) && WhiteListFits(from)
    ensures WhiteListFits(MergeWhiteList(cur, from).value)
    decreases cur, 1
  {
    if !WhiteListKeyMissing(cur.m, from.m) {
      forall key | key in cur.m && key in from.m
        ensures Merge(cur.m[key], from.m[key]).entity.kind == WhiteList
        ensures Conforms(Merge(cur.m[key], from.m[key]).entity)
      {
        MergeConforms(cur.m[key], from.m[key]);
      }
    }
  }

  lemma {:induction false} TakeFits(s: Step, t: FieldType, cur: Value, from: Value)
    requires Suits(s, t) && Fits(cur, t) && Fits(from, t)
    ensures Fits(Take(s, cur, from).value, t)
    decreases cur, 3
  {
    match s
    case Walk(_) => MergeValueFits(t, cur, from);
    case WhiteListStep => WhiteListFitsMerge(cur, from);
    case _ =>
  }

  lemma {:induction false} FieldMergeFits(cur: Entity, from: Entity, name: Prop.Property)
    requires Conforms(cur) && Conforms(from) && cur.kind == from.kind && name in cur.fields
    ensures Fits(FieldMerge(cur, from, name).value, TypeOf(cur.kind, name).value)
    decreases cur, 1
  {
    StepSuits(cur.kind, name);
    TakeFits(StepOf(cur.kind, name), TypeOf(cur.kind, name).value, cur.fields[name], from.fields[name]);
  }

  /** A merge keeps the entity's kind and leaves it well typed. */
  lemma {:induction false} MergeConforms(cur: Entity, from: Entity)
    requires Conforms(cur) && Conforms(from)
    ensures Merge(cur, from).entity.kind == cur.kind
    ensures Conforms(Merge(cur, from).entity)
    decreases cur, 2
  {
    if cur.kind == from.kind {
      forall name | name in cur.fields
        ensures Fits(FieldMerge(cur, from, name).value, TypeOf(cur.kind, name).value)
      {
        FieldMergeFits(cur, from, name);
      }
    }
  }

  lemma {:induction false} MergeValueSelf(t: FieldType, v: Value)
    requires Fits(v, t)
    ensures MergeValue(t == PlatformBoolT, v, v) == ValueMerge(v, false)
    decreases v, 2
  {
    if v.Nested? {
      MergeSelf(v.e);
    }
  }

  /** A whitelist merge in which every incoming entry has a local
      counterpart that it leaves unchanged changes nothing. */
  lemma WhiteListQuiet(cur: Value, from: Value)
    requires cur.Keyed? && from.Keyed?
    requires forall key | key in from.m :: key in cur.m && Merge(cur.m[key], from.m[key]) == Merged(cur.m[key], false)
    ensures MergeWhiteList(cur, from) == ValueMerge(cur, false)
  {
    assert !WhiteListKeyMissing(cur.m, from.m);
    var merged := map key | key in cur.m :: if key in from.m then Merge(cur.m[key], from.m[key]).entity else cur.m[key];
    assert merged == cur.m;
  }

  lemma {:induction false} WhiteListSelf(v: Value)
    requires WhiteListFits(v)
    ensures MergeWhiteList(v, v) == ValueMerge(v, false)
    decreases v, 0
  {
    forall key | key in v.m ensures Merge(v.m[key], v.m[key]) == Merged(v.m[key], false) {
      MergeSelf(v.m[key]);
    }
    WhiteListQuiet(v, v);
  }

  lemma {:induction false} TakeSelf(s: Step, t: FieldType, v: Value)
    requires Suits(s, t) && Fits(v, t)
    ensures Take(s, v, v) == ValueMerge(v, false)
    decreases v, 3
  {
    match s
    case Walk(_) => MergeValueSelf(t, v);
    case WhiteListStep => WhiteListSelf(v);
    case _ =>
  }

  lemma {:induction false} FieldMergeSelf(e: Entity, name: Prop.Property)
    requires Conforms(e) && name in e.fields
    ensures FieldMerge(e, e, name) == ValueMerge(e.fields[name], false)
    decreases e, 1
  {
    StepSuits(e.kind, name);
    TakeSelf(StepOf(e.kind, name), TypeOf(e.kind, name).value, e.fields[name]);
  }

  /** Merging an entity with an identical snapshot changes nothing and
      reports no change. */
  lemma {:induction false} MergeSelf(e: Entity)
    requires Conforms(e)
    ensures Merge(e, e) == Merged(e, false)
    decreases e, 2
  {
    forall name | name in e.fields ensures FieldMerge(e, e, name) == ValueMerge(e.fields[name], false) {
      FieldMergeSelf(e, name);
    }
    assert (map name | name in e.fields :: FieldMerge(e, e, name).value) == e.fields;
  }

  lemma {:induction false} MergeValueIdempotent(t: FieldType, cur: Value, from: Value)
    requires Fits(cur, t) && Fits(from, t)
    ensures Fits(MergeValue(t == PlatformBoolT, cur, from).value, t)
    ensures var v := MergeValue(t == PlatformBoolT, cur, from).value;
      MergeValue(t == PlatformBoolT, v, from) == ValueMerge(v, false)
    decreases cur, 2
  {
    MergeValueFits(t, cur, from);
    var fromValue := Get(t == PlatformBoolT, from);
    if !fromValue.Nested? || Get(t == PlatformBoolT, cur).Null? {
      GetPut(t, cur, from);
      GetPut(t, from, from);
      MergeValueSelf(t, from);
    } else {
      MergeIdempotent(cur.e, from.e);
    }
  }

  lemma {:induction false} WhiteListIdempotent(cur: Value, from: Value)
    requires WhiteListFits(cur) && WhiteListFits(from)
    ensures var v := MergeWhiteList(cur, from).value; MergeWhiteList(v, from) == ValueMerge(v, false)
    decreases cur, 0
  {
    var v := MergeWhiteList(cur, from).value;
    if WhiteListKeyMissing(cur.m, from.m) {
      forall key | key in from.m ensures Merge(from.m[key], from.m[key]) == Merged(from.m[key], false) {
        MergeSelf(from.m[key]);
      }
    } else {
      forall key | key in from.m
        ensures key in v.m
        ensures Merge(v.m[key], from.m[key]) == Merged(v.m[key], false)
      {
        MergeIdempotent(cur.m[key], from.m[key]);
      }
    }
    WhiteListQuiet(v, from);
  }

  lemma {:induction false} TakeIdempotent(s: Step, t: FieldType, cur: Value, from: Value)
    requires Suits(s, t) && Fits(cur, t) && Fits(from, t)
    ensures var v := Take(s, cur, from).value; Take(s, v, from) == ValueMerge(v, false)
    decreases cur, 3
  {
    match s
    case Walk(_) => MergeValueIdempotent(t, cur, from);
    case WhiteListStep => WhiteListIdempotent(cur, from);
    case _ =>
  }

  lemma {:induction false} FieldMergeIdempotent(cur: Entity, from: Entity, m: Entity, name: Prop.Property)
    requires Conforms(cur) && Conforms(from) && cur.kind == from.kind && name in cur.fields
    requires m.kind == cur.kind && name in m.fields && m.fields[name] == FieldMerge(cur, from, name).value
    ensures FieldMerge(m, from, name) == ValueMerge(m.fields[name], false)
    decreases cur, 1
  {
    StepSuits(cur.kind, name);
    TakeIdempotent(StepOf(cur.kind, name), TypeOf(cur.kind, name).value, cur.fields[name], from.fields[name]);
  }

  /** Idempotence: once a snapshot has been merged in, merging the same
      snapshot again is a no-op that reports no change. */
  lemma {:induction false} MergeIdempotent(cur: Entity, from: Entity)
    requires Conforms(cur) && Conforms(from)
    ensures Conforms(Merge(cur, from).entity) && Merge(cur, from).entity.kind == cur.kind
    ensures var m := Merge(cur, from).entity; Merge(m, from) == Merged(m, false)
    decreases cur, 2
  {
    MergeConforms(cur, from);
    var m := Merge(cur, from).entity;
    if cur.kind == from.kind {
      forall name | name in m.fields ensures FieldMerge(m, from, name) == ValueMerge(m.fields[name], false) {
        FieldMergeIdempotent(cur, from, m, name);
      }
      assert (map name | name in m.fields :: FieldMerge(m, from, name).value) == m.fields;
    }
  }

  lemma {:induction false} MergeValueChangedIff(t: FieldType, cur: Value, from: Value)
    requires Fits(cur, t) && Fits(from, t)
    ensures MergeValue(t == PlatformBoolT, cur, from).changed <==> MergeValue(t == PlatformBoolT, cur, from).value != cur
    decreases cur, 2
  {
    var fromValue := Get(t == PlatformBoolT, from);
    if !fromValue.Nested? || Get(t == PlatformBoolT, cur).Null? {
      GetPut(t, cur, from);
      GetPut(t, from, from);
    } else {
      MergeChangedIff(cur.e, from.e);
    }
  }

  lemma {:induction false} WhiteListChangedIff(cur: Value, from: Value)
    requires WhiteListFits(cur) && WhiteListFits(from)
    ensures MergeWhiteList(cur, from).changed <==> MergeWhiteList(cur, from).value != cur
    decreases cur, 0
  {
    if WhiteListKeyMissing(cur.m, from.m) {
      var key :| key in from.m && key !in cur.m;
      assert key in MergeWhiteList(cur, from).value.m;
    } else if MergeWhiteList(cur, from).changed {
      var key :| key in from.m && key in cur.m && Merge(cur.m[key], from.m[key]).changed;
      MergeChangedIff(cur.m[key], from.m[key]);
      assert MergeWhiteList(cur, from).value.m[key] != cur.m[key];
    } else {
      forall key | key in from.m
        ensures key in cur.m && Merge(cur.m[key], from.m[key]) == Merged(cur.m[key], false)
      {
        MergeChangedIff(cur.m[key], from.m[key]);
      }
      WhiteListQuiet(cur, from);
    }
  }

  lemma {:induction false} TakeChangedIff(s: Step, t: FieldType, cur: Value, from: Value)
    requires Suits(s, t) && Fits(cur, t) && Fits(from, t)
    ensures Take(s, cur, from).changed <==> Take(s, cur, from).value != cur
    decreases cur, 3
  {
    match s
    case Walk(_) => MergeValueChangedIff(t, cur, from);
    case WhiteListStep => WhiteListChangedIff(cur, from);
    case _ =>
  }

  lemma {:induction false} FieldMergeChangedIff(cur: Entity, from: Entity, name: Prop.Property)
    requires Conforms(cur) && Conforms(from) && cur.kind == from.kind && name in cur.fields
    ensures FieldMerge(cur, from, name).changed <==> FieldMerge(cur, from, name).value != cur.fields[name]
    decreases cur, 1
  {
    StepSuits(cur.kind, name);
    TakeChangedIff(StepOf(cur.kind, name), TypeOf(cur.kind, name).value, cur.fields[name], from.fields[name]);
  }

  /** The flag a merge returns is exactly "the entity changed": true iff
      some property (or some property of a nested entity) now differs. */
  lemma {:induction false} MergeChangedIff(cur: Entity, from: Entity)
    requires Conforms(cur) && Conforms(from)
    ensures Merge(cur, from).changed <==> Merge(cur, from).entity != cur
    decreases cur, 2
  {
    if cur.kind == from.kind {
      var m := Merge(cur, from);
      if m.changed {
        var name :| name in cur.fields && FieldMerge(cur, from, name).changed;
        FieldMergeChangedIff(cur, from, name);
        assert m.entity.fields[name] != cur.fields[name];
      } else {
        forall name | name in cur.fields ensures FieldMerge(cur, from, name).value == cur.fields[name] {
          FieldMergeChangedIff(cur, from, name);
        }
        assert m.entity.fields == cur.fields;
      }
    }
  }

  /** A kind with its own steps reports no change and changes nothing when
      handed a snapshot of another kind. */
  lemma OtherKindUnchanged(cur: Entity, from: Entity)
    requires cur.kind != from.kind
    ensures Merge(cur, from) == Merged(cur, false)
  {
  }

  /** A property that is neither in the table nor merged by hand (an id,
      the bridge's `PortalServices`) keeps its value. */
  lemma UntabledKept(cur: Entity, from: Entity, name: Prop.Property)
    requires cur.kind == from.kind && name in cur.fields
    requires name !in Table(cur.kind) && name !in HandMerged(cur.kind)
    ensures Merge(cur, from).entity.fields[name] == cur.fields[name]
  {
    assert StepOf(cur.kind, name) == Keep;
    assert FieldMerge(cur, from, name).value == cur.fields[name];
    assert Merge(cur, from).entity.fields[name] == FieldMerge(cur, from, name).value;
  }

  /** The XY pair, a scene's light list and the device types' id lists end
      as the snapshot's, and a change is reported when they differed. */
  lemma HandReplaced(cur: Entity, from: Entity, name: Prop.Property)
    requires cur.kind == from.kind && name in cur.fields && name in from.fields
    requires name in HandMerged(cur.kind) && name != Prop.WhiteList
    ensures Merge(cur, from).entity.fields[name] == from.fields[name]
    ensures from.fields[name] != cur.fields[name] ==> Merge(cur, from).changed
  {
    HandMergedDeclared(cur.kind);
    assert StepOf(cur.kind, name) == Replace;
    var fm := FieldMerge(cur, from, name);
    assert fm == Take(Replace, cur.fields[name], from.fields[name]);
    assert Merge(cur, from).entity.fields[name] == fm.value;
    if from.fields[name] != cur.fields[name] {
      assert fm.changed;
    }
  }

  /** A bridge configuration whose incoming whitelist has a key missing
      locally ends with the incoming whitelist, and a change is reported. */
  lemma WhiteListReplaced(cur: Entity, from: Entity)
    requires cur.kind == BridgeConfiguration && from.kind == BridgeConfiguration
    requires Prop.WhiteList in cur.fields && Prop.WhiteList in from.fields
    requires cur.fields[Prop.WhiteList].Keyed? && from.fields[Prop.WhiteList].Keyed?
    requires WhiteListKeyMissing(cur.fields[Prop.WhiteList].m, from.fields[Prop.WhiteList].m)
    ensures Merge(cur, from).entity.fields[Prop.WhiteList] == from.fields[Prop.WhiteList]
    ensures Merge(cur, from).changed
  {
    var wl := Prop.WhiteList;
    assert StepOf(cur.kind, wl) == WhiteListStep;
    var m := MergeWhiteList(cur.fields[wl], from.fields[wl]);
    assert m == ValueMerge(from.fields[wl], true);
    assert FieldMerge(cur, from, wl) == Take(WhiteListStep, cur.fields[wl], from.fields[wl]) == m;
    assert Merge(cur, from).entity.fields[wl] == FieldMerge(cur, from, wl).value;
  }

  /** A light's capabilities, as its `Type` setter derives them from the
      type it holds; a light whose type was never set has none. */
  function LightCapabilities(e: Entity): (caps: set<LightBulbs.Capability>)
    ensures caps != {} ==> Prop.Type in e.fields && e.fields[Prop.Type].Text?
    ensures caps != {} ==> LightBulbs.OnOff in caps
  {
    if Prop.Type in e.fields && e.fields[Prop.Type].Text? then LightBulbs.Capabilities(e.fields[Prop.Type].s)
    else {}
  }

  /** After a light is merged with a snapshot that carries a type, its
      type is the snapshot's and its capabilities are the ones that type
      gives, as when the `Type` setter recomputes them. */
  lemma MergeSetsCapabilities(cur: Entity, from: Entity)
    requires cur.kind == LightBulb && from.kind == LightBulb
    requires Prop.Type in cur.fields && Prop.Type in from.fields && from.fields[Prop.Type].Text?
    ensures Merge(cur, from).entity.fields[Prop.Type] == from.fields[Prop.Type]
    ensures LightCapabilities(Merge(cur, from).entity) == LightBulbs.Capabilities(from.fields[Prop.Type].s)
  {
    var c, f := cur.fields[Prop.Type], from.fields[Prop.Type];
    assert StepOf(LightBulb, Prop.Type) == Walk(false);
    assert Get(false, f) == f && Get(false, c) == c && Put(false, f) == f;
    assert MergeValue(false, c, f).value == f;
    assert FieldMerge(cur, from, Prop.Type) == MergeValue(false, c, f);
  }
}
