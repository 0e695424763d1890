/** `UpdateFrom` as the client runs it: a loop over the kind's field table
    that overwrites or recursively merges each property and accumulates
    the change flag, followed by the kind's own steps. Each method is
    proved to compute exactly the merge specified in `Merging`. */
module HueObjects {
  import opened Entities
  import opened Merging
  import opened Progress
  import Prop
  import Observable

  /** The step of every property, as (new value, changed) pairs. */
  ghost function FieldResults(cur: Entity, from: Entity): (results: map<Prop.Property, (Value, bool)>)
    ensures results.Keys == cur.fields.Keys
  {
    map name | name in cur.fields :: (FieldMerge(cur, from, name).value, FieldMerge(cur, from, name).changed)
  }

  /** A property that is neither in the table nor merged by hand keeps
      its value. */
  lemma UntouchedKept(cur: Entity, from: Entity, name: Prop.Property)
    requires name in cur.fields && name !in Table(cur.kind) && name !in HandMerged(cur.kind)
    ensures FieldMerge(cur, from, name) == ValueMerge(cur.fields[name], false)
  {
  }

  /** A table property both sides have takes the table step. */
  lemma TableStepResult(cur: Entity, from: Entity, name: Prop.Property)
    requires name in Table(cur.kind) && name in cur.fields && name in from.fields
    ensures var r := MergeValue(PlatformBool(cur.kind, name), cur.fields[name], from.fields[name]);
      FieldResults(cur, from)[name] == (r.value, r.changed)
  {
    assert StepOf(cur.kind, name) == Walk(PlatformBool(cur.kind, name));
    assert FieldMerge(cur, from, name) == Take(StepOf(cur.kind, name), cur.fields[name], from.fields[name]);
  }

  /** A hand-merged property both sides have takes its kind's own step. */
  lemma HandStepResult(cur: Entity, from: Entity, name: Prop.Property)
    requires name in HandMerged(cur.kind) && name !in Table(cur.kind) && name in cur.fields && name in from.fields
    ensures var r := if name == Prop.WhiteList then MergeWhiteList(cur.fields[name], from.fields[name])
                     else ReplaceIfDifferent(cur.fields[name], from.fields[name]);
      FieldResults(cur, from)[name] == (r.value, r.changed)
  {
    assert StepOf(cur.kind, name) == if name == Prop.WhiteList then WhiteListStep else Replace;
    assert FieldMerge(cur, from, name) == Take(StepOf(cur.kind, name), cur.fields[name], from.fields[name]);
  }

  /** A property the snapshot lacks keeps its value. */
  lemma MissingResult(cur: Entity, from: Entity, name: Prop.Property)
    requires name in cur.fields && name !in from.fields
    ensures FieldResults(cur, from)[name] == (cur.fields[name], false)
  {
  }

  /** Once every table and hand-merged property has had its step, the
      properties are those of the specified merge. */
  lemma StepFields(cur: Entity, from: Entity, done: set<Prop.Property>)
    requires cur.kind == from.kind
    requires Table(cur.kind) + HandMerged(cur.kind) <= done
    ensures Merge(cur, from).entity == Entity(cur.kind, Applied(cur.fields, FieldResults(cur, from), done))
  {
    var stepped := Applied(cur.fields, FieldResults(cur, from), done);
    var merged := map name | name in cur.fields :: FieldMerge(cur, from, name).value;
    forall name | name in cur.fields ensures stepped[name] == merged[name] {
      if name !in done {
        UntouchedKept(cur, from, name);
      }
    }
    assert stepped == merged;
  }

  /** ... and the flag is that of the specified merge: a change the merge
      reports was reported by a visited property, ... */
  lemma StepFlagSound(cur: Entity, from: Entity, done: set<Prop.Property>)
    requires cur.kind == from.kind
    requires Table(cur.kind) + HandMerged(cur.kind) <= done
    requires Merge(cur, from).changed
    ensures AnyChanged(FieldResults(cur, from), done)
  {
    var n :| n in cur.fields && FieldMerge(cur, from, n).changed;
    if n !in done {
      UntouchedKept(cur, from, n);
    }
    assert FieldResults(cur, from)[n].1;
  }

  /** ... and a change a visited property reported is one the merge
      reports. */
  lemma StepFlagComplete(cur: Entity, from: Entity, done: set<Prop.Property>)
    requires cur.kind == from.kind
    requires AnyChanged(FieldResults(cur, from), done)
    ensures Merge(cur, from).changed
  {
    var results := FieldResults(cur, from);
    var n :| n in results && n in done && results[n].1;
    assert FieldMerge(cur, from, n).changed;
  }

  /** One pass of the table loop's body. */
  method UpdateValue(platformBool: bool, cur: Value, from: Value) returns (v: Value, changed: bool)
    ensures ValueMerge(v, changed) == MergeValue(platformBool, cur, from)
    decreases cur, 3
  {
    var fromValue := Get(platformBool, from);
    var current := Get(platformBool, cur);
    if !fromValue.Nested? || current.Null? {
      if current != fromValue {
        v, changed := Put(platformBool, fromValue), true;
      } else {
        v, changed := cur, false;
      }
    } else if cur.Nested? {
      var e, c := UpdateFrom(cur.e, fromValue.e);
      v, changed := Nested(e), c;
    } else {
      v, changed := cur, false;
    }
  }

  /** The first whitelist loop: is some incoming key missing locally? */
  method FindMissingKey(local: map<string, Entity>, incoming: map<string, Entity>) returns (missing: bool)
    ensures missing == WhiteListKeyMissing(local, incoming)
  {
    missing := false;
    var keys := incoming.Keys;
    while keys != {} && !missing
      invariant keys <= incoming.Keys
      invariant missing ==> WhiteListKeyMissing(local, incoming)
      invariant !missing ==> forall key | key in incoming && key !in keys :: key in local
      decreases |keys|
    {
      var key :| key in keys;
      keys := keys - {key};
      if key !in local {
        missing := true;
      }
    }
  }

  /** The merge of each local whitelist entry with the incoming entry
      under the same key, as (merged entry, changed) pairs. */
  ghost function EntryResults(local: map<string, Entity>, incoming: map<string, Entity>): (results: map<string, (Entity, bool)>)
    ensures results.Keys == local.Keys * incoming.Keys
  {
    map key | key in local && key in incoming :: (Merge(local[key], incoming[key]).entity, Merge(local[key], incoming[key]).changed)
  }

  /** With no incoming key missing, merging every entry is the whitelist
      step of the merge specification. */
  lemma EntriesComplete(cur: Value, from: Value)
    requires cur.Keyed? && from.Keyed? && !WhiteListKeyMissing(cur.m, from.m)
    ensures var results := EntryResults(cur.m, from.m);
      MergeWhiteList(cur, from) ==
      ValueMerge(Keyed(Applied(cur.m, results, from.m.Keys)), AnyChanged(results, from.m.Keys))
  {
    var local, incoming := cur.m, from.m;
    var results := EntryResults(local, incoming);
    var spec := map key | key in local :: if key in incoming then Merge(local[key], incoming[key]).entity else local[key];
    var entries := Applied(local, results, incoming.Keys);
    forall key | key in local ensures spec[key] == entries[key] {
    }
    assert spec == entries;
    if MergeWhiteList(cur, from).changed {
      var k :| k in incoming && k in local && Merge(local[k], incoming[k]).changed;
      assert results[k].1;
    }
    if AnyChanged(results, incoming.Keys) {
      var k :| k in results && k in incoming.Keys && results[k].1;
      assert Merge(local[k], incoming[k]).changed;
    }
  }

  /** The second whitelist loop: merge each incoming entry into the local
      entry with the same key. */
  method MergeEntries(whiteList: Value, incoming: map<string, Entity>) returns (merged: map<string, Entity>, changed: bool)
    requires whiteList.Keyed?
    ensures merged == Applied(whiteList.m, EntryResults(whiteList.m, incoming), incoming.Keys)
    ensures changed == AnyChanged(EntryResults(whiteList.m, incoming), incoming.Keys)
    decreases whiteList, 0
  {
    var local := whiteList.m;
    merged, changed := local, false;
    var keys := incoming.Keys;
    ghost var done: set<string> := {};
    ghost var results := EntryResults(local, incoming);
    AppliedNone(local, results);
    while keys != {}
      invariant keys <= incoming.Keys && done <= incoming.Keys && keys !! done
      invariant forall key | key in incoming :: key in keys || key in done
      invariant merged == Applied(local, results, done)
      invariant changed == AnyChanged(results, done)
      decreases |keys|
    {
      var key :| key in keys;
      if key in local {
        var e, c := UpdateFrom(local[key], incoming[key]);
        Visit(local, results, done, key, merged, changed, e, c);
        merged, changed := merged[key := e], changed || c;
      } else {
        Visit(local, results, done, key, merged, changed, incoming[key], false);
      }
      keys, done := keys - {key}, done + {key};
    }
  }

  /** The bridge configuration's whitelist step: replace the whitelist if
      an incoming key is new, otherwise merge entry by entry. */
  method UpdateWhiteList(cur: Value, from: Value) returns (whiteList: Value, changed: bool)
    ensures ValueMerge(whiteList, changed) == MergeWhiteList(cur, from)
    decreases cur, 1
  {
    if !cur.Keyed? || !from.Keyed? {
      return cur, false;
    }
    var replaced := FindMissingKey(cur.m, from.m);
    if replaced {
      return from, true;
    }
    var merged;
    merged, changed := MergeEntries(cur, from.m);
    EntriesComplete(cur, from);
    whiteList := Keyed(merged);
  }

  /** The generic table walk (the base `UpdateFrom`): one step per key of
      the kind's getter/setter dictionary. */
  method UpdateTable(cur: Entity, from: Entity) returns (fields: map<Prop.Property, Value>, changed: bool)
    requires cur.kind == from.kind
    ensures fields == Applied(cur.fields, FieldResults(cur, from), Table(cur.kind))
    ensures changed == AnyChanged(FieldResults(cur, from), Table(cur.kind))
    decreases cur, 1
  {
    ghost var results := FieldResults(cur, from);
    fields, changed := cur.fields, false;
    ghost var done: set<Prop.Property> := {};
    AppliedNone(cur.fields, results);
    var names := Table(cur.kind);
    ghost var table := names;
    while names != {}
      invariant names + done == table && names !! done
      invariant fields == Applied(cur.fields, results, done)
      invariant changed == AnyChanged(results, done)
      decreases |names|
    {
      var name :| name in names;
      AppliedAdd(cur.fields, results, done, name);
      if name in fields && name in from.fields {
        TableStepResult(cur, from, name);
        var v, c := UpdateValue(PlatformBool(cur.kind, name), fields[name], from.fields[name]);
        Visit(cur.fields, results, done, name, fields, changed, v, c);
        fields, changed := fields[name := v], changed || c;
      } else {
        // A property the entity or the snapshot lacks keeps its value.
        if name in fields {
          MissingResult(cur, from, name);
        }
        Visit(cur.fields, results, done, name, fields, changed, if name in fields then fields[name] else Null, false);
        fields := if name in fields then fields[name := fields[name]] else fields;
      }
      Move(names, done, table, name);
      names, done := names - {name}, done + {name};
    }
  }

  /** `UpdateFrom`: merge the snapshot `from` into `cur`. */
  method UpdateFrom(cur: Entity, from: Entity) returns (next: Entity, changed: bool)
    ensures Merged(next, changed) == Merge(cur, from)
    decreases cur, 2
  {
    if cur.kind != from.kind {
      return cur, false;
    }
    var fields;
    fields, changed := UpdateTable(cur, from);
    ghost var results := FieldResults(cur, from);
    ghost var done := Table(cur.kind);
    HandMergedDeclared(cur.kind);
    var names := HandMerged(cur.kind);
    while names != {}
      invariant names <= HandMerged(cur.kind) && names !! done
      invariant Table(cur.kind) + (HandMerged(cur.kind) - names) <= done
      invariant fields == Applied(cur.fields, results, done)
      invariant changed == AnyChanged(results, done)
      decreases |names|
    {
      var name :| name in names;
      AppliedAdd(cur.fields, results, done, name);
      if name in fields && name in from.fields {
        HandStepResult(cur, from, name);
        var v, c;
        if name == Prop.WhiteList {
          v, c := UpdateWhiteList(fields[name], from.fields[name]);
        } else {
          var a := Observable.Assign(fields[name], from.fields[name]);
          v, c := a.value, a.changed;
        }
        Visit(cur.fields, results, done, name, fields, changed, v, c);
        fields, changed := fields[name := v], changed || c;
      } else {
        if name in fields {
          MissingResult(cur, from, name);
        }
        Visit(cur.fields, results, done, name, fields, changed, if name in fields then fields[name] else Null, false);
        fields := if name in fields then fields[name := fields[name]] else fields;
      }
      names, done := names - {name}, done + {name};
    }
    StepFields(cur, from, done);
    if Merge(cur, from).changed {
      StepFlagSound(cur, from, done);
    }
    if changed {
      StepFlagComplete(cur, from, done);
    }
    next := Entity(cur.kind, fields);
  }
}
