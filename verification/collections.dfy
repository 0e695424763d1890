/** The client's synchroniser for a list of bridge objects (lights, groups,
    scenes): an ordered list of live objects, a dictionary from bridge id
    to the same objects, and each object's `Index`. A refresh fetches the
    bridge's current dictionary, drops the objects the bridge no longer
    has, merges the snapshot of every object it still has into the live
    object, and appends the new ones. Objects are handles: the same handle
    is the same object, so identity is kept when a handle survives. */
module Collections {
  import opened Common
  import opened Entities
  import opened Merging
  import MergeLaws
  import Prop
  import HueObjects
  import LightOrder
  import opened BridgeResults
  import Text

  /** An object's identity. */
  type Handle = nat

  /** The synchroniser's state: the ordered list, the dictionary by id,
      each object's current value, each object's `Index`, and the next
      unused handle. */
  datatype Store = Store(list: seq<Handle>, byId: map<string, Handle>, objects: map<Handle, Entity>,
                         index: map<Handle, UShort>, next: Handle)

  /** The list and the dictionary hold the same objects, each once, and
      every live object has a value and an `Index`. */
  predicate Valid(s: Store)
  {
    Distinct(s.list) &&
    (forall h | h in s.list :: h in s.objects && h in s.index) &&
    (forall h | h in s.objects :: h < s.next) &&
    (forall h | h in s.index :: h in s.objects) &&
    (forall id | id in s.byId :: s.byId[id] in s.list) &&
    (forall h | h in s.list :: h in s.byId.Values) &&
    (forall a, b | a in s.byId && b in s.byId && a != b :: s.byId[a] != s.byId[b])
  }

  /** The snapshot decoded under the dictionary key `id`, with its `Id`
      set to that key. */
  function WithId(e: Entity, id: string): (r: Entity)
    ensures r.kind == e.kind && r.fields.Keys == e.fields.Keys + {Prop.Id} && r.fields[Prop.Id] == Text(id)
  {
    Entity(e.kind, e.fields[Prop.Id := Text(id)])
  }

  /** The ids a decoded dictionary holds. */
  function Ids(latest: seq<(string, Entity)>): set<string>
  {
    set k | 0 <= k < |latest| :: latest[k].0
  }

  /** The decoded dictionary has each key once. */
  predicate DistinctIds(latest: seq<(string, Entity)>)
  {
    forall i, j | 0 <= i < j < |latest| :: latest[i].0 != latest[j].0
  }

  // ---------------------------------------------------------------------
  // Removal from the list

  /** `s` without the elements in `gone`, in order. */
  function Drop(s: seq<Handle>, gone: set<Handle>): (r: seq<Handle>)
    ensures |r| <= |s|
  {
    if s == [] then []
    else if s[0] in gone then Drop(s[1..], gone)
    else [s[0]] + Drop(s[1..], gone)
  }

  /** `List.Remove`: the first occurrence of `h` taken out. */
  function RemoveFirst(s: seq<Handle>, h: Handle): seq<Handle>
  {
    if s == [] then []
    else if s[0] == h then s[1..]
    else [s[0]] + RemoveFirst(s[1..], h)
  }

  lemma {:induction false} DropElements(s: seq<Handle>, gone: set<Handle>, x: Handle)
    ensures x in Drop(s, gone) <==> x in s && x !in gone
  {
    if s != [] {
      DropElements(s[1..], gone, x);
      assert x in s <==> x == s[0] || x in s[1..];
    }
  }

  lemma {:induction false} DropDistinct(s: seq<Handle>, gone: set<Handle>)
    requires Distinct(s)
    ensures Distinct(Drop(s, gone))
  {
    if s != [] {
      DropDistinct(s[1..], gone);
      if s[0] !in gone {
        DropElements(s[1..], gone, s[0]);
        var r := Drop(s[1..], gone);
        assert s[0] !in r by {
          forall k | 0 <= k < |s[1..]| ensures s[1..][k] != s[0] {
            assert s[1..][k] == s[k + 1];
          }
        }
        forall i, j | 0 <= i < j < |[s[0]] + r| ensures ([s[0]] + r)[i] != ([s[0]] + r)[j] {
          if i == 0 {
            assert ([s[0]] + r)[j] == r[j - 1];
          }
        }
      }
    }
  }

  lemma {:induction false} DropTwice(s: seq<Handle>, gone: set<Handle>, more: set<Handle>)
    ensures Drop(Drop(s, gone), more) == Drop(s, gone + more)
  {
    if s != [] {
      DropTwice(s[1..], gone, more);
      if s[0] !in gone {
        assert ([s[0]] + Drop(s[1..], gone))[1..] == Drop(s[1..], gone);
      }
    }
  }

  lemma {:induction false} RemoveFirstDrop(s: seq<Handle>, h: Handle)
    requires Distinct(s)
    ensures RemoveFirst(s, h) == Drop(s, {h})
  {
    if s != [] {
      assert Distinct(s[1..]) by {
        forall i, j | 0 <= i < j < |s[1..]| ensures s[1..][i] != s[1..][j] {
          assert s[i + 1] != s[j + 1];
        }
      }
      if s[0] == h {
        assert h !in s[1..] by {
          forall k | 0 <= k < |s[1..]| ensures s[1..][k] != h {
            assert s[1..][k] == s[k + 1];
          }
        }
        DropAbsent(s[1..], {h});
      } else {
        RemoveFirstDrop(s[1..], h);
      }
    }
  }

  lemma {:induction false} DropAbsent(s: seq<Handle>, gone: set<Handle>)
    requires forall i | 0 <= i < |s| :: s[i] !in gone
    ensures Drop(s, gone) == s
  {
    if s != [] {
      DropAbsent(s[1..], gone);
    }
  }

  /** The objects of the ids in `dropped`. */
  function HandlesOf(byId: map<string, Handle>, dropped: set<string>): set<Handle>
  {
    set id | id in dropped && id in byId :: byId[id]
  }

  /** The removal loop's state once the ids in `done` were visited: the
      ones among them the bridge no longer has are gone from the
      dictionary, and their objects from the list. */
  function RemovedSoFar(s: Store, ids: set<string>, done: set<string>): Store
  {
    s.(byId := s.byId - (done - ids), list := Drop(s.list, HandlesOf(s.byId, done - ids)))
  }

  /** The first loop of `RefreshHueObjects`: every object whose id the
      bridge no longer has leaves the dictionary and the list; the other
      objects keep their handles, their values, their `Index` and their
      order. */
  function Removed(s: Store, ids: set<string>): (r: Store)
    requires Valid(s)
    ensures Valid(r)
    ensures r.byId.Keys == s.byId.Keys * ids && forall id | id in r.byId :: r.byId[id] == s.byId[id]
    ensures forall id | id in s.byId && id !in ids :: s.byId[id] !in r.list
    ensures r.objects == s.objects && r.index == s.index && r.next == s.next
  {
    RemovedValid(s, ids);
    RemovedSoFar(s, ids, s.byId.Keys)
  }

  lemma RemovedValid(s: Store, ids: set<string>)
    requires Valid(s)
    ensures var r := RemovedSoFar(s, ids, s.byId.Keys);
      Valid(r) && forall id | id in s.byId && id !in ids :: s.byId[id] !in r.list
  {
    var r := RemovedSoFar(s, ids, s.byId.Keys);
    var gone := HandlesOf(s.byId, s.byId.Keys - ids);
    DropDistinct(s.list, gone);
    forall h | h in r.list ensures h in s.list && h !in gone {
      DropElements(s.list, gone, h);
    }
    forall id | id in r.byId ensures r.byId[id] in r.list {
      DropElements(s.list, gone, r.byId[id]);
    }
    forall h | h in r.list ensures h in r.byId.Values {
      DropElements(s.list, gone, h);
      var id :| id in s.byId && s.byId[id] == h;
      assert id in r.byId;
    }
    forall id | id in s.byId && id !in ids ensures s.byId[id] !in r.list {
      DropElements(s.list, gone, s.byId[id]);
    }
  }

  lemma RemoveStart(s: Store, ids: set<string>)
    ensures RemovedSoFar(s, ids, {}) == s
  {
    assert {} - ids == {};
    assert HandlesOf(s.byId, {}) == {};
    assert s.byId - {} == s.byId;
    DropAbsent(s.list, {});
  }

  /** One turn of the removal loop: an id the bridge still has is left
      alone; any other leaves the dictionary, and its object the list. */
  lemma RemoveStep(s: Store, ids: set<string>, done: set<string>, id: string)
    requires Valid(s) && id in s.byId && id !in done
    ensures var r := RemovedSoFar(s, ids, done);
      RemovedSoFar(s, ids, done + {id}) ==
        if id in ids then r else r.(byId := r.byId - {id}, list := RemoveFirst(r.list, s.byId[id]))
  {
    var gone := HandlesOf(s.byId, done - ids);
    if id !in ids {
      var h := s.byId[id];
      DropDistinct(s.list, gone);
      RemoveFirstDrop(Drop(s.list, gone), h);
      DropTwice(s.list, gone, {h});
      assert done + {id} - ids == (done - ids) + {id};
      assert HandlesOf(s.byId, done + {id} - ids) == gone + {h};
      assert s.byId - (done + {id} - ids) == (s.byId - (done - ids)) - {id};
    } else {
      assert done + {id} - ids == done - ids;
    }
  }

  // ---------------------------------------------------------------------
  // Adding and updating

  /** `AddOrUpdateHueObject`: an id the dictionary has merges the snapshot
      into the live object and answers the merge's change flag; a new id
      appends the snapshot itself as a new object, with `Index` the new
      count less one (as an unsigned 16-bit value), and always answers
      true. */
  function AddOrUpdate(s: Store, id: string, e: Entity): (r: (Store, bool))
    requires Valid(s)
    ensures Valid(r.0)
  {
    var snapshot := WithId(e, id);
    if id in s.byId then
      var h := s.byId[id];
      var m := Merge(s.objects[h], snapshot);
      (s.(objects := s.objects[h := m.entity]), m.changed)
    else
      AppendValid(s, id, snapshot);
      (Appended(s, id, snapshot), true)
  }

  /** A new object appended under `id` with a fresh handle. */
  function Appended(s: Store, id: string, snapshot: Entity): Store
  {
    Store(s.list + [s.next], s.byId[id := s.next], s.objects[s.next := snapshot],
          s.index[s.next := |s.list| % 0x1_0000], s.next + 1)
  }

  lemma AppendValid(s: Store, id: string, snapshot: Entity)
    requires Valid(s) && id !in s.byId
    ensures Valid(Appended(s, id, snapshot))
  {
    var r := Appended(s, id, snapshot);
    var h := s.next;
    forall i | 0 <= i < |s.list| ensures s.list[i] != h {
      assert s.list[i] in s.objects;
    }
    forall h' | h' in r.list ensures h' in r.byId.Values {
      if h' != h {
        var other :| other in s.byId && s.byId[other] == h';
        assert r.byId[other] == h';
      } else {
        assert r.byId[id] == h;
      }
    }
  }

  /** Adding or updating one entry touches no other id: every id already
      held keeps its handle and every other object keeps its value. */
  lemma AddOrUpdateFrame(s: Store, id: string, e: Entity)
    requires Valid(s)
    ensures var r := AddOrUpdate(s, id, e).0;
      r.byId.Keys == s.byId.Keys + {id} &&
      (forall other | other in s.byId :: r.byId[other] == s.byId[other]) &&
      (forall h | h in s.objects && h != r.byId[id] :: h in r.objects && r.objects[h] == s.objects[h])
  {
  }

  /** Adding or updating one entry keeps every object's `Index`, and the
      list only grows at its end. */
  lemma AddOrUpdateKeepsOrder(s: Store, id: string, e: Entity)
    requires Valid(s)
    ensures var r := AddOrUpdate(s, id, e).0;
      (forall h | h in s.index :: h in r.index && r.index[h] == s.index[h]) &&
      |s.list| <= |r.list| && r.list[..|s.list|] == s.list
  {
    if id !in s.byId {
      assert s.next !in s.objects;
    }
  }

  /** `AddOrUpdateHueObject` case by case: a known id leaves the list and
      the dictionary as they were and answers whether the merge changed
      the live object; a new id is appended as a new object holding the
      snapshot, indexed under its id, with `Index` equal to its position,
      and counts as a change. */
  lemma AddOrUpdateCases(s: Store, id: string, e: Entity)
    requires Valid(s)
    ensures var r := AddOrUpdate(s, id, e);
      var snapshot := WithId(e, id);
      if id in s.byId then
        var h := s.byId[id];
        r.0.list == s.list && r.0.byId == s.byId && r.0.index == s.index &&
        r.0.objects[h] == Merge(s.objects[h], snapshot).entity &&
        r.1 == Merge(s.objects[h], snapshot).changed
      else
        var h := r.0.byId[id];
        r.1 && h !in s.objects && r.0.list == s.list + [h] && r.0.objects[h] == snapshot &&
        (|s.list| < 0x1_0000 ==> r.0.list[r.0.index[h]] == h)
  {
  }

  /** Adding or updating the same entry twice in a row: when the id is
      already held, the second call changes nothing and answers false. */
  lemma AddOrUpdateTwice(s: Store, id: string, e: Entity)
    requires Valid(s) && id in s.byId
    requires Conforms(s.objects[s.byId[id]]) && Conforms(WithId(e, id))
    ensures var r := AddOrUpdate(s, id, e).0; AddOrUpdate(r, id, e) == (r, false)
  {
    var h := s.byId[id];
    MergeLaws.MergeIdempotent(s.objects[h], WithId(e, id));
    var r := AddOrUpdate(s, id, e).0;
    assert r.objects[h := r.objects[h]] == r.objects;
  }

  /** The second loop of `RefreshHueObjects`: every decoded entry added or
      merged in order; the snapshot of each entry that reported a change
      is collected. */
  function AddAll(s: Store, latest: seq<(string, Entity)>): (r: (Store, seq<Entity>))
    requires Valid(s)
    ensures Valid(r.0)
  {
    if latest == [] then (s, [])
    else
      var n := |latest| - 1;
      var before := AddAll(s, latest[..n]);
      var step := AddOrUpdate(before.0, latest[n].0, latest[n].1);
      (step.0, if step.1 then before.1 + [WithId(latest[n].1, latest[n].0)] else before.1)
  }

  lemma AddAllSnoc(s: Store, latest: seq<(string, Entity)>, i: nat)
    requires Valid(s) && i < |latest|
    ensures var before := AddAll(s, latest[..i]);
      var step := AddOrUpdate(before.0, latest[i].0, latest[i].1);
      AddAll(s, latest[..i + 1]) == (step.0, if step.1 then before.1 + [WithId(latest[i].1, latest[i].0)] else before.1)
  {
    assert latest[..i + 1][..i] == latest[..i];
  }

  lemma IdsSnoc(latest: seq<(string, Entity)>)
    requires latest != []
    ensures Ids(latest) == Ids(latest[..|latest| - 1]) + {latest[|latest| - 1].0}
  {
    var n := |latest| - 1;
    assert forall k | 0 <= k < n :: latest[..n][k] == latest[k];
  }

  /** The additions and merges end with exactly the decoded ids in the
      dictionary besides the ones it had. */
  lemma {:induction false} AddAllKeys(s: Store, latest: seq<(string, Entity)>)
    requires Valid(s)
    ensures AddAll(s, latest).0.byId.Keys == s.byId.Keys + Ids(latest)
  {
    if latest != [] {
      var n := |latest| - 1;
      var before := AddAll(s, latest[..n]).0;
      AddAllKeys(s, latest[..n]);
      AddOrUpdateFrame(before, latest[n].0, latest[n].1);
      IdsSnoc(latest);
    }
  }

  /** The additions and merges keep the handle of every id the
      dictionary had. */
  lemma {:induction false} AddAllKeepsHandles(s: Store, latest: seq<(string, Entity)>)
    requires Valid(s)
    ensures forall id | id in s.byId :: id in AddAll(s, latest).0.byId && AddAll(s, latest).0.byId[id] == s.byId[id]
  {
    if latest != [] {
      var n := |latest| - 1;
      var before := AddAll(s, latest[..n]).0;
      AddAllKeepsHandles(s, latest[..n]);
      AddOrUpdateFrame(before, latest[n].0, latest[n].1);
    }
  }

  /** The additions and merges keep every `Index`, only append to the
      list, and collect at most one snapshot per entry. */
  lemma {:induction false} AddAllKeepsOrder(s: Store, latest: seq<(string, Entity)>)
    requires Valid(s)
    ensures var r := AddAll(s, latest);
      (forall h | h in s.index :: h in r.0.index && r.0.index[h] == s.index[h]) &&
      |s.list| <= |r.0.list| && r.0.list[..|s.list|] == s.list &&
      |r.1| <= |latest|
  {
    if latest != [] {
      var n := |latest| - 1;
      AddAllKeepsOrder(s, latest[..n]);
      var before := AddAll(s, latest[..n]);
      AddOrUpdateKeepsOrder(before.0, latest[n].0, latest[n].1);
      var after := AddAll(s, latest).0;
      assert after.list[..|s.list|] == before.0.list[..|s.list|];
    }
  }

  /** `RefreshHueObjects` when the answer is not an error: the removals,
      then the additions and merges, and the changed snapshots. */
  function Sync(s: Store, latest: seq<(string, Entity)>): (r: (Store, seq<Entity>))
    requires Valid(s)
    ensures Valid(r.0)
  {
    AddAll(Removed(s, Ids(latest)), latest)
  }

  /** What the additions append are new objects, and no object is
      forgotten. */
  lemma {:induction false} AddAllAppendsNew(s: Store, latest: seq<(string, Entity)>)
    requires Valid(s)
    ensures var r := AddAll(s, latest).0;
      s.objects.Keys <= r.objects.Keys && |s.list| <= |r.list| &&
      forall i | |s.list| <= i < |r.list| :: r.list[i] !in s.objects
  {
    if latest != [] {
      var n := |latest| - 1;
      AddAllAppendsNew(s, latest[..n]);
      var before := AddAll(s, latest[..n]).0;
      AddOrUpdateKeepsOrder(before, latest[n].0, latest[n].1);
      AddOrUpdateCases(before, latest[n].0, latest[n].1);
    }
  }

  /** `c` is one of the decoded entries, with its `Id` set. */
  predicate Decoded(c: Entity, latest: seq<(string, Entity)>)
  {
    exists k | 0 <= k < |latest| :: c == WithId(latest[k].1, latest[k].0)
  }

  lemma DecodedGrows(c: Entity, latest: seq<(string, Entity)>, n: nat)
    requires n <= |latest| && Decoded(c, latest[..n])
    ensures Decoded(c, latest)
  {
    var k :| 0 <= k < n && c == WithId(latest[..n][k].1, latest[..n][k].0);
    assert latest[..n][k] == latest[k];
  }

  /** Every snapshot the refresh reports is one of the decoded entries,
      with its `Id` set: the change list holds the decoded objects, not the
      live ones they were merged into. */
  lemma {:induction false} ChangesAreSnapshots(s: Store, latest: seq<(string, Entity)>)
    requires Valid(s)
    ensures forall c | c in AddAll(s, latest).1 :: Decoded(c, latest)
  {
    if latest != [] {
      var n := |latest| - 1;
      var front := latest[..n];
      ChangesAreSnapshots(s, front);
      var last := WithId(latest[n].1, latest[n].0);
      assert Decoded(last, latest);
      forall c | c in AddAll(s, latest).1 ensures Decoded(c, latest) {
        if c in AddAll(s, front).1 {
          DecodedGrows(c, latest, n);
        }
      }
    }
  }

  /** Every decoded entry with an id the list did not hold is reported as
      a change. */
  lemma {:induction false} NewIdsReported(s: Store, latest: seq<(string, Entity)>, k: nat)
    requires Valid(s) && DistinctIds(latest) && k < |latest| && latest[k].0 !in s.byId
    ensures WithId(latest[k].1, latest[k].0) in AddAll(s, latest).1
  {
    var n := |latest| - 1;
    var front := latest[..n];
    var before := AddAll(s, front);
    if k == n {
      AddAllKeys(s, front);
      assert latest[n].0 !in Ids(front) by {
        forall j | 0 <= j < n ensures front[j].0 != latest[n].0 {
          assert front[j] == latest[j];
        }
      }
      AddOrUpdateCases(before.0, latest[n].0, latest[n].1);
    } else {
      assert DistinctIds(front) by {
        forall i, j | 0 <= i < j < |front| ensures front[i].0 != front[j].0 {
          assert front[i] == latest[i] && front[j] == latest[j];
        }
      }
      assert front[k] == latest[k];
      NewIdsReported(s, front, k);
    }
  }

  /** After a refresh the dictionary holds exactly the decoded ids, and
      every id that stays keeps its object. */
  lemma SyncIds(s: Store, latest: seq<(string, Entity)>)
    requires Valid(s)
    ensures var r := Sync(s, latest).0;
      r.byId.Keys == Ids(latest) &&
      forall id | id in s.byId && id in Ids(latest) :: r.byId[id] == s.byId[id]
  {
    AddAllKeys(Removed(s, Ids(latest)), latest);
    AddAllKeepsHandles(Removed(s, Ids(latest)), latest);
  }

  /** After a refresh the object of every id that went is in the list no
      more. */
  lemma SyncDrops(s: Store, latest: seq<(string, Entity)>)
    requires Valid(s)
    ensures var r := Sync(s, latest).0;
      forall id | id in s.byId && id !in Ids(latest) :: s.byId[id] !in r.list
  {
    var removed := Removed(s, Ids(latest));
    AddAllAppendsNew(removed, latest);
    AddAllKeepsOrder(removed, latest);
    var r := Sync(s, latest).0;
    forall id | id in s.byId && id !in Ids(latest) ensures s.byId[id] !in r.list {
      var h := s.byId[id];
      assert h in s.objects;
      forall i | 0 <= i < |r.list| ensures r.list[i] != h {
        if i < |removed.list| {
          assert r.list[..|removed.list|][i] == r.list[i];
        }
      }
    }
  }

  /** After a refresh the objects that stay keep their `Index` and their
      order, ahead of the new ones. */
  lemma SyncKeepsOrder(s: Store, latest: seq<(string, Entity)>)
    requires Valid(s)
    ensures var r := Sync(s, latest).0; var kept := Drop(s.list, HandlesOf(s.byId, s.byId.Keys - Ids(latest)));
      (forall h | h in s.index :: h in r.index && r.index[h] == s.index[h]) &&
      |kept| <= |r.list| && r.list[..|kept|] == kept
  {
    AddAllKeepsOrder(Removed(s, Ids(latest)), latest);
  }

  // ---------------------------------------------------------------------
  // Sorting

  /** The light list's sort order. */
  datatype SortOrder = ByHueId | ByName

  /** The string an object is sorted by, `None` when it is null. */
  function KeyOf(e: Entity, p: Prop.Property): Option<string>
  {
    if p in e.fields && e.fields[p].Text? then Some(e.fields[p].s) else None
  }

  /** `SortLightBulbs` sorts by `Name` for `ByName` and by `Id` otherwise. */
  function SortKey(order: SortOrder): Prop.Property
  {
    if order == ByName then Prop.Name else Prop.Id
  }

  function Keys(s: Store, order: SortOrder): (keys: map<Handle, Option<string>>)
    requires Valid(s)
    ensures LightOrder.Keyed(s.list, keys)
  {
    map h | h in s.list :: KeyOf(s.objects[h], SortKey(order))
  }

  /** `SortLightBulbs`: the list in key order, the same objects. */
  function SortLightBulbs(s: Store, order: SortOrder): (r: seq<Handle>)
    requires Valid(s)
    ensures |r| == |s.list| && multiset(r) == multiset(s.list)
  {
    LightOrder.SortBy(s.list, Keys(s, order))
  }

  /** `Index` set to the position of each listed object, in list order, as
      an unsigned 16-bit value. */
  function Reindex(index: map<Handle, UShort>, l: seq<Handle>): (r: map<Handle, UShort>)
    ensures r.Keys == index.Keys + set h | h in l
  {
    if l == [] then index
    else
      var n := |l| - 1;
      assert (set h | h in l) == (set h | h in l[..n]) + {l[n]} by {
        assert l == l[..n] + [l[n]];
      }
      Reindex(index, l[..n])[l[n] := n % 0x1_0000]
  }

  /** In a list without repetitions each object's `Index` is its position,
      and objects not in the list keep theirs. */
  lemma {:induction false} ReindexPositions(index: map<Handle, UShort>, l: seq<Handle>)
    requires Distinct(l)
    ensures forall i | 0 <= i < |l| :: Reindex(index, l)[l[i]] == i % 0x1_0000
    ensures forall h | h in index && h !in l :: Reindex(index, l)[h] == index[h]
  {
    if l != [] {
      var n := |l| - 1;
      LightOrder.DistinctFront(l);
      ReindexPositions(index, l[..n]);
      forall i | 0 <= i < n ensures Reindex(index, l)[l[i]] == i % 0x1_0000 {
        assert l[..n][i] == l[i];
      }
    }
  }

  /** The list sorted and re-indexed: the loop that follows
      `SortLightBulbs` in `ReSortLightBulbs` and in a light refresh. */
  function Sorted(s: Store, order: SortOrder): (r: Store)
    requires Valid(s)
    ensures Valid(r)
  {
    var l := SortLightBulbs(s, order);
    SortedValid(s, order, l);
    s.(list := l, index := Reindex(s.index, l))
  }

  lemma SortedValid(s: Store, order: SortOrder, l: seq<Handle>)
    requires Valid(s) && l == SortLightBulbs(s, order)
    ensures Valid(s.(list := l, index := Reindex(s.index, l)))
  {
    LightOrder.SortByDistinct(s.list, Keys(s, order));
    forall h ensures h in l <==> h in s.list {
      assert h in l <==> h in multiset(l);
      assert h in s.list <==> h in multiset(s.list);
    }
  }

  lemma ReindexSnoc(index: map<Handle, UShort>, l: seq<Handle>, i: nat)
    requires i < |l|
    ensures Reindex(index, l[..i + 1]) == Reindex(index, l[..i])[l[i] := i % 0x1_0000]
  {
    assert l[..i + 1][..i] == l[..i];
  }

  /** After sorting, the list holds the same objects in key order (`Name`
      for `ByName`, `Id` for `ByHueId`); nothing else but the indexes
      changes. */
  lemma SortedOrder(s: Store, order: SortOrder)
    requires Valid(s)
    ensures var r := Sorted(s, order);
      multiset(r.list) == multiset(s.list) &&
      LightOrder.Keyed(r.list, Keys(s, order)) && LightOrder.SortedBy(r.list, Keys(s, order)) &&
      r.byId == s.byId && r.objects == s.objects && r.next == s.next
  {
    LightOrder.SortBySorted(s.list, Keys(s, order));
  }

  /** After sorting, every object's `Index` is its position: with fewer
      than 65536 objects the indexes are exactly 0 .. n-1. */
  lemma SortedPositions(s: Store, order: SortOrder)
    requires Valid(s)
    ensures var r := Sorted(s, order);
      (forall i | 0 <= i < |r.list| :: r.index[r.list[i]] == i % 0x1_0000) &&
      (|r.list| < 0x1_0000 ==> forall i | 0 <= i < |r.list| :: r.index[r.list[i]] == i)
  {
    var r := Sorted(s, order);
    ReindexPositions(s.index, r.list);
    if |r.list| < 0x1_0000 {
      forall i | 0 <= i < |r.list| ensures r.index[r.list[i]] == i {
        SmallRemainder(i);
      }
    }
  }

  lemma SmallRemainder(i: int)
    requires 0 <= i < 0x1_0000
    ensures i % 0x1_0000 == i
  {
  }

  // ---------------------------------------------------------------------
  // The lights' unique-id dictionary

  /** A light's `UniqueId`, `None` when it is null. */
  function UniqueIdOf(e: Entity): Option<string>
  {
    if Prop.UniqueId in e.fields && e.fields[Prop.UniqueId].Text? then Some(e.fields[Prop.UniqueId].s) else None
  }

  /** Every listed object has a unique id, and no two share one. */
  predicate UniquelyNamed(list: seq<Handle>, objects: map<Handle, Entity>)
    requires forall i | 0 <= i < |list| :: list[i] in objects
  {
    (forall i | 0 <= i < |list| :: UniqueIdOf(objects[list[i]]).Some?) &&
    (forall i, j | 0 <= i < j < |list| :: UniqueIdOf(objects[list[i]]) != UniqueIdOf(objects[list[j]]))
  }

  /** The unique ids the listed objects have. */
  function UniqueIds(list: seq<Handle>, objects: map<Handle, Entity>): set<string>
    requires forall i | 0 <= i < |list| :: list[i] in objects
  {
    set i | 0 <= i < |list| && UniqueIdOf(objects[list[i]]).Some? :: UniqueIdOf(objects[list[i]]).value
  }

  /** The dictionary a light refresh rebuilds with `Add`, light by light
      in list order, and the exception that stops it: a null unique id
      raises `ArgumentNullException`, one already added raises
      `ArgumentException`. On an exception the dictionary keeps what was
      added before it. */
  function UniqueIndex(list: seq<Handle>, objects: map<Handle, Entity>): (r: (map<string, Handle>, Option<string>))
    requires forall i | 0 <= i < |list| :: list[i] in objects
  {
    if list == [] then (map[], None)
    else
      var n := |list| - 1;
      var before := UniqueIndex(list[..n], objects);
      var uid := UniqueIdOf(objects[list[n]]);
      if before.1.Some? then before
      else if uid.None? then (before.0, Some("ArgumentNullException"))
      else if uid.value in before.0 then (before.0, Some("ArgumentException"))
      else (before.0[uid.value := list[n]], None)
  }

  lemma UniqueIdsSnoc(list: seq<Handle>, objects: map<Handle, Entity>)
    requires list != [] && forall i | 0 <= i < |list| :: list[i] in objects
    ensures var n := |list| - 1; var uid := UniqueIdOf(objects[list[n]]);
      UniqueIds(list, objects) == UniqueIds(list[..n], objects) + if uid.Some? then {uid.value} else {}
  {
    var n := |list| - 1;
    assert forall i | 0 <= i < n :: list[..n][i] == list[i];
  }

  /** The rebuild succeeds exactly when every light has a unique id of
      its own, and then maps each light's unique id to that light. */
  lemma {:induction false} UniqueIndexBuilt(list: seq<Handle>, objects: map<Handle, Entity>)
    requires forall i | 0 <= i < |list| :: list[i] in objects
    ensures var r := UniqueIndex(list, objects);
      (r.1.None? <==> UniquelyNamed(list, objects)) &&
      (r.1.None? ==> r.0.Keys == UniqueIds(list, objects)) &&
      (r.1.None? ==> forall i | 0 <= i < |list| :: r.0[UniqueIdOf(objects[list[i]]).value] == list[i])
  {
    if list != [] {
      var n := |list| - 1;
      var front := list[..n];
      UniqueIndexBuilt(front, objects);
      UniqueIdsSnoc(list, objects);
      var before := UniqueIndex(front, objects);
      var uid := UniqueIdOf(objects[list[n]]);
      assert UniquelyNamed(list, objects) ==> UniquelyNamed(front, objects) by {
        if UniquelyNamed(list, objects) {
          forall i, j | 0 <= i < j < n ensures UniqueIdOf(objects[front[i]]) != UniqueIdOf(objects[front[j]]) {
            assert front[i] == list[i] && front[j] == list[j];
          }
        }
      }
      if before.1.None? && uid.Some? && uid.value in before.0 {
        var i :| 0 <= i < n && UniqueIdOf(objects[front[i]]).Some? && UniqueIdOf(objects[front[i]]).value == uid.value;
        assert front[i] == list[i];
      } else if before.1.None? && uid.Some? {
        OthersDiffer(list, objects, before.0);
        forall i | 0 <= i < n ensures UniqueIdOf(objects[list[i]]).value in before.0 && before.0[UniqueIdOf(objects[list[i]]).value] == list[i] {
          assert front[i] == list[i];
        }
        UniqueIndexExtended(list, objects, before.0);
      }
    }
  }

  /** Adding the last light's unique id keeps every earlier light's entry. */
  lemma UniqueIndexExtended(list: seq<Handle>, objects: map<Handle, Entity>, before: map<string, Handle>)
    requires list != [] && forall i | 0 <= i < |list| :: list[i] in objects
    requires UniquelyNamed(list, objects)
    requires forall i | 0 <= i < |list| - 1 ::
      UniqueIdOf(objects[list[i]]).value in before && before[UniqueIdOf(objects[list[i]]).value] == list[i]
    ensures var n := |list| - 1;
      forall i | 0 <= i < |list| :: before[UniqueIdOf(objects[list[n]]).value := list[n]][UniqueIdOf(objects[list[i]]).value] == list[i]
  {
  }

  lemma OthersDiffer(list: seq<Handle>, objects: map<Handle, Entity>, before: map<string, Handle>)
    requires list != [] && forall i | 0 <= i < |list| :: list[i] in objects
    requires var n := |list| - 1;
      UniquelyNamed(list[..n], objects) && before.Keys == UniqueIds(list[..n], objects) &&
      UniqueIdOf(objects[list[n]]).Some? && UniqueIdOf(objects[list[n]]).value !in before
    ensures UniquelyNamed(list, objects)
  {
    var n := |list| - 1;
    var front := list[..n];
    var uid := UniqueIdOf(objects[list[n]]).value;
    forall i | 0 <= i < n ensures UniqueIdOf(objects[list[i]]).Some? && UniqueIdOf(objects[list[i]]).value != uid {
      assert front[i] == list[i];
      assert UniqueIdOf(objects[list[i]]).value in UniqueIds(front, objects);
    }
    forall i, j | 0 <= i < j < |list| ensures UniqueIdOf(objects[list[i]]) != UniqueIdOf(objects[list[j]]) {
      if j < n {
        assert front[i] == list[i] && front[j] == list[j];
      }
    }
  }

  lemma UniqueIndexSnoc(list: seq<Handle>, objects: map<Handle, Entity>, i: nat)
    requires i < |list| && forall k | 0 <= k < |list| :: list[k] in objects
    ensures var before := UniqueIndex(list[..i], objects);
      var uid := UniqueIdOf(objects[list[i]]);
      UniqueIndex(list[..i + 1], objects) ==
        if before.1.Some? then before
        else if uid.None? then (before.0, Some("ArgumentNullException"))
        else if uid.value in before.0 then (before.0, Some("ArgumentException"))
        else (before.0[uid.value := list[i]], None)
  {
    assert list[..i + 1][..i] == list[..i];
  }

  /** Once an exception stops the rebuild, later lights change nothing. */
  lemma {:induction false} UniqueIndexStops(list: seq<Handle>, objects: map<Handle, Entity>, k: nat)
    requires k <= |list| && forall i | 0 <= i < |list| :: list[i] in objects
    requires UniqueIndex(list[..k], objects).1.Some?
    ensures UniqueIndex(list, objects) == UniqueIndex(list[..k], objects)
  {
    if k < |list| {
      var n := |list| - 1;
      assert list[..n][..k] == list[..k];
      UniqueIndexStops(list[..n], objects, k);
    } else {
      assert list[..k] == list;
    }
  }
}
