/** The client's object lists as it keeps them: the list, the dictionary
    by id and each object's `Index` are fields that `RefreshHueObjects`,
    `RefreshHueObject` and `AddOrUpdateHueObject` update in place, and the
    light list also keeps a dictionary by unique id and a sort order. Each
    method is proved to leave the state that `Collections` specifies. */
module HueObjectLists {
  import opened Common
  import opened Entities
  import opened Collections
  import HueObjects
  import opened BridgeResults
  import Text
  import Progress

  /** The store a list refresh leaves behind: unchanged on an error
      answer, synchronised otherwise. */
  function Refreshed(s: Store, response: string, decoded: Option<seq<Element>>, latest: seq<(string, Entity)>): (r: Store)
    requires Valid(s)
    ensures Valid(r)
  {
    if ErrorAnswer(response, decoded) then s else Sync(s, latest).0
  }

  class HueObjectList {
    var list: seq<Handle>
    var byId: map<string, Handle>
    var objects: map<Handle, Entity>
    var index: map<Handle, UShort>
    var next: Handle

    function Contents(): Store
      reads this
    {
      Store(list, byId, objects, index, next)
    }

    constructor ()
      ensures Contents() == Store([], map[], map[], map[], 0) && Valid(Contents())
    {
      list, byId, objects, index, next := [], map[], map[], map[], 0;
    }

    /** `AddOrUpdateHueObject`. */
    method AddOrUpdateHueObject(id: string, e: Entity) returns (changed: bool)
      requires Valid(Contents())
      modifies this
      ensures (Contents(), changed) == AddOrUpdate(old(Contents()), id, e)
    {
      var snapshot := WithId(e, id);
      if id in byId {
        var h := byId[id];
        var merged;
        merged, changed := HueObjects.UpdateFrom(objects[h], snapshot);
        objects := objects[h := merged];
      } else {
        var h := next;
        next := next + 1;
        objects := objects[h := snapshot];
        list := list + [h];
        index := index[h := (|list| - 1) % 0x1_0000];
        byId := byId[id := h];
        changed := true;
      }
    }

    /** The first loop of `RefreshHueObjects`: over a copy of the
        dictionary, every id the bridge no longer has is removed from the
        dictionary and its object from the list. */
    method RemoveMissing(ids: set<string>)
      requires Valid(Contents())
      modifies this
      ensures Contents() == Removed(old(Contents()), ids)
    {
      ghost var s0 := Contents();
      var existing := byId;
      var todo := existing.Keys;
      ghost var done: set<string> := {};
      RemoveStart(s0, ids);
      while todo != {}
        invariant existing == s0.byId && Valid(s0)
        invariant todo + done == existing.Keys && todo !! done
        invariant Contents() == RemovedSoFar(s0, ids, done)
        decreases |todo|
      {
        var id :| id in todo;
        RemoveIfMissing(ids, id, existing[id], s0, done);
        Progress.Move(todo, done, existing.Keys, id);
        todo, done := todo - {id}, done + {id};
      }
    }

    /** One turn of the removal loop. */
    method RemoveIfMissing(ids: set<string>, id: string, h: Handle, ghost s0: Store, ghost done: set<string>)
      requires Valid(s0) && id in s0.byId && id !in done && h == s0.byId[id]
      requires Contents() == RemovedSoFar(s0, ids, done)
      modifies this
      ensures Contents() == RemovedSoFar(s0, ids, done + {id})
    {
      RemoveStep(s0, ids, done, id);
      if id !in ids {
        byId := byId - {id};
        list := RemoveFirst(list, h);
      }
    }

    /** The second loop of `RefreshHueObjects`: every decoded entry added
        or merged in order, collecting the snapshots that changed. */
    method AddOrUpdateAll(latest: seq<(string, Entity)>) returns (changes: seq<Entity>)
      requires Valid(Contents())
      modifies this
      ensures (Contents(), changes) == AddAll(old(Contents()), latest)
    {
      ghost var s0 := Contents();
      changes := [];
      var i := 0;
      while i < |latest|
        invariant 0 <= i <= |latest|
        invariant Valid(Contents())
        invariant (Contents(), changes) == AddAll(s0, latest[..i])
      {
        AddAllSnoc(s0, latest, i);
        var changed := AddOrUpdateHueObject(latest[i].0, latest[i].1);
        if changed {
          changes := changes + [WithId(latest[i].1, latest[i].0)];
        }
        i := i + 1;
      }
      assert latest[..i] == latest;
    }

    /** `RefreshHueObjects`: on an answer that reports errors, nothing
        changes and there is no change list (`null`); otherwise the list
        is synchronised with the decoded dictionary `latest` and the
        snapshots that changed are returned. */
    method RefreshHueObjects(channel: ErrorChannel, response: string, decoded: Option<seq<Element>>,
                             latest: seq<(string, Entity)>) returns (changes: Option<seq<Entity>>)
      requires Valid(Contents())
      modifies this, channel
      ensures channel.raised == old(channel.raised) + AnswerReports(response, decoded)
      ensures Contents() == Refreshed(old(Contents()), response, decoded, latest)
      ensures changes == if ErrorAnswer(response, decoded) then None else Some(Sync(old(Contents()), latest).1)
    {
      var anyErrors := channel.CheckForErrors(response, decoded);
      if anyErrors {
        return None;
      }
      var ids := set k | 0 <= k < |latest| :: latest[k].0;
      RemoveMissing(ids);
      var all := AddOrUpdateAll(latest);
      changes := Some(all);
    }

    /** `RefreshHueObject`: on an answer that reports errors, or a
        snapshot that decodes as null, nothing changes and the answer is
        false; otherwise the snapshot is added or merged under `id`. */
    method RefreshHueObject(channel: ErrorChannel, id: string, response: string, decoded: Option<seq<Element>>,
                            snapshot: Option<Entity>) returns (changed: bool)
      requires Valid(Contents())
      modifies this, channel
      ensures channel.raised == old(channel.raised) + AnswerReports(response, decoded)
      ensures if ErrorAnswer(response, decoded) || snapshot.None? then !changed && Contents() == old(Contents())
              else (Contents(), changed) == AddOrUpdate(old(Contents()), id, snapshot.value)
    {
      var anyErrors := channel.CheckForErrors(response, decoded);
      if anyErrors {
        return false;
      }
      if snapshot.None? {
        return false;
      }
      changed := AddOrUpdateHueObject(id, snapshot.value);
    }

    /** The list sorted by `SortLightBulbs` and every object's `Index` set
        to its position. */
    method SortAndIndex(order: SortOrder)
      requires Valid(Contents())
      modifies this
      ensures Contents() == Sorted(old(Contents()), order)
    {
      list := SortLightBulbs(Contents(), order);
      IndexInListOrder();
    }

    /** Each listed object's `Index` set to its position, in list order. */
    method IndexInListOrder()
      modifies this
      ensures index == Reindex(old(index), list)
      ensures list == old(list) && byId == old(byId) && objects == old(objects) && next == old(next)
    {
      ghost var start := index;
      var i := 0;
      while i < |list|
        invariant 0 <= i <= |list|
        invariant index == Reindex(start, list[..i])
        invariant list == old(list) && byId == old(byId) && objects == old(objects) && next == old(next)
      {
        ReindexSnoc(start, list, i);
        index := index[list[i] := i % 0x1_0000];
        i := i + 1;
      }
      assert list[..i] == list;
    }
  }

  /** The client's lights: the object list, the dictionary by unique id
      that a refresh rebuilds, and the sort order. */
  class LightBulbList {
    const lights: HueObjectList
    var byUniqueId: map<string, Handle>
    var sortOrder: SortOrder

    /** The lights start sorted by name. */
    constructor (lights: HueObjectList)
      ensures this.lights == lights && byUniqueId == map[] && sortOrder == ByName
    {
      this.lights := lights;
      byUniqueId := map[];
      sortOrder := ByName;
    }

    /** The unique-id dictionary rebuilt from the list, light by light. */
    method RebuildUniqueIds() returns (failure: Option<string>)
      requires Valid(lights.Contents())
      modifies this
      ensures (byUniqueId, failure) == UniqueIndex(lights.list, lights.objects)
      ensures sortOrder == old(sortOrder)
    {
      var list, objects := lights.list, lights.objects;
      byUniqueId := map[];
      var i := 0;
      while i < |list|
        invariant 0 <= i <= |list|
        invariant UniqueIndex(list[..i], objects) == (byUniqueId, None)
        invariant sortOrder == old(sortOrder)
      {
        var h := list[i];
        var uid := UniqueIdOf(objects[h]);
        UniqueIndexSnoc(list, objects, i);
        if uid.None? {
          UniqueIndexStops(list, objects, i + 1);
          return Some("ArgumentNullException");
        }
        if uid.value in byUniqueId {
          UniqueIndexStops(list, objects, i + 1);
          return Some("ArgumentException");
        }
        byUniqueId := byUniqueId[uid.value := h];
        i := i + 1;
      }
      assert list[..i] == list;
      failure := None;
    }

    /** `ExecuteRefreshLightBulbs`: the list refreshed, the unique-id
        dictionary rebuilt (an exception stops the operation there), then,
        unless the order is `ByHueId`, the list sorted and re-indexed. The
        change list is the refresh's. */
    method ExecuteRefreshLightBulbs(channel: ErrorChannel, response: string, decoded: Option<seq<Element>>,
                                    latest: seq<(string, Entity)>) returns (changes: Option<seq<Entity>>, failure: Option<string>)
      requires Valid(lights.Contents())
      modifies this, lights, channel
      ensures channel.raised == old(channel.raised) + AnswerReports(response, decoded)
      ensures changes == if ErrorAnswer(response, decoded) then None else Some(Sync(old(lights.Contents()), latest).1)
      ensures var s := Refreshed(old(lights.Contents()), response, decoded, latest);
        (byUniqueId, failure) == UniqueIndex(s.list, s.objects) &&
        lights.Contents() == if failure.None? && sortOrder != ByHueId then Sorted(s, sortOrder) else s
      ensures sortOrder == old(sortOrder)
    {
      changes := lights.RefreshHueObjects(channel, response, decoded, latest);
      failure := RebuildUniqueIds();
      if failure.Some? {
        return;
      }
      if sortOrder != ByHueId {
        lights.SortAndIndex(sortOrder);
      }
    }

    /** `RefreshLightBulbs`: the refresh, with an exception reported on
        the error channel. */
    method RefreshLightBulbs(channel: ErrorChannel, response: string, decoded: Option<seq<Element>>,
                             latest: seq<(string, Entity)>)
      requires Valid(lights.Contents())
      modifies this, lights, channel
      ensures var s := Refreshed(old(lights.Contents()), response, decoded, latest);
        var failure := UniqueIndex(s.list, s.objects).1;
        var reported := old(channel.raised) + AnswerReports(response, decoded);
        channel.raised == if failure.Some? then reported + [Message(failure.value)] else reported
      ensures sortOrder == old(sortOrder)
    {
      var changes, failure := ExecuteRefreshLightBulbs(channel, response, decoded, latest);
      if failure.Some? {
        channel.Raise(Message(failure.value));
      }
    }

    /** `ReSortLightBulbs`: the list sorted and re-indexed whatever the
        order. */
    method ReSortLightBulbs()
      requires Valid(lights.Contents())
      modifies lights
      ensures lights.Contents() == Sorted(old(lights.Contents()), sortOrder)
    {
      lights.SortAndIndex(sortOrder);
    }
  }
}
