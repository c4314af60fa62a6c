/**
 * `GameObjectTracker` (StateFluxer/Assets/Game/GameObjectTracker.cs): the client's per-object
 * change tracking. The host records a pending create, the latest update and a pending destroy for
 * every tracked object, marks it dirty, and a periodic drain sends one record per dirty object;
 * a guest applies the host's batches to its own map.
 *
 * A `ChangeTracker` is a record here, and the tracking map a `map` field the methods reassign.
 * Game objects are opaque handles named after the object they show.
 */
module ObjectTracking {
  import opened Wrappers
  import opened Model
  import opened Messages
  import Unity

  /** A Unity game object, known only by the name it is given. */
  datatype GameObject = GameObject(name: string)

  /** One object's tracking record: the three pending change records and the dirty flag. */
  datatype Tracker = Tracker(
    create: Option<Change2d>,
    update: Option<Change2d>,
    destroy: Option<Change2d>,
    dirty: bool,
    gameObject: Option<GameObject>)

  /** The text `Dictionary.Add` throws for a key already present. */
  const DuplicateKeyText: string := "An item with the same key has already been added."

  /** A dirty tracker always has a record to send. */
  predicate Wellformed(t: Tracker) {
    t.dirty ==> t.create.Some? || t.destroy.Some? || t.update.Some?
  }

  /** `new Transform2d()`: no position and no velocity yet; rotation, spin and scale are 0. */
  function NewTransform(): (t: Transform2d)
    ensures t.Pos.None? && t.Vel.None?
    ensures t.Rot == 0.0 && t.RotV == 0.0 && t.Scale == 0.0
  {
    Transform2d(None, None, 0.0, 0.0, 0.0)
  }

  /**
   * The update record the host starts for `name`: `new Change2d()` keeps the default event, and
   * its transform has no position until `OnTrackedObjectChange` fills one in.
   */
  function NewUpdate(name: string): (c: Change2d)
    ensures c.ObjectID == name && c.Event == Created && c.Transform == Some(NewTransform())
    ensures c.Transform.value.Pos.None? && c.Transform.value.Vel.None?
    ensures c.TypeID.None? && c.Attributes.None?
  {
    Change2d(name, None, Created, Some(NewTransform()), None)
  }

  // ---------------------------------------------------------------- the drain

  /** The one record a dirty tracker contributes: its create, else its destroy, else its update. */
  function Emit(t: Tracker): (c: Change2d)
    requires Wellformed(t) && t.dirty
    ensures t.create.Some? ==> c == t.create.value
    ensures t.create.None? && t.destroy.Some? ==> c == t.destroy.value
    ensures t.create.None? && t.destroy.None? ==> Some(c) == t.update
  {
    if t.create.Some? then t.create.value
    else if t.destroy.Some? then t.destroy.value
    else t.update.value
  }

  /** A visited tracker: clean, and without the record it sent unless that was its update. */
  function Visit(t: Tracker): (v: Tracker)
    ensures !v.dirty && v.update == t.update && v.gameObject == t.gameObject
    ensures t.create.Some? ==> v.create.None? && v.destroy == t.destroy
    ensures t.create.None? ==> v.create.None? && v.destroy.None?
  {
    if t.create.Some? then t.(dirty := false, create := None)
    else if t.destroy.Some? then t.(dirty := false, destroy := None)
    else t.(dirty := false)
  }

  /** A tracker whose visit sends its destroy. */
  predicate Retires(t: Tracker) {
    t.dirty && t.create.None? && t.destroy.Some?
  }

  /** The ids the drain removes: those named by the destroys it sends. */
  function RetiredIds(m: map<string, Tracker>): (ids: set<string>)
    ensures forall k :: k in m && Retires(m[k]) ==> m[k].destroy.value.ObjectID in ids
    ensures forall id :: id in ids ==> exists k :: k in m && Retires(m[k]) && m[k].destroy.value.ObjectID == id
  {
    set k | k in m && Retires(m[k]) :: m[k].destroy.value.ObjectID
  }

  /** The records a drain sends, visiting the trackers in `order`. */
  function Emitted(m: map<string, Tracker>, order: seq<string>): (batch: seq<Change2d>)
    requires forall k :: k in order ==> k in m && Wellformed(m[k])
    ensures |batch| <= |order|
    ensures batch == [] <==> forall j :: 0 <= j < |order| ==> !m[order[j]].dirty
    decreases |order|
  {
    if order == [] then []
    else
      var last := m[order[|order| - 1]];
      var prefix := order[..|order| - 1];
      assert forall j :: 0 <= j < |prefix| ==> prefix[j] == order[j];
      Emitted(m, prefix) + if last.dirty then [Emit(last)] else []
  }

  /**
   * The map a drain leaves: every dirty tracker visited, then every id named by a sent destroy
   * removed. It does not depend on the visiting order.
   */
  function Drained(m: map<string, Tracker>): (d: map<string, Tracker>)
    ensures d.Keys == m.Keys - RetiredIds(m)
    ensures forall k :: k in d ==> !d[k].dirty
    ensures forall k :: k in d && !m[k].dirty ==> d[k] == m[k]
    ensures forall k :: k in d && m[k].dirty ==> d[k] == Visit(m[k])
  {
    map k | k in m && k !in RetiredIds(m) :: VisitIfDirty(m[k])
  }

  /** An order that visits every tracked object exactly once. */
  ghost predicate Enumerates(m: map<string, Tracker>, order: seq<string>) {
    (forall k :: k in order <==> k in m)
    && forall i, j :: 0 <= i < j < |order| ==> order[i] != order[j]
  }

  /** A drain leaves nothing dirty, so a second drain with no event in between sends nothing. */
  lemma SecondDrainSendsNothing(m: map<string, Tracker>, order: seq<string>)
    requires forall k :: k in m ==> Wellformed(m[k])
    requires forall k :: k in order ==> k in Drained(m)
    ensures Emitted(Drained(m), order) == []
  {
    forall k | k in Drained(m)
      ensures Wellformed(Drained(m)[k])
    {
    }
  }

  /**
   * A tracker with both a create and a destroy pending sends only the create; the destroy stays
   * pending with the tracker clean, so it goes out only after the tracker is marked dirty again.
   */
  lemma CreateThenDestroyDoesNotCoalesce(m: map<string, Tracker>, k: string)
    requires k in m && m[k].dirty && m[k].create.Some? && m[k].destroy.Some?
    requires forall k' :: k' in m ==> Wellformed(m[k'])
    requires k !in RetiredIds(m)
    ensures Emit(m[k]) == m[k].create.value
    ensures k in Drained(m) && Drained(m)[k].destroy == m[k].destroy && !Drained(m)[k].dirty
  {
  }

  /** The ids named by the destroys sent by the trackers under `keys`, in visiting order. */
  function RetiredAmong(m: map<string, Tracker>, keys: seq<string>): (ids: seq<string>)
    requires forall k :: k in keys ==> k in m
    decreases |keys|
  {
    if keys == [] then []
    else
      var last := m[keys[|keys| - 1]];
      var prefix := keys[..|keys| - 1];
      assert forall k :: k in prefix ==> k in keys;
      RetiredAmong(m, prefix) + if Retires(last) then [last.destroy.value.ObjectID] else []
  }

  /** The collected ids are those of the retiring trackers among `keys`. */
  lemma {:induction false} RetiredAmongMembers(m: map<string, Tracker>, keys: seq<string>, id: string)
    requires forall k :: k in keys ==> k in m
    ensures id in RetiredAmong(m, keys) <==>
      exists k :: k in keys && Retires(m[k]) && m[k].destroy.value.ObjectID == id
    decreases |keys|
  {
    if keys != [] {
      var prefix := keys[..|keys| - 1];
      assert keys == prefix + [keys[|keys| - 1]];
      RetiredAmongMembers(m, prefix, id);
    }
  }

  /** The tracker a drain leaves under a key it visited. */
  function VisitIfDirty(t: Tracker): (v: Tracker)
    ensures !v.dirty
  {
    if t.dirty then Visit(t) else t
  }

  /** One more visited key: the batch grows by that tracker's record, if it is dirty. */
  lemma EmittedSnoc(m: map<string, Tracker>, order: seq<string>, i: nat)
    requires i < |order|
    requires forall k :: k in order ==> k in m && Wellformed(m[k])
    ensures Emitted(m, order[..i + 1]) ==
      Emitted(m, order[..i]) + if m[order[i]].dirty then [Emit(m[order[i]])] else []
  {
    assert order[..i + 1][..i] == order[..i];
  }

  /** One more visited key: the retired ids grow by that tracker's destroy, if it sends it. */
  lemma RetiredSnoc(m: map<string, Tracker>, order: seq<string>, i: nat)
    requires i < |order|
    requires forall k :: k in order ==> k in m
    ensures RetiredAmong(m, order[..i + 1]) ==
      RetiredAmong(m, order[..i]) + if Retires(m[order[i]]) then [m[order[i]].destroy.value.ObjectID] else []
  {
    assert order[..i + 1][..i] == order[..i];
  }

  /** What the first loop of a drain has done after visiting `order[..i]`. */
  ghost predicate VisitedUpTo(m0: map<string, Tracker>, order: seq<string>, i: nat,
                              m: map<string, Tracker>, changes: seq<Change2d>, removeIds: seq<string>)
    requires forall k :: k in m0 ==> Wellformed(m0[k])
    requires Enumerates(m0, order)
  {
    && i <= |order|
    && m.Keys == m0.Keys
    && (forall j :: 0 <= j < i ==> m[order[j]] == VisitIfDirty(m0[order[j]]))
    && (forall j :: i <= j < |order| ==> m[order[j]] == m0[order[j]])
    && changes == Emitted(m0, order[..i])
    && removeIds == RetiredAmong(m0, order[..i])
  }

  /** One iteration of the first loop: the tracker under `order[i]`. */
  method VisitNext(ghost m0: map<string, Tracker>, order: seq<string>, i: nat,
                   m: map<string, Tracker>, changes: seq<Change2d>, removeIds: seq<string>)
    returns (m': map<string, Tracker>, changes': seq<Change2d>, removeIds': seq<string>)
    requires forall k :: k in m0 ==> Wellformed(m0[k])
    requires Enumerates(m0, order) && i < |order|
    requires VisitedUpTo(m0, order, i, m, changes, removeIds)
    ensures VisitedUpTo(m0, order, i + 1, m', changes', removeIds')
  {
    var key := order[i];
    var t := m[key];
    EmittedSnoc(m0, order, i);
    RetiredSnoc(m0, order, i);
    m', changes', removeIds' := m, changes, removeIds;
    if t.dirty {
      if t.create.Some? {
        changes' := changes + [t.create.value];
      } else if t.destroy.Some? {
        changes' := changes + [t.destroy.value];
        removeIds' := removeIds + [t.destroy.value.ObjectID];
      } else {
        changes' := changes + [t.update.value];
      }
      m' := m[key := Visit(t)];
    }
  }

  /**
   * The first loop of a drain: every dirty tracker, in `order`, gives up one record and is
   * visited; the ids of the destroys it sends are collected.
   */
  method VisitDirty(m0: map<string, Tracker>, order: seq<string>)
    returns (m: map<string, Tracker>, changes: seq<Change2d>, removeIds: seq<string>)
    requires forall k :: k in m0 ==> Wellformed(m0[k])
    requires Enumerates(m0, order)
    ensures m.Keys == m0.Keys
    ensures forall k :: k in m0 ==> m[k] == VisitIfDirty(m0[k])
    ensures changes == Emitted(m0, order)
    ensures forall id :: id in removeIds <==> id in RetiredIds(m0)
  {
    m, changes, removeIds := m0, [], [];
    var i := 0;
    while i < |order|
      invariant i <= |order|
      invariant VisitedUpTo(m0, order, i, m, changes, removeIds)
    {
      m, changes, removeIds := VisitNext(m0, order, i, m, changes, removeIds);
      i := i + 1;
    }
    assert order[..|order|] == order;
    forall id
      ensures id in removeIds <==> id in RetiredIds(m0)
    {
      RetiredAmongMembers(m0, order, id);
    }
    forall k | k in m0
      ensures m[k] == VisitIfDirty(m0[k])
    {
      var j :| 0 <= j < |order| && order[j] == k;
    }
  }

  /** The second loop of a drain: `Remove` each collected id; an id not present is passed over. */
  method RemoveKeys(m1: map<string, Tracker>, ids: seq<string>) returns (m: map<string, Tracker>)
    ensures m.Keys == m1.Keys - set r | r in ids
    ensures forall k :: k in m ==> m[k] == m1[k]
  {
    m := m1;
    var j := 0;
    while j < |ids|
      invariant 0 <= j <= |ids|
      invariant m.Keys == m1.Keys - set r | r in ids[..j]
      invariant forall k :: k in m ==> m[k] == m1[k]
    {
      assert ids[..j + 1] == ids[..j] + [ids[j]];
      m := m - {ids[j]};
      j := j + 1;
    }
    assert ids[..|ids|] == ids;
  }

  class GameObjectTracker {
    var trackingMap: map<string, Tracker>

    ghost predicate Valid()
      reads this
    {
      forall k :: k in trackingMap ==> Wellformed(trackingMap[k])
    }

    constructor ()
      ensures Valid() && trackingMap == map[]
    {
      trackingMap := map[];
    }

    /** `Count()`. */
    function Count(): (n: nat)
      reads this
      ensures n == |trackingMap.Keys|
    {
      |trackingMap|
    }

    /**
     * The body of one `SendStateAsHost` tick: visit the dirty trackers in `order` (the map's
     * enumeration order), collect one record from each, remove the ids whose destroy went out,
     * and send one `HostStateChangeMessage` holding the whole batch unless it is empty.
     */
    method Drain(order: seq<string>) returns (batch: seq<Change2d>, sent: Option<Message>)
      requires Valid() && Enumerates(trackingMap, order)
      modifies this
      ensures Valid()
      ensures batch == Emitted(old(trackingMap), order)
      ensures trackingMap == Drained(old(trackingMap))
      ensures sent == if batch == [] then None else Some(HostStateChangeMessage(StateChange(batch)))
    {
      var visited, changes, removeIds := VisitDirty(trackingMap, order);
      var left := RemoveKeys(visited, removeIds);
      assert left.Keys == Drained(trackingMap).Keys;
      trackingMap := left;
      batch := changes;
      sent := if |changes| > 0 then Some(HostStateChangeMessage(StateChange(changes))) else None;
    }

    /**
     * `TrackCreate`: the tracker goes in under its create's ObjectID. A tracker without a create
     * throws, as does an id already tracked; the dirty flag is left as given.
     */
    method TrackCreate(tracker: Tracker) returns (r: Result<()>)
      requires Valid()
      modifies this
      ensures Valid()
      ensures tracker.create.None? ==> r == Failure(NullReference()) && trackingMap == old(trackingMap)
      ensures tracker.create.Some? && tracker.create.value.ObjectID in old(trackingMap) ==>
        r == Failure(Raise(DuplicateKeyText)) && trackingMap == old(trackingMap)
      ensures tracker.create.Some? && tracker.create.value.ObjectID !in old(trackingMap) ==>
        r.Success? && trackingMap == old(trackingMap)[tracker.create.value.ObjectID := tracker]
        && Count() == old(Count()) + 1
    {
      if tracker.create.None? {
        return Failure(NullReference());
      }
      var id := tracker.create.value.ObjectID;
      if id in trackingMap {
        return Failure(Raise(DuplicateKeyText));
      }
      trackingMap := trackingMap[id := tracker];
      r := Success(());
    }

    /**
     * `OnTrackedObjectChange`, as host: the tracker's update record (started if absent) takes the
     * new position, velocity, z rotation and spin, is marked `Updated`, and the tracker becomes
     * dirty. A guest, or an untracked name, changes nothing. An update record without a
     * transform throws once its event has been set.
     */
    method OnTrackedObjectChange(name: string, pos: Unity.Vector3, vel: Unity.Vector3, eulerAngles: Unity.Vector3,
                                 angularVelocity: Float, isHosting: bool) returns (r: Result<()>)
      requires Valid()
      modifies this
      ensures Valid()
      ensures name !in old(trackingMap) || !isHosting ==> r.Success? && trackingMap == old(trackingMap)
      ensures name in old(trackingMap) && isHosting ==>
        var t := old(trackingMap)[name];
        var u := if t.update.None? then NewUpdate(name) else t.update.value;
        if u.Transform.None? then
          r == Failure(NullReference()) && trackingMap == old(trackingMap)[name := t.(update := Some(u.(Event := Updated)))]
        else
          var moved := u.Transform.value.(Pos := Some(Unity.Vector3Convert2d(pos)), Vel := Some(Unity.Vector3Convert2d(vel)),
                                          Rot := eulerAngles.z, RotV := angularVelocity);
          r.Success? && trackingMap == old(trackingMap)[name := t.(update := Some(u.(Event := Updated, Transform := Some(moved))), dirty := true)]
    {
      if name !in trackingMap || !isHosting {
        return Success(());
      }
      var t := trackingMap[name];
      var u := if t.update.None? then NewUpdate(name) else t.update.value;
      u := u.(Event := Updated);
      if u.Transform.None? {
        trackingMap := trackingMap[name := t.(update := Some(u))];
        return Failure(NullReference());
      }
      var moved := u.Transform.value.(Pos := Some(Unity.Vector3Convert2d(pos)), Vel := Some(Unity.Vector3Convert2d(vel)),
                                      Rot := eulerAngles.z, RotV := angularVelocity);
      trackingMap := trackingMap[name := t.(update := Some(u.(Transform := Some(moved))), dirty := true)];
      r := Success(());
    }

    /**
     * `OnTrackedObjectDestroy`: a host records a destroy and marks the tracker dirty; a guest
     * drops the tracker at once; an untracked name changes nothing.
     */
    method OnTrackedObjectDestroy(name: string, isHosting: bool)
      requires Valid()
      modifies this
      ensures Valid()
      ensures name !in old(trackingMap) ==> trackingMap == old(trackingMap)
      ensures name in old(trackingMap) && isHosting ==>
        trackingMap == old(trackingMap)[name := old(trackingMap)[name].(
          destroy := Some(Change2d(name, None, Destroyed, None, None)), dirty := true)]
      ensures name in old(trackingMap) && !isHosting ==> trackingMap == old(trackingMap) - {name}
    {
      if name in trackingMap {
        if isHosting {
          var t := trackingMap[name];
          trackingMap := trackingMap[name := t.(destroy := Some(Change2d(name, None, Destroyed, None, None)), dirty := true)];
        } else {
          trackingMap := trackingMap - {name};
        }
      }
    }

    /**
     * `EnqueuePosChangeAsHost`. The update record is read before it is started, so a tracker
     * without one gets a fresh record and the call then throws. A record without a transform or
     * without a position (the fresh one among them) throws too, changing nothing. Otherwise a
     * move of the position marks the record `Updated` with the new position and the tracker
     * dirty.
     */
    method EnqueuePosChangeAsHost(objectId: string, pos: Unity.Vector3) returns (r: Result<()>)
      requires Valid()
      modifies this
      ensures Valid()
      ensures objectId !in old(trackingMap) ==> r.Success? && trackingMap == old(trackingMap)
      ensures objectId in old(trackingMap) && old(trackingMap)[objectId].update.None? ==>
        r == Failure(NullReference())
        && trackingMap == old(trackingMap)[objectId := old(trackingMap)[objectId].(update := Some(NewUpdate(objectId)))]
      ensures objectId in old(trackingMap) && old(trackingMap)[objectId].update.Some? ==>
        var t := old(trackingMap)[objectId];
        var c := t.update.value;
        if c.Transform.None? || c.Transform.value.Pos.None? then
          r == Failure(NullReference()) && trackingMap == old(trackingMap)
        else if c.Transform.value.Pos.value.X == pos.x && c.Transform.value.Pos.value.Y == pos.y then
          r.Success? && trackingMap == old(trackingMap)
        else
          r.Success? && trackingMap == old(trackingMap)[objectId := t.(
            update := Some(c.(Event := Updated, Transform := Some(c.Transform.value.(Pos := Some(Unity.Vector3Convert2d(pos)))))),
            dirty := true)]
    {
      if objectId !in trackingMap {
        return Success(());
      }
      var t := trackingMap[objectId];
      if t.update.None? {
        trackingMap := trackingMap[objectId := t.(update := Some(NewUpdate(objectId)))];
        return Failure(NullReference());
      }
      var c := t.update.value;
      if c.Transform.None? || c.Transform.value.Pos.None? {
        return Failure(NullReference());
      }
      var at := c.Transform.value.Pos.value;
      if at.X != pos.x || at.Y != pos.y {
        var moved := c.(Event := Updated, Transform := Some(c.Transform.value.(Pos := Some(Unity.Vector3Convert2d(pos)))));
        trackingMap := trackingMap[objectId := t.(update := Some(moved), dirty := true)];
      }
      r := Success(());
    }

    /**
     * `OnHostStateChanged`: a host ignores the batch; a guest applies it in order (see
     * `Receive`). An object that cannot be built ends the batch with the changes before it
     * applied.
     */
    method OnHostStateChanged(isHosting: bool, changes: seq<Change2d>, prefabs: set<string>) returns (r: Result<()>)
      requires Valid()
      modifies this
      ensures Valid()
      ensures isHosting ==> r.Success? && trackingMap == old(trackingMap)
      ensures !isHosting ==> Received(trackingMap, r) == ReceiveAll(old(trackingMap), changes, prefabs)
    {
      if isHosting {
        return Success(());
      }
      var out := Receive(trackingMap, changes, prefabs);
      trackingMap, r := out.m, out.r;
    }
  }

  // ---------------------------------------------------------------- the guest side

  /** The ArgumentException `Object.Instantiate` throws when `Resources.Load` found no prefab. */
  const InstantiateNullText: string := "The Object you want to instantiate is null."

  /**
   * `StateCreateGameObject`, as far as it touches the map: the object is named after the change.
   * A type with no prefab makes `Instantiate` throw before the null check after it; otherwise
   * the change's `Attributes`, `Transform` and the transform's position are read, and a missing
   * one throws.
   */
  function Spawn(change: Change2d, prefabs: set<string>): (r: Result<GameObject>)
    ensures PrefabPath(change) !in prefabs ==> r == Failure(Raise(InstantiateNullText))
    ensures r.Failure? <==> PrefabPath(change) !in prefabs || change.Attributes.None? || change.Transform.None?
                            || change.Transform.value.Pos.None?
    ensures r.Success? ==> r.value == GameObject(change.ObjectID)
  {
    if PrefabPath(change) !in prefabs then Failure(Raise(InstantiateNullText))
    else if change.Attributes.None? || change.Transform.None? || change.Transform.value.Pos.None? then Failure(NullReference())
    else Success(GameObject(change.ObjectID))
  }

  /** `$"{change.TypeID}"`: a null type id interpolates as the empty string. */
  function PrefabPath(change: Change2d): string {
    if change.TypeID.Some? then change.TypeID.value else ""
  }

  /** The state a received batch leaves: the map, and whether the batch ended in an exception. */
  datatype Received = Received(m: map<string, Tracker>, r: Result<()>)

  /** A batch applied in order: only creates and updates for unknown ids change the map. */
  function ReceiveAll(m: map<string, Tracker>, changes: seq<Change2d>, prefabs: set<string>): (out: Received)
    ensures m.Keys <= out.m.Keys
    ensures forall k :: k in m ==> out.m[k] == m[k]
    ensures forall k :: k in out.m && k !in m ==>
      exists c :: c in changes && c.ObjectID == k && c.Event != Destroyed
    ensures out.r.Success? ==> forall c :: c in changes && c.Event != Destroyed ==> c.ObjectID in out.m
    ensures (forall k :: k in m ==> Wellformed(m[k])) ==> forall k :: k in out.m ==> Wellformed(out.m[k])
    decreases |changes|
  {
    if changes == [] then Received(m, Success(()))
    else
      var c := changes[0];
      if c.ObjectID in m || c.Event == Destroyed then
        var rest := ReceiveAll(m, changes[1..], prefabs);
        assert forall x :: x in changes[1..] ==> x in changes;
        rest
      else
        match Spawn(c, prefabs)
        case Failure(e) => Received(m, Failure(e))
        case Success(obj) =>
          var t := if c.Event == Created then Tracker(Some(c), None, None, false, Some(obj))
                   else Tracker(None, Some(c), None, false, Some(obj));
          var rest := ReceiveAll(m[c.ObjectID := t], changes[1..], prefabs);
          assert forall x :: x in changes[1..] ==> x in changes;
          rest
  }

  /** One step of `ReceiveAll`, unfolded. */
  lemma ReceiveAllStep(m: map<string, Tracker>, changes: seq<Change2d>, prefabs: set<string>)
    requires changes != []
    ensures var c := changes[0];
      ReceiveAll(m, changes, prefabs) ==
        if c.ObjectID in m || c.Event == Destroyed then ReceiveAll(m, changes[1..], prefabs)
        else match Spawn(c, prefabs)
          case Failure(e) => Received(m, Failure(e))
          case Success(obj) =>
            ReceiveAll(m[c.ObjectID := if c.Event == Created then Tracker(Some(c), None, None, false, Some(obj))
                                       else Tracker(None, Some(c), None, false, Some(obj))], changes[1..], prefabs)
  {
  }

  /** The loop of `OnHostStateChanged`: the batch's changes applied one by one. */
  method Receive(m0: map<string, Tracker>, changes: seq<Change2d>, prefabs: set<string>) returns (out: Received)
    ensures out == ReceiveAll(m0, changes, prefabs)
  {
    var m := m0;
    var i := 0;
    while i < |changes|
      invariant 0 <= i <= |changes|
      invariant ReceiveAll(m0, changes, prefabs) == ReceiveAll(m, changes[i..], prefabs)
    {
      var change := changes[i];
      var found := change.ObjectID in m;
      ReceiveAllStep(m, changes[i..], prefabs);
      assert changes[i..][0] == change && changes[i..][1..] == changes[i + 1..];
      if change.Event == Created && !found {
        var obj := Spawn(change, prefabs);
        if obj.Failure? {
          return Received(m, Failure(obj.error));
        }
        m := m[change.ObjectID := Tracker(Some(change), None, None, false, Some(obj.value))];
      } else if change.Event == Updated && !found {
        var obj := Spawn(change, prefabs);
        if obj.Failure? {
          return Received(m, Failure(obj.error));
        }
        m := m[change.ObjectID := Tracker(None, Some(change), None, false, Some(obj.value))];
      }
      i := i + 1;
    }
    out := Received(m, Success(()));
  }

  /**
   * A guest turns an update for an unknown id, whose prefab exists and whose attributes and
   * position are present, into a tracker holding that update and the object built for it: an
   * implicit create.
   */
  lemma ImplicitCreate(m: map<string, Tracker>, c: Change2d, prefabs: set<string>)
    requires c.ObjectID !in m && c.Event == Updated && PrefabPath(c) in prefabs
    requires c.Attributes.Some? && c.Transform.Some? && c.Transform.value.Pos.Some?
    ensures ReceiveAll(m, [c], prefabs).r.Success?
    ensures ReceiveAll(m, [c], prefabs).m == m[c.ObjectID := Tracker(None, Some(c), None, false, Some(GameObject(c.ObjectID)))]
  {
    ReceiveAllStep(m, [c], prefabs);
  }

  /**
   * A create or update for an unknown id whose type has no prefab ends the batch there: the
   * changes after it are not applied.
   */
  lemma UnknownPrefabEndsBatch(m: map<string, Tracker>, c: Change2d, rest: seq<Change2d>, prefabs: set<string>)
    requires c.ObjectID !in m && c.Event != Destroyed && PrefabPath(c) !in prefabs
    ensures ReceiveAll(m, [c] + rest, prefabs) == Received(m, Failure(Raise(InstantiateNullText)))
  {
    ReceiveAllStep(m, [c] + rest, prefabs);
  }

  /** A create for a known id and a destroy for any id leave the guest's map as it was. */
  lemma SkippedChanges(m: map<string, Tracker>, c: Change2d, prefabs: set<string>)
    requires (c.Event == Created && c.ObjectID in m) || c.Event == Destroyed
    ensures ReceiveAll(m, [c], prefabs) == Received(m, Success(()))
  {
    ReceiveAllStep(m, [c], prefabs);
  }
}
