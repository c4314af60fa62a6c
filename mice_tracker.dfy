/**
 * `MiceTracker` (StateFluxer/Assets/Game/MiceTracker.cs): the host's record of every player's
 * cursor, with a dirty flag per player; `BuildMice` collects the moved cursors for sending.
 * A `MouseTracker` is a record here, and the tracker dictionary a `map` field.
 */
module MiceTracking {
  import opened Wrappers
  import opened Model

  /** One player's cursor and whether it moved since it was last sent. */
  datatype MouseTracker = MouseTracker(mouse: Mouse, dirty: bool)

  /** The mice a collection pass sends, visiting the trackers in `order`. */
  function DirtyMice(m: map<string, MouseTracker>, order: seq<string>): (items: seq<Mouse>)
    requires forall k :: k in order ==> k in m
    ensures |items| <= |order|
    ensures items == [] <==> forall j :: 0 <= j < |order| ==> !m[order[j]].dirty
    decreases |order|
  {
    if order == [] then []
    else
      var last := m[order[|order| - 1]];
      var prefix := order[..|order| - 1];
      assert forall j :: 0 <= j < |prefix| ==> prefix[j] == order[j];
      DirtyMice(m, prefix) + if last.dirty then [last.mouse] else []
  }

  /** The trackers after a collection pass: every flag cleared, every cursor kept. */
  function Cleaned(m: map<string, MouseTracker>): (c: map<string, MouseTracker>)
    ensures c.Keys == m.Keys
    ensures forall k :: k in c ==> !c[k].dirty && c[k].mouse == m[k].mouse
  {
    map k | k in m :: m[k].(dirty := false)
  }

  /**
   * The trackers after `Track(playerId, pos)`: a new player gets a dirty cursor at `pos`, a
   * known one that moved gets its cursor moved and turned dirty, and one that did not move is
   * left as it was.
   */
  function Tracked(m: map<string, MouseTracker>, playerId: string, pos: Vec2d): (t: map<string, MouseTracker>)
    ensures t.Keys == m.Keys + {playerId}
    ensures t[playerId].mouse.Pos == pos
    ensures t[playerId].dirty <==> playerId !in m || m[playerId].mouse.Pos != pos || m[playerId].dirty
    ensures forall k :: k in m && k != playerId ==> t[k] == m[k]
  {
    if playerId !in m then m[playerId := MouseTracker(Mouse(playerId, None, None, pos), true)]
    else if m[playerId].mouse.Pos.X != pos.X || m[playerId].mouse.Pos.Y != pos.Y then
      m[playerId := MouseTracker(m[playerId].mouse.(Pos := pos), true)]
    else m
  }

  /** An order that visits every tracker exactly once. */
  ghost predicate Enumerates(m: map<string, MouseTracker>, order: seq<string>) {
    (forall k :: k in order <==> k in m)
    && forall i, j :: 0 <= i < j < |order| ==> order[i] != order[j]
  }

  /** Every moved cursor is sent. */
  lemma {:induction false} DirtyMiceComplete(m: map<string, MouseTracker>, order: seq<string>, k: string)
    requires forall k' :: k' in order ==> k' in m
    requires k in order && m[k].dirty
    ensures m[k].mouse in DirtyMice(m, order)
    decreases |order|
  {
    var prefix := order[..|order| - 1];
    assert order == prefix + [order[|order| - 1]];
    if k != order[|order| - 1] {
      assert forall k' :: k' in prefix ==> k' in order;
      DirtyMiceComplete(m, prefix, k);
    }
  }

  /** Only moved cursors are sent: each sent mouse is the cursor of a dirty tracker visited. */
  lemma {:induction false} DirtyMiceSound(m: map<string, MouseTracker>, order: seq<string>, mouse: Mouse)
    requires forall k :: k in order ==> k in m
    requires mouse in DirtyMice(m, order)
    ensures exists k :: k in order && m[k].dirty && m[k].mouse == mouse
    decreases |order|
  {
    var last := order[|order| - 1];
    var prefix := order[..|order| - 1];
    assert forall j :: 0 <= j < |prefix| ==> prefix[j] == order[j];
    if m[last].dirty && mouse == m[last].mouse {
      assert last in order;
    } else {
      assert forall k :: k in prefix ==> k in order;
      DirtyMiceSound(m, prefix, mouse);
    }
  }

  /** A second pass with no `Track` in between sends nothing. */
  lemma SecondBuildIsEmpty(m: map<string, MouseTracker>, order: seq<string>)
    requires forall k :: k in order ==> k in Cleaned(m)
    ensures DirtyMice(Cleaned(m), order) == []
  {
  }

  /** One more visited tracker: the list grows by its cursor, if it moved. */
  lemma DirtyMiceSnoc(m: map<string, MouseTracker>, order: seq<string>, i: nat)
    requires i < |order|
    requires forall k :: k in order ==> k in m
    ensures DirtyMice(m, order[..i + 1]) ==
      DirtyMice(m, order[..i]) + if m[order[i]].dirty then [m[order[i]].mouse] else []
  {
    assert order[..i + 1][..i] == order[..i];
  }

  /** What the loop of `BuildMice` has done after visiting `order[..i]`. */
  ghost predicate CollectedUpTo(m0: map<string, MouseTracker>, order: seq<string>, i: nat,
                                m: map<string, MouseTracker>, items: Option<seq<Mouse>>)
    requires Enumerates(m0, order)
  {
    && i <= |order|
    && m.Keys == m0.Keys
    && (forall j :: 0 <= j < i ==> m[order[j]] == m0[order[j]].(dirty := false))
    && (forall j :: i <= j < |order| ==> m[order[j]] == m0[order[j]])
    && items == if DirtyMice(m0, order[..i]) == [] then None else Some(DirtyMice(m0, order[..i]))
  }

  /** One iteration of the loop of `BuildMice`: the tracker under `order[i]`. */
  method CollectNext(ghost m0: map<string, MouseTracker>, order: seq<string>, i: nat,
                     m: map<string, MouseTracker>, items: Option<seq<Mouse>>)
    returns (m': map<string, MouseTracker>, items': Option<seq<Mouse>>)
    requires Enumerates(m0, order) && i < |order|
    requires CollectedUpTo(m0, order, i, m, items)
    ensures CollectedUpTo(m0, order, i + 1, m', items')
  {
    DirtyMiceSnoc(m0, order, i);
    ghost var before := DirtyMice(m0, order[..i]);
    var mt := m[order[i]];
    assert mt == m0[order[i]];
    m', items' := m, items;
    if mt.dirty {
      if items.None? {
        items' := Some([]);
      }
      assert items'.value == before;
      items' := Some(items'.value + [mt.mouse]);
      m' := m[order[i] := mt.(dirty := false)];
      assert DirtyMice(m0, order[..i + 1]) == before + [mt.mouse] != [];
    } else {
      assert DirtyMice(m0, order[..i + 1]) == before;
    }
  }

  /** The loop of `BuildMice`; the item list stays null until a dirty tracker is found. */
  method CollectDirty(m0: map<string, MouseTracker>, order: seq<string>)
    returns (m: map<string, MouseTracker>, items: Option<seq<Mouse>>)
    requires Enumerates(m0, order)
    ensures m == Cleaned(m0)
    ensures items == if DirtyMice(m0, order) == [] then None else Some(DirtyMice(m0, order))
  {
    m, items := m0, None;
    var i := 0;
    while i < |order|
      invariant i <= |order|
      invariant CollectedUpTo(m0, order, i, m, items)
    {
      m, items := CollectNext(m0, order, i, m, items);
      i := i + 1;
    }
    assert order[..|order|] == order;
    forall k | k in m0
      ensures m[k] == m0[k].(dirty := false)
    {
      var j :| 0 <= j < |order| && order[j] == k;
    }
  }

  class MiceTracker {
    var trackers: map<string, MouseTracker>

    constructor ()
      ensures trackers == map[]
    {
      trackers := map[];
    }

    /** `Find`: the cursor tracked for `playerId`, or null. */
    function Find(playerId: string): (r: Option<Mouse>)
      reads this
      ensures r.Some? <==> playerId in trackers
      ensures r.Some? ==> r.value == trackers[playerId].mouse
    {
      if playerId in trackers then Some(trackers[playerId].mouse) else None
    }

    /**
     * `Track`: a new player gets a dirty cursor at `pos`; a known player's cursor moves and
     * turns dirty only when X or Y differs. Trackers are never removed.
     */
    method Track(playerId: string, pos: Vec2d)
      modifies this
      ensures trackers.Keys == old(trackers).Keys + {playerId}
      ensures playerId !in old(trackers) ==>
        trackers == old(trackers)[playerId := MouseTracker(Mouse(playerId, None, None, pos), true)]
      ensures playerId in old(trackers) && old(trackers)[playerId].mouse.Pos == pos ==>
        trackers == old(trackers)
      ensures playerId in old(trackers) && old(trackers)[playerId].mouse.Pos != pos ==>
        trackers == old(trackers)[playerId := MouseTracker(old(trackers)[playerId].mouse.(Pos := pos), true)]
      ensures trackers == Tracked(old(trackers), playerId, pos)
      ensures Find(playerId).Some? && Find(playerId).value.Pos == pos
    {
      if playerId !in trackers {
        trackers := trackers[playerId := MouseTracker(Mouse(playerId, None, None, pos), true)];
      } else {
        var mt := trackers[playerId];
        if mt.mouse.Pos.X != pos.X || mt.mouse.Pos.Y != pos.Y {
          trackers := trackers[playerId := MouseTracker(mt.mouse.(Pos := pos), true)];
        }
      }
    }

    /**
     * `BuildMice`, visiting the trackers in `order` (the dictionary's enumeration order): the
     * moved cursors in that order, or null when none moved; every flag is cleared.
     */
    method BuildMice(order: seq<string>) returns (mice: Option<Mice>)
      requires Enumerates(trackers, order)
      modifies this
      ensures trackers == Cleaned(old(trackers))
      ensures mice.None? <==> forall k :: k in old(trackers) ==> !old(trackers)[k].dirty
      ensures mice.Some? ==> mice.value.Items == DirtyMice(old(trackers), order)
    {
      var cleaned, items := CollectDirty(trackers, order);
      trackers := cleaned;
      if items.None? {
        return None;
      }
      mice := Some(Mice(items.value));
    }
  }
}
