/**
 * The parts of `DemoGame` (StateFluxer/Assets/Game/DemoGame.cs) that decide what is sent and
 * tracked: the guest's input change filter, the host's cursor broadcast, the host's handling of
 * a guest's input, and moving the two cursor objects. Unity input, the camera and rendering
 * are parameters or left out; the cursor objects are kept as their positions.
 */
module Demo {
  import opened Wrappers
  import opened Model
  import opened Messages
  import Unity
  import ShortGuid
  import MiceTracking
  import ObjectTracking

  /** `new GuestInput()`: no cursor position, nothing pressed. */
  function NoInput(): (g: GuestInput)
    ensures g.mPos.None? && !g.mDown && !g.mClicked && !g.btn1 && !g.btn2 && !g.btn3
  {
    GuestInput(None, false, false, 0.0, 0.0, false, false, false)
  }

  /**
   * The guest's change filter: input is sent when there was no earlier cursor position or the
   * position, the held button, either axis or any of the three buttons differs. `mClicked` is
   * not compared.
   */
  predicate InputChanged(last: GuestInput, input: GuestInput)
    requires input.mPos.Some?
  {
    last.mPos.None?
    || input.mPos.value.X != last.mPos.value.X
    || input.mPos.value.Y != last.mPos.value.Y
    || input.mDown != last.mDown
    || input.hArrows != last.hArrows
    || input.vArrows != last.vArrows
    || input.btn1 != last.btn1
    || input.btn2 != last.btn2
    || input.btn3 != last.btn3
  }

  /** Input that differs from the last sent only in `mClicked` is never sent; repeating it neither. */
  lemma ClickAloneSendsNothing(last: GuestInput, clicked: bool)
    requires last.mPos.Some?
    ensures !InputChanged(last, last.(mClicked := clicked))
    ensures !InputChanged(last, last)
  {
  }

  /** The first input is always sent. */
  lemma FirstInputSent(input: GuestInput)
    requires input.mPos.Some?
    ensures InputChanged(NoInput(), input)
  {
  }

  /** The command a guest's click sends. */
  function ClickCommand(): (c: GameCommand)
    ensures c.Name == "groovy" && c.ObjectId == "testy" && c.Params == map["bin" := "baz"]
  {
    GameCommand("groovy", "testy", map["bin" := "baz"])
  }

  /**
   * `CreateJake`'s change record: a "jake" whose Id is "jake" and a short guid, at the cursor,
   * at rest apart from the random spin, in `color`.
   */
  function JakeChange(mousePoint: Unity.Vector3, color: Option<Color>, guid: seq<ShortGuid.byte>, spin: Float): (c: Change2d)
    requires |guid| == 16
    ensures c.Event == Created && c.TypeID == Some("jake")
    ensures c.ObjectID == "jake" + ShortGuid.Generate(guid) && |c.ObjectID| == 26
    ensures c.Transform.Some? && c.Transform.value.Pos == Some(Unity.Vector3Convert2d(mousePoint))
    ensures c.Transform.value.Vel == Some(Vec2d(0.0, 0.0)) && c.Transform.value.RotV == spin
    ensures c.Attributes == Some(Attributes(color))
  {
    Change2d("jake" + ShortGuid.Generate(guid), Some("jake"), Created,
             Some(Transform2d(Some(Unity.Vector3Convert2d(mousePoint)), Some(Vec2d(0.0, 0.0)), 0.0, spin, 0.0)),
             Some(Attributes(color)))
  }

  /** The tracker `CreateJake` hands to the object tracker: the create record and its object. */
  function JakeTracker(jake: Change2d): (t: ObjectTracking.Tracker)
    ensures t.create == Some(jake) && t.update.None? && t.destroy.None? && !t.dirty
    ensures t.gameObject == Some(ObjectTracking.GameObject(jake.ObjectID))
  {
    ObjectTracking.Tracker(Some(jake), None, None, false, Some(ObjectTracking.GameObject(jake.ObjectID)))
  }

  /** Jakes made from different random bytes get different Ids. */
  lemma JakeIdsDiffer(p1: Unity.Vector3, p2: Unity.Vector3, c1: Option<Color>, c2: Option<Color>,
                      g1: seq<ShortGuid.byte>, g2: seq<ShortGuid.byte>, s1: Float, s2: Float)
    requires |g1| == 16 && |g2| == 16 && g1 != g2
    ensures JakeChange(p1, c1, g1, s1).ObjectID != JakeChange(p2, c2, g2, s2).ObjectID
  {
    ShortGuid.GenerateInjective(g1, g2);
    var a := JakeChange(p1, c1, g1, s1).ObjectID;
    var b := JakeChange(p2, c2, g2, s2).ObjectID;
    assert a[4..] == ShortGuid.Generate(g1);
    assert b[4..] == ShortGuid.Generate(g2);
  }

  /** Where the cursor objects end up after the mice in `items` are applied in order. */
  function MovedMice(items: seq<Mouse>, playerId: string, thisMouse: Unity.Vector3, thatMouse: Unity.Vector3)
    : (r: (Unity.Vector3, Unity.Vector3))
    ensures (forall j :: 0 <= j < |items| ==> items[j].PlayerId != playerId) ==> r.0 == thisMouse
    ensures (forall j :: 0 <= j < |items| ==> items[j].PlayerId == playerId) ==> r.1 == thatMouse
    ensures items != [] && items[|items| - 1].PlayerId == playerId ==>
      r.0 == Unity.Vec2dConvert3d(items[|items| - 1].Pos)
    ensures items != [] && items[|items| - 1].PlayerId != playerId ==>
      r.1 == Unity.Vec2dConvert3d(items[|items| - 1].Pos)
    decreases |items|
  {
    if items == [] then (thisMouse, thatMouse)
    else
      var prefix := items[..|items| - 1];
      var last := items[|items| - 1];
      assert forall j :: 0 <= j < |prefix| ==> prefix[j] == items[j];
      var before := MovedMice(prefix, playerId, thisMouse, thatMouse);
      if last.PlayerId == playerId then (Unity.Vec2dConvert3d(last.Pos), before.1)
      else (before.0, Unity.Vec2dConvert3d(last.Pos))
  }

  class DemoGame {
    const playerId: string
    var lastGuestInput: GuestInput
    const miceTracker: MiceTracking.MiceTracker
    const gameObjectTracker: ObjectTracking.GameObjectTracker
    var thatPlayer: Option<Player>
    /** The positions of the two cursor objects. */
    var thisMouse: Unity.Vector3
    var thatMouse: Unity.Vector3

    ghost predicate Valid()
      reads this, gameObjectTracker
    {
      gameObjectTracker.Valid()
    }

    /** `Start`: fresh trackers and no input sent yet. */
    constructor (playerId: string, thatPlayer: Option<Player>, thisMouse: Unity.Vector3, thatMouse: Unity.Vector3)
      ensures Valid() && fresh(miceTracker) && fresh(gameObjectTracker)
      ensures this.playerId == playerId && lastGuestInput == NoInput()
      ensures miceTracker.trackers == map[] && gameObjectTracker.trackingMap == map[]
    {
      this.playerId := playerId;
      this.thatPlayer := thatPlayer;
      this.thisMouse := thisMouse;
      this.thatMouse := thatMouse;
      lastGuestInput := NoInput();
      miceTracker := new MiceTracking.MiceTracker();
      gameObjectTracker := new ObjectTracking.GameObjectTracker();
    }

    /**
     * `SendInputAsGuest`, given what Unity reports this frame: a click sends the test command;
     * then the input is sent, and remembered, when it passes the change filter. The command does
     * not clear `mClicked`, which reads the button again.
     */
    method SendInputAsGuest(clicked: bool, held: bool, mousePos: Vec2d, hArrows: Float, vArrows: Float,
                            btn1: bool, btn2: bool, btn3: bool) returns (sent: seq<Message>)
      modifies this
      ensures var input := GuestInput(Some(mousePos), held, clicked, vArrows, hArrows, btn1, btn2, btn3);
        var changed := InputChanged(old(lastGuestInput), input);
        && sent == (if clicked then [GuestCommandChangeMessage(ClickCommand())] else [])
                   + (if changed then [GuestInputChangeMessage(input)] else [])
        && lastGuestInput == (if changed then input else old(lastGuestInput))
      ensures thisMouse == old(thisMouse) && thatMouse == old(thatMouse)
    {
      sent := [];
      if clicked {
        sent := sent + [GuestCommandChangeMessage(ClickCommand())];
      }
      var input := GuestInput(Some(mousePos), held, clicked, vArrows, hArrows, btn1, btn2, btn3);
      if InputChanged(lastGuestInput, input) {
        sent := sent + [GuestInputChangeMessage(input)];
        lastGuestInput := input;
      }
    }

    /** `SetPlayerMouseDetails`: the own cursor moves for the own id, the other for any other. */
    method SetPlayerMouseDetails(m: Mouse)
      modifies this
      ensures m.PlayerId == playerId ==> thisMouse == Unity.Vec2dConvert3d(m.Pos) && thatMouse == old(thatMouse)
      ensures m.PlayerId != playerId ==> thatMouse == Unity.Vec2dConvert3d(m.Pos) && thisMouse == old(thisMouse)
      ensures lastGuestInput == old(lastGuestInput) && thatPlayer == old(thatPlayer)
    {
      if m.PlayerId == playerId {
        thisMouse := Unity.Vec2dConvert3d(m.Pos);
      } else {
        thatMouse := Unity.Vec2dConvert3d(m.Pos);
      }
    }

    /** Every mouse in `items`, in order, through `SetPlayerMouseDetails`. */
    method MoveMice(items: seq<Mouse>)
      modifies this
      ensures (thisMouse, thatMouse) == MovedMice(items, playerId, old(thisMouse), old(thatMouse))
      ensures lastGuestInput == old(lastGuestInput) && thatPlayer == old(thatPlayer)
    {
      var i := 0;
      while i < |items|
        invariant 0 <= i <= |items|
        invariant (thisMouse, thatMouse) == MovedMice(items[..i], playerId, old(thisMouse), old(thatMouse))
        invariant lastGuestInput == old(lastGuestInput) && thatPlayer == old(thatPlayer)
      {
        assert items[..i + 1][..i] == items[..i];
        SetPlayerMouseDetails(items[i]);
        i := i + 1;
      }
      assert items[..|items|] == items;
    }

    /**
     * The cursor part of `UpdateAsHost`: the own cursor object goes to `world`, the own mouse
     * is tracked there, and when any mouse moved one `MiceChangeMessage` carries exactly the
     * moved mice, whose cursor objects are then moved. `order` is the enumeration order of the
     * trackers after the own mouse is tracked.
     */
    method UpdateMiceAsHost(world: Unity.Vector3, order: seq<string>) returns (sent: Option<Message>)
      requires MiceTracking.Enumerates(MiceTracking.Tracked(miceTracker.trackers, playerId, Vec2d(world.x, world.y)), order)
      modifies this, miceTracker
      ensures var t := MiceTracking.Tracked(old(miceTracker.trackers), playerId, Vec2d(world.x, world.y));
        && miceTracker.trackers == MiceTracking.Cleaned(t)
        && sent == if forall k :: k in t ==> !t[k].dirty then None
                   else Some(MiceChangeMessage(Mice(MiceTracking.DirtyMice(t, order))))
      ensures miceTracker.trackers.Keys == old(miceTracker.trackers).Keys + {playerId}
      ensures forall k :: k in miceTracker.trackers ==> !miceTracker.trackers[k].dirty
      ensures miceTracker.Find(playerId).Some? && miceTracker.Find(playerId).value.Pos == Vec2d(world.x, world.y)
      ensures sent.Some? ==> sent.value.MiceChangeMessage? && sent.value.Mice.Items != []
      ensures sent.None? ==> thisMouse == world && thatMouse == old(thatMouse)
      ensures sent.Some? ==>
        (thisMouse, thatMouse) == MovedMice(sent.value.Mice.Items, playerId, world, old(thatMouse))
      ensures lastGuestInput == old(lastGuestInput)
    {
      thisMouse := world;
      miceTracker.Track(playerId, Vec2d(world.x, world.y));
      var mice := miceTracker.BuildMice(order);
      if mice.None? {
        return None;
      }
      sent := Some(MiceChangeMessage(mice.value));
      MoveMice(mice.value.Items);
    }

    /**
     * `OnStateFluxGuestInputChanged`, as host: the guest's mouse is tracked under the guest's id;
     * a click also starts tracking a new jake in the other player's colour. A message without a
     * guest id, or a click with no other player, throws.
     */
    method OnGuestInputChanged(guest: Option<string>, input: GuestInput, guid: seq<ShortGuid.byte>, spin: Float)
      returns (r: Result<()>)
      requires Valid() && input.mPos.Some? && |guid| == 16
      modifies miceTracker, gameObjectTracker
      ensures Valid()
      ensures guest.None? ==> r == Failure(NullReference())
      ensures guest.None? ==> miceTracker.trackers == old(miceTracker.trackers)
      ensures guest.None? || !input.mClicked || thatPlayer.None? ==>
        gameObjectTracker.trackingMap == old(gameObjectTracker.trackingMap)
      ensures guest.Some? ==> miceTracker.trackers == MiceTracking.Tracked(old(miceTracker.trackers), guest.value, input.mPos.value)
      ensures guest.Some? ==> miceTracker.trackers.Keys == old(miceTracker.trackers).Keys + {guest.value}
      ensures guest.Some? ==> miceTracker.Find(guest.value).Some?
      ensures guest.Some? ==> miceTracker.Find(guest.value).value.Pos == input.mPos.value
      ensures guest.Some? && !input.mClicked ==> r.Success?
      ensures guest.Some? && input.mClicked && thatPlayer.None? ==> r == Failure(NullReference())
      ensures guest.Some? && input.mClicked && thatPlayer.Some? ==>
        var id := JakeChange(Unity.Vec2dConvert3d(input.mPos.value), thatPlayer.value.Color, guid, spin).ObjectID;
        (r.Success? <==> id !in old(gameObjectTracker.trackingMap))
      ensures guest.Some? && input.mClicked && thatPlayer.Some? ==>
        var jake := JakeChange(Unity.Vec2dConvert3d(input.mPos.value), thatPlayer.value.Color, guid, spin);
        gameObjectTracker.trackingMap == if jake.ObjectID in old(gameObjectTracker.trackingMap)
          then old(gameObjectTracker.trackingMap)
          else old(gameObjectTracker.trackingMap)[jake.ObjectID := JakeTracker(jake)]
    {
      if guest.None? {
        return Failure(NullReference());
      }
      miceTracker.Track(guest.value, input.mPos.value);
      if !input.mClicked {
        return Success(());
      }
      if thatPlayer.None? {
        return Failure(NullReference());
      }
      var jake := JakeChange(Unity.Vec2dConvert3d(input.mPos.value), thatPlayer.value.Color, guid, spin);
      r := gameObjectTracker.TrackCreate(JakeTracker(jake));
    }
  }
}
