/**
 * The relay handlers of the server: a host's state batches and commands go to its instance,
 * a guest's go to the instance's host, mouse positions go to the sender's instance, and a
 * guest's request for full state goes out addressed to the instance.
 *
 * Each handler is a function of the sender lookup's outcome, the game catalog and the message's
 * payload, returning the effects it asks for in order (`Service.Effect`) or the exception it
 * throws. Every one of them returns null to the dispatcher, so the sender gets no reply.
 */

/** StateFlux/StateFlux/Handlers/StateChangeMessageHandler.cs */
module StateChanges {
  import opened Wrappers
  import opened Model
  import opened Messages
  import opened Service

  /**
   * `HostStateChange`: the batch is broadcast unchanged to the sender's instance with `meToo`
   * false, which `Broadcast` as written delivers to nobody (`Service.HostBroadcastIsLost`). The
   * instance search the handler makes is not used.
   */
  function HostStateChange(lookup: Result<Option<Player>>, payload: StateChange): (r: Result<seq<Effect>>)
    ensures r.Failure? <==> SessionPlayer(lookup).Failure?
    ensures r.Failure? ==> r.error == SessionPlayer(lookup).error
    ensures r.Success? ==>
      var p := lookup.value.value;
      r.value == [Broadcasts(HostStateChangedMessage(payload), p.GameInstanceRef, false)]
  {
    var p :- SessionPlayer(lookup);
    Success([Broadcasts(HostStateChangedMessage(payload), p.GameInstanceRef, false)])
  }

  /**
   * `GuestStateChange`: the batch, stamped with the sender's Id, is sent to the host of the
   * instance the sender sits in. A sender in no instance, or an instance without a host, makes
   * the host lookup dereference null.
   */
  function GuestStateChange(lookup: Result<Option<Player>>, games: seq<Game>, payload: StateChange)
    : (r: Result<seq<Effect>>)
    ensures SessionPlayer(lookup).Failure? ==> r == Failure(SessionPlayer(lookup).error)
    ensures SessionPlayer(lookup).Success? ==>
      var p := lookup.value.value;
      var gi := FindPlayerGameInstance(games, p);
      (r.Failure? <==> gi.None? || gi.value.HostPlayer.None?)
      && (r.Failure? ==> r.error == NullReference())
      && (r.Success? ==> r.value == [Sends(GuestStateChangedMessage(p.Id, payload), gi.value.HostPlayer.value.Id)])
  {
    var p :- SessionPlayer(lookup);
    var gi := FindPlayerGameInstance(games, p);
    if gi.None? || gi.value.HostPlayer.None? then Failure(NullReference())
    else Success([Sends(GuestStateChangedMessage(p.Id, payload), gi.value.HostPlayer.value.Id)])
  }
}

/** StateFlux/StateFlux/Handlers/GameCommandChangeHander.cs */
module GameCommands {
  import opened Wrappers
  import opened Model
  import opened Messages
  import opened Service

  /**
   * `HostCommandChange`: the command is broadcast unchanged to the sender's instance with `meToo`
   * false, which `Broadcast` as written delivers to nobody.
   */
  function HostCommandChange(lookup: Result<Option<Player>>, command: GameCommand): (r: Result<seq<Effect>>)
    ensures r.Failure? <==> SessionPlayer(lookup).Failure?
    ensures r.Failure? ==> r.error == SessionPlayer(lookup).error
    ensures r.Success? ==>
      r.value == [Broadcasts(HostCommandChangedMessage(command), lookup.value.value.GameInstanceRef, false)]
  {
    var p :- SessionPlayer(lookup);
    Success([Broadcasts(HostCommandChangedMessage(command), p.GameInstanceRef, false)])
  }

  /** `GuestCommandChange`: the command, stamped with the sender's Id, goes to the instance's host. */
  function GuestCommandChange(lookup: Result<Option<Player>>, games: seq<Game>, command: GameCommand)
    : (r: Result<seq<Effect>>)
    ensures SessionPlayer(lookup).Failure? ==> r == Failure(SessionPlayer(lookup).error)
    ensures SessionPlayer(lookup).Success? ==>
      var p := lookup.value.value;
      var gi := FindPlayerGameInstance(games, p);
      (r.Failure? <==> gi.None? || gi.value.HostPlayer.None?)
      && (r.Failure? ==> r.error == NullReference())
      && (r.Success? ==> r.value == [Sends(GuestCommandChangedMessage(p.Id, command), gi.value.HostPlayer.value.Id)])
  {
    var p :- SessionPlayer(lookup);
    var gi := FindPlayerGameInstance(games, p);
    if gi.None? || gi.value.HostPlayer.None? then Failure(NullReference())
    else Success([Sends(GuestCommandChangedMessage(p.Id, command), gi.value.HostPlayer.value.Id)])
  }
}

/** StateFlux/StateFlux/Handlers/MiceChangeHandler.cs */
module MiceChanges {
  import opened Wrappers
  import opened Model
  import opened Messages
  import opened Service

  /**
   * `MiceChange`: nothing is forwarded for a sender in no instance; otherwise the mice are
   * broadcast unchanged to the sender's instance with `meToo` false, which `Broadcast` as
   * written delivers to nobody.
   */
  function MiceChange(lookup: Result<Option<Player>>, games: seq<Game>, mice: Mice): (r: Result<seq<Effect>>)
    ensures r.Failure? <==> SessionPlayer(lookup).Failure?
    ensures r.Failure? ==> r.error == SessionPlayer(lookup).error
    ensures r.Success? ==>
      var p := lookup.value.value;
      (FindPlayerGameInstance(games, p).None? ==> r.value == [])
      && (FindPlayerGameInstance(games, p).Some? ==> r.value == [Broadcasts(MiceChangedMessage(mice), p.GameInstanceRef, false)])
  {
    var p :- SessionPlayer(lookup);
    if FindPlayerGameInstance(games, p).None? then Success([])
    else Success([Broadcasts(MiceChangedMessage(mice), p.GameInstanceRef, false)])
  }
}

/** StateFlux/StateFlux/Handlers/RequestFullStateMessageHandler.cs */
module FullState {
  import opened Wrappers
  import opened Model
  import opened Messages
  import opened Guards
  import opened Service

  const OnlyGuestsText: string := "only guests should ask for full state"

  /**
   * `GuestRequestFullState`: refused for the instance's host; otherwise a fresh request is sent
   * addressed to the instance's Id. A requester in no instance, or an instance without a host,
   * makes the host check dereference null.
   */
  function GuestRequestFullState(lookup: Result<Option<Player>>, games: seq<Game>): (r: Result<seq<Effect>>)
    ensures SessionPlayer(lookup).Failure? ==> r == Failure(SessionPlayer(lookup).error)
    ensures SessionPlayer(lookup).Success? ==>
      var p := lookup.value.value;
      var gi := FindPlayerGameInstance(games, p);
      (gi.None? || gi.value.HostPlayer.None? ==> r == Failure(NullReference()))
      && (gi.Some? && gi.value.HostPlayer.Some? && gi.value.HostPlayer.value.Id == p.Id ==>
            r == Failure(ThrowError(OnlyGuestsText)))
      && (r.Success? <==> gi.Some? && gi.value.HostPlayer.Some? && gi.value.HostPlayer.value.Id != p.Id)
      && (r.Success? ==> r.value == [Sends(GuestRequestFullStateMessage, Some(gi.value.Id))])
  {
    var p :- SessionPlayer(lookup);
    var gi := FindPlayerGameInstance(games, p);
    if gi.None? || gi.value.HostPlayer.None? then Failure(NullReference())
    else
      var _ :- ThrowIfFalse(p.Id != gi.value.HostPlayer.value.Id, OnlyGuestsText);
      Success([Sends(GuestRequestFullStateMessage, Some(gi.value.Id))])
  }
}

/** Properties the relay handlers share. */
module Relaying {
  import opened Wrappers
  import opened Model
  import opened Messages
  import opened Service
  import C = ClientMessageTypes
  import StateChanges
  import GameCommands
  import MiceChanges
  import FullState

  /** The effects a handler asks for, none when it throws. */
  function Effects(r: Result<seq<Effect>>): seq<Effect> {
    if r.Success? then r.value else []
  }

  /** The tag of the message an effect carries. */
  function TagOf(e: Effect): Option<string> {
    match e
    case Broadcasts(m, _, _) => Tag(m.Kind())
    case Sends(m, _) => Tag(m.Kind())
    case _ => None
  }

  /**
   * Each relayed message goes out under its request's reply tag, the request tag followed by
   * "d"; a full-state request is relayed under its own tag.
   */
  lemma HostStateRelayTag(lookup: Result<Option<Player>>, payload: StateChange)
    ensures forall e :: e in Effects(StateChanges.HostStateChange(lookup, payload)) ==>
      TagOf(e) == Some(C.HostStateChange + "d")
  {
    C.RelayRepliesAddD();
    assert Tag(HostStateChangedKind) == Some(C.HostStateChanged);
  }

  lemma HostCommandRelayTag(lookup: Result<Option<Player>>, command: GameCommand)
    ensures forall e :: e in Effects(GameCommands.HostCommandChange(lookup, command)) ==>
      TagOf(e) == Some(C.HostCommandChange + "d")
  {
    C.RelayRepliesAddD();
    assert Tag(HostCommandChangedKind) == Some(C.HostCommandChanged);
  }

  lemma GuestCommandRelayTag(lookup: Result<Option<Player>>, games: seq<Game>, command: GameCommand)
    ensures forall e :: e in Effects(GameCommands.GuestCommandChange(lookup, games, command)) ==>
      TagOf(e) == Some(C.GuestCommandChange + "d")
  {
    C.RelayRepliesAddD();
    assert Tag(GuestCommandChangedKind) == Some(C.GuestCommandChanged);
  }

  lemma MiceRelayTag(lookup: Result<Option<Player>>, games: seq<Game>, mice: Mice)
    ensures forall e :: e in Effects(MiceChanges.MiceChange(lookup, games, mice)) ==>
      TagOf(e) == Some(C.MiceChange + "d")
  {
    C.RelayRepliesAddD();
    assert Tag(MiceChangedKind) == Some(C.MiceChanged);
  }

  lemma FullStateRelayTag(lookup: Result<Option<Player>>, games: seq<Game>)
    ensures forall e :: e in Effects(FullState.GuestRequestFullState(lookup, games)) ==>
      TagOf(e) == Some(C.GuestRequestFullState)
  {
    assert Tag(GuestRequestFullStateKind) == Some(C.GuestRequestFullState);
  }

  /**
   * A host's relays are broadcasts to its instance with `meToo` false; a guest's are addressed
   * to the host of the instance it sits in.
   */
  lemma HostsBroadcastGuestsAddress(lookup: Result<Option<Player>>, games: seq<Game>, payload: StateChange,
                                    command: GameCommand, mice: Mice)
    ensures forall e :: e in Effects(StateChanges.HostStateChange(lookup, payload)) ==>
      e.Broadcasts? && !e.MeToo && e.Ref == lookup.value.value.GameInstanceRef
    ensures forall e :: e in Effects(GameCommands.HostCommandChange(lookup, command)) ==>
      e.Broadcasts? && !e.MeToo && e.Ref == lookup.value.value.GameInstanceRef
    ensures forall e :: e in Effects(MiceChanges.MiceChange(lookup, games, mice)) ==>
      e.Broadcasts? && !e.MeToo && e.Ref == lookup.value.value.GameInstanceRef
    ensures forall e :: e in Effects(StateChanges.GuestStateChange(lookup, games, payload)) ==>
      e.Sends? && e.To == FindPlayerGameInstance(games, lookup.value.value).value.HostPlayer.value.Id
    ensures forall e :: e in Effects(GameCommands.GuestCommandChange(lookup, games, command)) ==>
      e.Sends? && e.To == FindPlayerGameInstance(games, lookup.value.value).value.HostPlayer.value.Id
  {
  }
}
