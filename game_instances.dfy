/**
 * The lobby handler for game instances (StateFlux/StateFlux/Handlers/GameInstanceMessageHandler.cs):
 * create, list, join and leave. Each operation is a function of the sender lookup's outcome, the
 * game catalog and the request, returning the effects it asks for in order (`Service.Effect`),
 * the reply it returns, or the exception it throws. The server's `HostGameInstance`,
 * `JoinGameInstance`, `LeaveGameInstance` and `StartGameInstance` are not part of this model:
 * what they return is a parameter (`hosted`, and the instance's state and occupancy after a join).
 */
module GameInstances {
  import opened Wrappers
  import opened Model
  import opened Messages
  import opened Service

  // ---------------------------------------------------------------- searches

  /** `Games.FirstOrDefault(g => g.Name == name)`. */
  function FindGame(games: seq<Game>, name: string): (r: Option<Game>)
    ensures r.Some? ==> r.value in games && r.value.Name == name
    ensures r.None? <==> forall g :: g in games ==> g.Name != name
  {
    if games == [] then None
    else if games[0].Name == name then Some(games[0])
    else FindGame(games[1..], name)
  }

  /** `Instances.FirstOrDefault(g => g.Name == name)`. */
  function FindInstance(instances: seq<GameInstance>, name: string): (r: Option<GameInstance>)
    ensures r.Some? ==> r.value in instances && r.value.Name == name
    ensures r.None? <==> forall gi :: gi in instances ==> gi.Name != name
  {
    if instances == [] then None
    else if instances[0].Name == name then Some(instances[0])
    else FindInstance(instances[1..], name)
  }

  /**
   * `Instances.Any(g => g.HostPlayer.Id == p.Id)`: scanned in order, stopping at the first
   * instance the player hosts; an instance without a host met before one throws.
   */
  function HostsAny(instances: seq<GameInstance>, p: Player): (r: Result<bool>)
    ensures r.Failure? ==> r.error == NullReference()
    ensures r == Success(false) <==> forall gi :: gi in instances ==> gi.HostPlayer.Some? && gi.HostPlayer.value.Id != p.Id
    ensures (forall gi :: gi in instances ==> gi.HostPlayer.Some?) ==>
      r == Success(exists gi :: gi in instances && gi.HostPlayer.value.Id == p.Id)
  {
    if instances == [] then Success(false)
    else if instances[0].HostPlayer.None? then Failure(NullReference())
    else if instances[0].HostPlayer.value.Id == p.Id then Success(true)
    else HostsAny(instances[1..], p)
  }

  // ---------------------------------------------------------------- create

  function NoSuchGameText(gameName: string): string {
    "Player tried to create game instance of game '" + gameName + "' but it does not exist!"
  }

  const OneInstanceText: string := "Player can only create one game instance at a time."

  function NameTakenText(instanceName: string, gameName: string): string {
    "Player tried to create game instance called '" + instanceName + "' but that is already taken for game " + gameName + "!"
  }

  /**
   * `CreateGameInstance`: the checks run in the order game, host, name; a request that passes
   * them has the server host a new instance for the sender, and the instance it hosted is
   * announced to that instance's scope, sender included.
   */
  function CreateGameInstance(lookup: Result<Option<Player>>, games: seq<Game>, gameName: string,
                              instanceName: string, hosted: GameInstance): (r: Result<seq<Effect>>)
    ensures SessionPlayer(lookup).Failure? ==> r == Failure(SessionPlayer(lookup).error)
    ensures SessionPlayer(lookup).Success? && FindGame(games, gameName).None? ==>
      r == Failure(Raise(NoSuchGameText(gameName)))
    ensures SessionPlayer(lookup).Success? && FindGame(games, gameName).Some? ==>
      var p := lookup.value.value;
      var g := FindGame(games, gameName).value;
      match HostsAny(g.Instances, p)
      case Failure(e) => r == Failure(e)
      case Success(true) => r == Failure(Raise(OneInstanceText))
      case Success(false) =>
        if FindInstance(g.Instances, instanceName).Some? then r == Failure(Raise(NameTakenText(instanceName, gameName)))
        else r == Success([HostsInstance(p, g, instanceName), Broadcasts(GameInstanceCreatedMessage(hosted), Some(RefOf(hosted)), true)])
  {
    var p :- SessionPlayer(lookup);
    var game := FindGame(games, gameName);
    if game.None? then Failure(Raise(NoSuchGameText(gameName)))
    else
      var g := game.value;
      var hosts :- HostsAny(g.Instances, p);
      if hosts then Failure(Raise(OneInstanceText))
      else if exists gi :: gi in g.Instances && gi.Name == instanceName then
        Failure(Raise(NameTakenText(instanceName, gameName)))
      else
        Success([HostsInstance(p, g, instanceName), Broadcasts(GameInstanceCreatedMessage(hosted), Some(RefOf(hosted)), true)])
  }

  /**
   * A creation goes ahead only for a session player, in a game of that name, that the player
   * hosts no instance of and that has no instance of that name.
   */
  lemma CreateAcceptsOnlyFresh(lookup: Result<Option<Player>>, games: seq<Game>, gameName: string,
                               instanceName: string, hosted: GameInstance)
    requires CreateGameInstance(lookup, games, gameName, instanceName, hosted).Success?
    ensures lookup.Success? && lookup.value.Some?
    ensures
      exists g :: g in games && g.Name == gameName &&
        (forall gi :: gi in g.Instances ==> gi.HostPlayer.Some? && gi.HostPlayer.value.Id != lookup.value.value.Id) &&
        (forall gi :: gi in g.Instances ==> gi.Name != instanceName)
  {
    var g := FindGame(games, gameName).value;
    assert HostsAny(g.Instances, lookup.value.value) == Success(false);
  }

  /**
   * The checks are ordered: a missing game is reported whatever else is wrong, and a player who
   * already hosts an instance of the game is told so even when the name is also taken.
   */
  lemma CreateReportsFirstFailedCheck(p: Player, games: seq<Game>, gameName: string, instanceName: string,
                                      hosted: GameInstance)
    ensures FindGame(games, gameName).None? ==>
      CreateGameInstance(Success(Some(p)), games, gameName, instanceName, hosted) == Failure(Raise(NoSuchGameText(gameName)))
    ensures FindGame(games, gameName).Some? && HostsAny(FindGame(games, gameName).value.Instances, p) == Success(true) ==>
      CreateGameInstance(Success(Some(p)), games, gameName, instanceName, hosted) == Failure(Raise(OneInstanceText))
  {
  }

  /** The creation announcement is scoped to exactly the instance the server hosted. */
  lemma CreatedAnnouncementIsScoped(lookup: Result<Option<Player>>, games: seq<Game>, gameName: string,
                                    instanceName: string, hosted: GameInstance)
    requires CreateGameInstance(lookup, games, gameName, instanceName, hosted).Success?
    ensures var es := CreateGameInstance(lookup, games, gameName, instanceName, hosted).value;
      |es| == 2 && es[1].Broadcasts? && es[1].Ref.Some? && Refers(es[1].Ref.value, hosted) && es[1].MeToo
  {
  }

  // ---------------------------------------------------------------- list

  /** `GameInstanceList`: a reply listing every game's instances, in catalog order. */
  function GameInstanceList(lookup: Result<Option<Player>>, games: seq<Game>): (r: Result<Message>)
    ensures r.Failure? <==> SessionPlayer(lookup).Failure?
    ensures r.Failure? ==> r.error == SessionPlayer(lookup).error
    ensures r.Success? ==> r.value.GameInstanceListingMessage?
    ensures r.Success? ==> forall gi :: gi in r.value.GameInstances <==> exists g :: g in games && gi in g.Instances
  {
    var _ :- SessionPlayer(lookup);
    Success(GameInstanceListingMessage(AllInstances(games)))
  }

  /** The listing keeps catalog order: the first game's instances come first, in their order. */
  lemma {:induction false} ListingKeepsOrder(games: seq<Game>)
    requires games != []
    ensures AllInstances(games) == games[0].Instances + AllInstances(games[1..])
    ensures |AllInstances(games)| >= |games[0].Instances|
  {
  }

  // ---------------------------------------------------------------- join

  /** The start rule: an instance still waiting for players starts once it holds enough. */
  predicate ShouldStart(state: GameInstanceState, occupants: nat, game: Game) {
    state == WaitingForPlayers && occupants >= game.MinPlayers
  }

  /**
   * `JoinGameInstance`: a missing game or instance throws a null reference, because the error
   * text itself reads the missing object's name. Otherwise the server joins the sender to the
   * instance, everyone is told, and the instance is started when, in the state `state` and with
   * `occupants` players that the join leaves it in, it meets the start rule.
   */
  function JoinGameInstance(lookup: Result<Option<Player>>, games: seq<Game>, gameName: string, instanceName: string,
                            state: GameInstanceState, occupants: nat): (r: Result<seq<Effect>>)
    ensures SessionPlayer(lookup).Failure? ==> r == Failure(SessionPlayer(lookup).error)
    ensures SessionPlayer(lookup).Success? ==>
      var game := FindGame(games, gameName);
      (game.None? || FindInstance(game.value.Instances, instanceName).None? <==> r.Failure?)
      && (r.Failure? ==> r.error == NullReference())
    ensures r.Success? ==>
      var p := lookup.value.value;
      var g := FindGame(games, gameName).value;
      var gi := FindInstance(g.Instances, instanceName).value;
      |r.value| >= 2 && r.value[0] == JoinsInstance(gi, p)
      && r.value[1] == Broadcasts(GameInstanceJoinedMessage(p), None, true)
      && (StartsInstance(gi.Id) in r.value <==> ShouldStart(state, occupants, g))
  {
    var p :- SessionPlayer(lookup);
    var game := FindGame(games, gameName);
    if game.None? then Failure(NullReference())
    else
      var instance := FindInstance(game.value.Instances, instanceName);
      if instance.None? then Failure(NullReference())
      else
        var gi := instance.value;
        Success([JoinsInstance(gi, p), Broadcasts(GameInstanceJoinedMessage(p), None, true)]
                + if ShouldStart(state, occupants, game.value) then [StartsInstance(gi.Id)] else [])
  }

  /** A join names an existing instance of an existing game, or it throws. */
  lemma JoinNeedsExistingInstance(lookup: Result<Option<Player>>, games: seq<Game>, gameName: string,
                                  instanceName: string, state: GameInstanceState, occupants: nat)
    requires JoinGameInstance(lookup, games, gameName, instanceName, state, occupants).Success?
    ensures exists g, gi :: g in games && g.Name == gameName && gi in g.Instances && gi.Name == instanceName
  {
    var g := FindGame(games, gameName).value;
    var gi := FindInstance(g.Instances, instanceName).value;
    assert g in games && gi in g.Instances;
  }

  // ---------------------------------------------------------------- leave

  function NoSuchInstanceText(gameName: string, instanceName: string): string {
    "game instance " + gameName + ":" + instanceName + " not found"
  }

  /**
   * `LeaveGameInstance`: a missing game throws a null reference; a missing instance throws
   * "game instance G:I not found". Otherwise the server takes the sender out of the instance
   * and everyone is told who left which instance.
   */
  function LeaveGameInstance(lookup: Result<Option<Player>>, games: seq<Game>, gameName: string, instanceName: string)
    : (r: Result<seq<Effect>>)
    ensures SessionPlayer(lookup).Failure? ==> r == Failure(SessionPlayer(lookup).error)
    ensures SessionPlayer(lookup).Success? && FindGame(games, gameName).None? ==> r == Failure(NullReference())
    ensures SessionPlayer(lookup).Success? && FindGame(games, gameName).Some? ==>
      var g := FindGame(games, gameName).value;
      (FindInstance(g.Instances, instanceName).None? ==> r == Failure(Raise(NoSuchInstanceText(g.Name, instanceName))))
      && (FindInstance(g.Instances, instanceName).Some? ==>
            r == Success([LeavesInstance(FindInstance(g.Instances, instanceName).value, lookup.value.value),
                          Broadcasts(GameInstanceLeftMessage(lookup.value.value, gameName, instanceName), None, true)]))
  {
    var p :- SessionPlayer(lookup);
    var game := FindGame(games, gameName);
    if game.None? then Failure(NullReference())
    else
      var instance := FindInstance(game.value.Instances, instanceName);
      if instance.None? then Failure(Raise(NoSuchInstanceText(game.value.Name, instanceName)))
      else
        Success([LeavesInstance(instance.value, p), Broadcasts(GameInstanceLeftMessage(p, gameName, instanceName), None, true)])
  }

  /**
   * Join and leave refuse the same requests for a missing game; for a missing instance only
   * leave names it, because join's message dereferences the instance it did not find.
   */
  lemma JoinAndLeaveRefuseAlike(p: Player, games: seq<Game>, gameName: string, instanceName: string,
                                state: GameInstanceState, occupants: nat)
    ensures JoinGameInstance(Success(Some(p)), games, gameName, instanceName, state, occupants).Failure?
      <==> LeaveGameInstance(Success(Some(p)), games, gameName, instanceName).Failure?
  {
  }
}
