/**
 * The server's object model (StateFlux/StateFlux.Model/Models): a `Game` owns its instances,
 * a `GameInstance` its occupants, and a `Player` points back at the instance it is in. These
 * classes are updated in place, so they are Dafny classes. Occupancy is decided by `SessionId`
 * equality, as `GameInstance.Join` decides it.
 */
module ServerModels {
  import opened Wrappers

  /** `Player` of StateFlux/StateFlux.Model/Models/Player.cs. */
  class Player {
    var Name: string
    var GameInstance: GameInstance?
    var Bval: Option<seq<bool>>
    var Fval: Option<seq<real>>
    var Sval: Option<seq<string>>
    var SessionId: Option<string>
    var WebsocketSessionId: Option<string>

    /** `new Player { Name = name, SessionId = sessionId }`: in no instance yet. */
    constructor (name: string, sessionId: Option<string>)
      ensures Name == name && SessionId == sessionId && GameInstance == null
      ensures Bval.None? && Fval.None? && Sval.None? && WebsocketSessionId.None?
    {
      Name := name;
      GameInstance := null;
      Bval, Fval, Sval := None, None, None;
      SessionId := sessionId;
      WebsocketSessionId := None;
    }
  }

  class GameInstance {
    var Name: string
    var Game: Game
    var Players: seq<Player>
    var HostPlayer: Player?

    /** `new GameInstance(game, name)`: no occupants and no host yet. */
    constructor (game: Game, name: string)
      ensures Game == game && Name == name && Players == [] && HostPlayer == null
    {
      Players := [];
      Game := game;
      Name := name;
      HostPlayer := null;
    }

    /** Some occupant carries the session id `sessionId`. */
    predicate Holds(sessionId: Option<string>)
      reads this, Players
    {
      exists i :: 0 <= i < |Players| && Players[i].SessionId == sessionId
    }

    /** The text `Join` throws for a player already in the instance. */
    function AlreadyInText(player: Player): string
      reads this, Game, player
    {
      "Player " + player.Name + " already in game instance " + Game.Name + ":" + Name
    }

    /**
     * `Join`: refuses a player whose session id an occupant already has, leaving everything as it
     * was; otherwise appends the player and points the player at this instance. Only this
     * instance's list is consulted, so a player seated elsewhere is accepted.
     */
    method Join(player: Player) returns (r: Result<()>)
      modifies this, player
      ensures r.Failure? <==> old(Holds(player.SessionId))
      ensures r.Failure? ==> r.error == Raise(old(AlreadyInText(player)))
      ensures r.Failure? ==> Players == old(Players) && player.GameInstance == old(player.GameInstance)
      ensures r.Success? ==> Players == old(Players) + [player] && player.GameInstance == this
      ensures r.Success? ==> Holds(player.SessionId)
      ensures Name == old(Name) && Game == old(Game) && HostPlayer == old(HostPlayer)
      ensures player.Name == old(player.Name) && player.SessionId == old(player.SessionId)
      ensures player.Bval == old(player.Bval) && player.Fval == old(player.Fval) && player.Sval == old(player.Sval)
      ensures player.WebsocketSessionId == old(player.WebsocketSessionId)
    {
      if Holds(player.SessionId) {
        return Failure(Raise(AlreadyInText(player)));
      }
      player.GameInstance := this;
      Players := Players + [player];
      assert Players[|Players| - 1] == player;
      return Success(());
    }
  }

  class Game {
    var Name: string
    var Description: string
    var MinPlayers: int
    var Instances: seq<GameInstance>

    /** `new Game { Name = name, Description = description, MinPlayers = minPlayers }`. */
    constructor (name: string, description: string, minPlayers: int)
      ensures Name == name && Description == description && MinPlayers == minPlayers
      ensures Instances == []
    {
      Name := name;
      Description := description;
      MinPlayers := minPlayers;
      Instances := [];
    }

    /**
     * `StartInstance`: a new instance named `name`, appended to this game's list, hosted by and
     * occupied by exactly `host`, who now points at it. Neither the name nor the host is checked
     * against the earlier instances, which are left as they were.
     */
    method StartInstance(host: Player, name: string) returns (instance: GameInstance)
      modifies this, host
      ensures fresh(instance)
      ensures Instances == old(Instances) + [instance]
      ensures instance.Game == this && instance.Name == name
      ensures instance.HostPlayer == host && instance.Players == [host]
      ensures host.GameInstance == instance
      ensures Name == old(Name) && Description == old(Description) && MinPlayers == old(MinPlayers)
      ensures host.Name == old(host.Name) && host.SessionId == old(host.SessionId)
      ensures host.Bval == old(host.Bval) && host.Fval == old(host.Fval) && host.Sval == old(host.Sval)
      ensures host.WebsocketSessionId == old(host.WebsocketSessionId)
    {
      instance := new GameInstance(this, name);
      Instances := Instances + [instance];
      host.GameInstance := instance;
      instance.HostPlayer := host;
      var joined := instance.Join(host);
      assert joined.Success?;
    }
  }
}
