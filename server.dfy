/**
 * `Server` (StateFlux/StateFlux/Server.cs): the shared state of the relay: the active players,
 * the game catalog, the chat log, the player map read from the database file, and the player
 * repository the handlers use. The source reaches it through the singleton `Server.Instance`;
 * here it is one object that every connection is given.
 */
module ServerState {
  import opened Wrappers
  import opened Model
  import Repository

  /**
   * A player as the database file of this revision stores it (the `Player` of
   * StateFlux/StateFlux.Model/Models/Player.cs, which has a `SessionId` of its own).
   */
  datatype StoredPlayer = StoredPlayer(
    Name: Option<string>,
    Bval: Option<seq<bool>>,
    Fval: Option<seq<Float>>,
    Sval: Option<seq<string>>,
    SessionId: Option<string>,
    WebsocketSessionId: Option<string>)

  /** The game the catalog is seeded with. */
  function AssetCollapse(): (g: Game)
    ensures g.Name == "AssetCollapse" && g.Description == "Asset Collapse Game"
    ensures g.MinPlayers == 2 && g.Instances == []
  {
    Game("AssetCollapse", "Asset Collapse Game", 2, 0, [])
  }

  /**
   * `LoadPlayerDatabase`, given what the file parses to (None when the file is missing or does
   * not parse): every record's session token is overwritten with the key it is stored under.
   */
  method LoadPlayerDatabase(file: Option<map<string, StoredPlayer>>) returns (m: map<string, StoredPlayer>)
    ensures file.None? ==> m == map[]
    ensures file.Some? ==> m.Keys == file.value.Keys
    ensures file.Some? ==> forall key :: key in m ==> m[key] == file.value[key].(SessionId := Some(key))
    ensures forall key :: key in m ==> m[key].SessionId == Some(key)
  {
    if file.None? {
      return map[];
    }
    m := file.value;
    var keys := m.Keys;
    while keys != {}
      invariant keys <= m.Keys && m.Keys == file.value.Keys
      invariant forall key :: key in m && key !in keys ==> m[key] == file.value[key].(SessionId := Some(key))
      invariant forall key :: key in keys ==> m[key] == file.value[key]
      decreases keys
    {
      var key :| key in keys;
      m := m[key := m[key].(SessionId := Some(key))];
      keys := keys - {key};
    }
  }

  class Server {
    var Players: seq<Player>
    var Games: seq<Game>
    var Chat: seq<ChatSaid>
    var PlayerDatabase: map<string, StoredPlayer>
    /** The repository the handlers persist players through. */
    const playerRepository: Repository.PlayerRepository

    /** Every record of the loaded player map carries its key as its session id. */
    ghost predicate Valid()
      reads this
    {
      forall key :: key in PlayerDatabase ==> PlayerDatabase[key].SessionId == Some(key)
    }

    /**
     * The private constructor: no active players, no chat, the player map loaded from `file`,
     * and a catalog holding the one game "AssetCollapse".
     */
    constructor (file: Option<map<string, StoredPlayer>>, repository: Repository.PlayerRepository)
      ensures Valid() && playerRepository == repository
      ensures Players == [] && Chat == [] && Games == [AssetCollapse()]
      ensures forall key :: key in PlayerDatabase ==> PlayerDatabase[key].SessionId == Some(key)
      ensures file.None? ==> PlayerDatabase == map[]
      ensures file.Some? ==> PlayerDatabase.Keys == file.value.Keys
      ensures file.Some? ==>
        forall key :: key in PlayerDatabase ==> PlayerDatabase[key] == file.value[key].(SessionId := Some(key))
    {
      Players := [];
      Games := [];
      Chat := [];
      playerRepository := repository;
      var loaded := LoadPlayerDatabase(file);
      PlayerDatabase := loaded;
      Games := Games + [AssetCollapse()];
    }
  }
}
