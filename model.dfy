/**
 * The records of the `StateFlux.Model` namespace (client revision, which the server handlers
 * also use): positions, change records, players, game instances and their references.
 * `GameInstanceRef` and the `GameInstance` constructor are the behaviour of
 * StateFluxer/Assets/StateFlux/Model/GameInstance.cs; the rest are plain data declarations.
 */
module Model {
  import opened Wrappers
  import ShortGuid

  /** The source's `float`: modelled as a real that is only copied and compared for equality. */
  type Float = real

  datatype Vec2d = Vec2d(X: Float, Y: Float)

  /** `Pos` and `Vel` are `Vec2d` references, null in a `new Transform2d()`. */
  datatype Transform2d = Transform2d(Pos: Option<Vec2d>, Vel: Option<Vec2d>, Rot: Float, RotV: Float, Scale: Float)

  datatype Color = Color(Red: Float, Green: Float, Blue: Float, Alpha: Float)

  datatype Attributes = Attributes(Color: Option<Color>)

  datatype ChangeEvent = Created | Updated | Destroyed

  /** One object's change record; `Transform` and `Attributes` are nullable references. */
  datatype Change2d = Change2d(
    ObjectID: string,
    TypeID: Option<string>,
    Event: ChangeEvent,
    Transform: Option<Transform2d>,
    Attributes: Option<Attributes>)

  datatype StateChange = StateChange(Changes: seq<Change2d>)

  datatype Mouse = Mouse(PlayerId: string, Icon: Option<string>, Style: Option<string>, Pos: Vec2d)

  datatype Mice = Mice(Items: seq<Mouse>)

  datatype GuestInput = GuestInput(
    mPos: Option<Vec2d>,
    mDown: bool,
    mClicked: bool,
    vArrows: Float,
    hArrows: Float,
    btn1: bool,
    btn2: bool,
    btn3: bool)

  datatype GameCommand = GameCommand(Name: string, ObjectId: string, Params: map<string, string>)

  datatype SessionData = SessionData(SessionId: Option<string>, WebsocketSessionId: Option<string>)

  /** A date-time stamp; clocks are outside the model. */
  type Time = int

  datatype Player = Player(
    Id: Option<string>,
    Name: string,
    Color: Option<Color>,
    Icon: int,
    Score: int,
    Bval: Option<seq<bool>>,
    Fval: Option<seq<Float>>,
    Sval: Option<seq<string>>,
    LastUpdated: Option<Time>,
    GameInstanceRef: Option<GameInstanceRef>,
    SessionData: Option<SessionData>)

  /** `new Player { Name = name, SessionData = data }`: every other property at its default. */
  function NewPlayer(name: string, data: SessionData): (p: Player)
    ensures p.Name == name && p.SessionData == Some(data)
    ensures p.Id.None? && p.GameInstanceRef.None? && p.LastUpdated.None?
  {
    Player(None, name, None, 0, 0, None, None, None, None, None, Some(data))
  }

  datatype GameInstanceRef = GameInstanceRef(Id: Option<string>, Name: Option<string>, GameName: Option<string>)

  datatype GameInstanceState = WaitingForPlayers | Starting | InProgress | Stopping | Finished

  /**
   * A game instance as a value. The back reference `Game` is kept as the game's name; the
   * occupants and the host are the player records, compared by `Id` where the source compares
   * object references.
   */
  datatype GameInstance = GameInstance(
    Id: string,
    Name: string,
    GameName: string,
    State: GameInstanceState,
    Players: seq<Player>,
    HostPlayer: Option<Player>)

  datatype Game = Game(
    Name: string,
    Description: string,
    MinPlayers: int,
    MaxPlayers: int,
    Instances: seq<GameInstance>)

  datatype ChatSaid = ChatSaid(PlayerName: string, Saying: string)

  /** `new GameInstanceRef()`: no instance. */
  function EmptyRef(): (r: GameInstanceRef)
    ensures r.Id.None?
  {
    GameInstanceRef(None, None, None)
  }

  /** `new GameInstanceRef(gi)`: the reference names exactly the instance it was built from. */
  function RefOf(gi: GameInstance): (r: GameInstanceRef)
    ensures Refers(r, gi)
    ensures r.Name == Some(gi.Name) && r.GameName == Some(gi.GameName)
  {
    GameInstanceRef(Some(gi.Id), Some(gi.Name), Some(gi.GameName))
  }

  /** A reference designates an instance when it carries that instance's Id. */
  predicate Refers(r: GameInstanceRef, gi: GameInstance) {
    r.Id == Some(gi.Id)
  }

  /** `new GameInstance(game, name)`, with `ShortGuid.Generate` drawing the random bytes `guid`. */
  function NewGameInstance(game: Game, name: string, guid: seq<ShortGuid.byte>): (gi: GameInstance)
    requires |guid| == 16
    ensures gi.State == WaitingForPlayers && gi.Players == [] && gi.HostPlayer.None?
    ensures gi.GameName == game.Name && gi.Name == name
    ensures |gi.Id| == 22 && ShortGuid.Decode(gi.Id) == Some(guid)
  {
    ShortGuid.DecodeGenerate(guid);
    GameInstance(ShortGuid.Generate(guid), name, game.Name, WaitingForPlayers, [], None)
  }

  /** Two instances built from different random bytes get different Ids, so their references differ. */
  lemma NewInstancesAreDistinguished(game: Game, name: string, g1: seq<ShortGuid.byte>, g2: seq<ShortGuid.byte>)
    requires |g1| == 16 && |g2| == 16 && g1 != g2
    ensures !Refers(RefOf(NewGameInstance(game, name, g1)), NewGameInstance(game, name, g2))
  {
    ShortGuid.GenerateInjective(g1, g2);
  }

  /** A player occupies an instance when one of its occupants has the player's Id. */
  predicate Occupies(gi: GameInstance, p: Player) {
    exists q :: q in gi.Players && q.Id == p.Id
  }
}
