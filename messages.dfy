/**
 * The messages exchanged between client and server (StateFlux/StateFlux.Model/Messages/Message.cs,
 * plus the relay messages the handlers and the client use): each class is a constructor of
 * `Message`, and its .NET type is a `MessageKind`. Each constructor sets `MessageType` to its tag;
 * `Tag` gives that tag, or None where the tag the constructor names is declared by no tag table.
 * The payload properties, all called `Payload` in the source, are named after their type here
 * (`Payload`, `Command`, `Input`, `Mice`) because one field name cannot carry two types.
 */
module Messages {
  import opened Wrappers
  import opened Model
  import S = ServerMessageTypes
  import C = ClientMessageTypes

  /** `AuthenticationStatus`; its first member, `Authenticated`, is the default value. */
  datatype AuthenticationStatus = Authenticated | BadUser | BadPassword

  /** A message .NET type: one per message class. */
  datatype MessageKind =
      AuthenticateKind
    | AuthenticatedKind
    | ChatSayKind
    | ChatSaidKind
    | PlayerListKind
    | PlayerListingKind
    | PlayerRenameKind
    | StateChangeKind
    | StateChangedKind
    | RequestFullStateKind
    | CreateGameInstanceKind
    | GameInstanceCreatedKind
    | GameInstanceListKind
    | GameInstanceListingKind
    | JoinGameInstanceKind
    | JoinedGameInstanceKind
    | LeaveGameInstanceKind
    | LeftGameInstanceKind
    | StartGameInstanceKind
    | ServerErrorKind
    | GameInstanceJoinedKind
    | GameInstanceLeftKind
    | HostStateChangeKind
    | HostStateChangedKind
    | GuestStateChangeKind
    | GuestStateChangedKind
    | HostCommandChangeKind
    | HostCommandChangedKind
    | GuestCommandChangeKind
    | GuestCommandChangedKind
    | GuestInputChangeKind
    | GuestInputChangedKind
    | MiceChangeKind
    | MiceChangedKind
    | GuestRequestFullStateKind

  datatype Message =
      AuthenticateMessage(PlayerName: Option<string>)
    | AuthenticatedMessage(Status: AuthenticationStatus, StatusMessage: Option<string>, PlayerId: Option<string>, PlayerName: Option<string>, SessionId: Option<string>)
    | ChatSayMessage(say: string)
    | ChatSaidMessage(PlayerName: Option<string>, Say: string)
    | PlayerListMessage
    | PlayerListingMessage(Players: seq<Player>)
    | PlayerRenameMessage(Name: string)
    | StateChangeMessage(Payload: StateChange)
    | StateChangedMessage(Payload: StateChange)
    | RequestFullStateMessage
    | CreateGameInstanceMessage(GameName: string, InstanceName: string)
    | GameInstanceCreatedMessage(GameInstance: GameInstance)
    | GameInstanceListMessage
    | GameInstanceListingMessage(GameInstances: seq<GameInstance>)
    | JoinGameInstanceMessage(GameName: string, InstanceName: string)
    | JoinedGameInstanceMessage(Player: Player)
    | LeaveGameInstanceMessage(GameName: string, InstanceName: string)
    | LeftGameInstanceMessage(Player: Player)
    | StartGameInstanceMessage(GameInstance: GameInstance)
    | ServerErrorMessage(Error: string)
    | GameInstanceJoinedMessage(Player: Player)
    | GameInstanceLeftMessage(Player: Player, GameName: string, InstanceName: string)
    | HostStateChangeMessage(Payload: StateChange)
    | HostStateChangedMessage(Payload: StateChange)
    | GuestStateChangeMessage(Payload: StateChange)
    | GuestStateChangedMessage(Guest: Option<string>, Payload: StateChange)
    | HostCommandChangeMessage(Command: GameCommand)
    | HostCommandChangedMessage(Command: GameCommand)
    | GuestCommandChangeMessage(Command: GameCommand)
    | GuestCommandChangedMessage(Guest: Option<string>, Command: GameCommand)
    | GuestInputChangeMessage(Input: GuestInput)
    | GuestInputChangedMessage(Guest: Option<string>, Input: GuestInput)
    | MiceChangeMessage(Mice: Mice)
    | MiceChangedMessage(Mice: Mice)
    | GuestRequestFullStateMessage
  {
    /** `GetType()`: the class of this message. */
    function Kind(): MessageKind {
      match this
      case AuthenticateMessage(_) => AuthenticateKind
      case AuthenticatedMessage(_, _, _, _, _) => AuthenticatedKind
      case ChatSayMessage(_) => ChatSayKind
      case ChatSaidMessage(_, _) => ChatSaidKind
      case PlayerListMessage => PlayerListKind
      case PlayerListingMessage(_) => PlayerListingKind
      case PlayerRenameMessage(_) => PlayerRenameKind
      case StateChangeMessage(_) => StateChangeKind
      case StateChangedMessage(_) => StateChangedKind
      case RequestFullStateMessage => RequestFullStateKind
      case CreateGameInstanceMessage(_, _) => CreateGameInstanceKind
      case GameInstanceCreatedMessage(_) => GameInstanceCreatedKind
      case GameInstanceListMessage => GameInstanceListKind
      case GameInstanceListingMessage(_) => GameInstanceListingKind
      case JoinGameInstanceMessage(_, _) => JoinGameInstanceKind
      case JoinedGameInstanceMessage(_) => JoinedGameInstanceKind
      case LeaveGameInstanceMessage(_, _) => LeaveGameInstanceKind
      case LeftGameInstanceMessage(_) => LeftGameInstanceKind
      case StartGameInstanceMessage(_) => StartGameInstanceKind
      case ServerErrorMessage(_) => ServerErrorKind
      case GameInstanceJoinedMessage(_) => GameInstanceJoinedKind
      case GameInstanceLeftMessage(_, _, _) => GameInstanceLeftKind
      case HostStateChangeMessage(_) => HostStateChangeKind
      case HostStateChangedMessage(_) => HostStateChangedKind
      case GuestStateChangeMessage(_) => GuestStateChangeKind
      case GuestStateChangedMessage(_, _) => GuestStateChangedKind
      case HostCommandChangeMessage(_) => HostCommandChangeKind
      case HostCommandChangedMessage(_) => HostCommandChangedKind
      case GuestCommandChangeMessage(_) => GuestCommandChangeKind
      case GuestCommandChangedMessage(_, _) => GuestCommandChangedKind
      case GuestInputChangeMessage(_) => GuestInputChangeKind
      case GuestInputChangedMessage(_, _) => GuestInputChangedKind
      case MiceChangeMessage(_) => MiceChangeKind
      case MiceChangedMessage(_) => MiceChangedKind
      case GuestRequestFullStateMessage => GuestRequestFullStateKind
    }
  }

  /** The name a message class has before the "Message" suffix. */
  function BaseName(k: MessageKind): string {
    match k
    case AuthenticateKind => "Authenticate"
    case AuthenticatedKind => "Authenticated"
    case ChatSayKind => "ChatSay"
    case ChatSaidKind => "ChatSaid"
    case PlayerListKind => "PlayerList"
    case PlayerListingKind => "PlayerListing"
    case PlayerRenameKind => "PlayerRename"
    case StateChangeKind => "StateChange"
    case StateChangedKind => "StateChanged"
    case RequestFullStateKind => "RequestFullState"
    case CreateGameInstanceKind => "CreateGameInstance"
    case GameInstanceCreatedKind => "GameInstanceCreated"
    case GameInstanceListKind => "GameInstanceList"
    case GameInstanceListingKind => "GameInstanceListing"
    case JoinGameInstanceKind => "JoinGameInstance"
    case JoinedGameInstanceKind => "JoinedGameInstance"
    case LeaveGameInstanceKind => "LeaveGameInstance"
    case LeftGameInstanceKind => "LeftGameInstance"
    case StartGameInstanceKind => "StartGameInstance"
    case ServerErrorKind => "ServerError"
    case GameInstanceJoinedKind => "GameInstanceJoined"
    case GameInstanceLeftKind => "GameInstanceLeft"
    case HostStateChangeKind => "HostStateChange"
    case HostStateChangedKind => "HostStateChanged"
    case GuestStateChangeKind => "GuestStateChange"
    case GuestStateChangedKind => "GuestStateChanged"
    case HostCommandChangeKind => "HostCommandChange"
    case HostCommandChangedKind => "HostCommandChanged"
    case GuestCommandChangeKind => "GuestCommandChange"
    case GuestCommandChangedKind => "GuestCommandChanged"
    case GuestInputChangeKind => "GuestInputChange"
    case GuestInputChangedKind => "GuestInputChanged"
    case MiceChangeKind => "MiceChange"
    case MiceChangedKind => "MiceChanged"
    case GuestRequestFullStateKind => "GuestRequestFullState"
  }

  /** The short name of a message class. */
  function ClassName(k: MessageKind): string {
    BaseName(k) + "Message"
  }

  /** `k`, when `name` is its base name. */
  function Candidate(k: MessageKind, name: string): Option<MessageKind> {
    if BaseName(k) == name then Some(k) else None
  }

  /** The class whose base name is `name`, found by a decision on length and a few characters. */
  function KindOfBase(name: string): Option<MessageKind> {
    if |name| == 7 then
      Candidate(ChatSayKind, name)
    else if |name| == 8 then
      Candidate(ChatSaidKind, name)
    else if |name| == 10 then
      if name[0] == 'M' then
        Candidate(MiceChangeKind, name)
      else
        Candidate(PlayerListKind, name)
    else if |name| == 11 then
      if name[1] == 'e' then
        Candidate(ServerErrorKind, name)
      else if name[1] == 'i' then
        Candidate(MiceChangedKind, name)
      else
        Candidate(StateChangeKind, name)
    else if |name| == 12 then
      if name[0] == 'A' then
        Candidate(AuthenticateKind, name)
      else if name[0] == 'P' then
        Candidate(PlayerRenameKind, name)
      else
        Candidate(StateChangedKind, name)
    else if |name| == 13 then
      if name[0] == 'A' then
        Candidate(AuthenticatedKind, name)
      else
        Candidate(PlayerListingKind, name)
    else if |name| == 15 then
      Candidate(HostStateChangeKind, name)
    else if |name| == 16 then
      if name[2] == 'e' then
        if name[5] == 'I' then
          Candidate(GuestInputChangeKind, name)
        else
          Candidate(GuestStateChangeKind, name)
      else if name[2] == 'f' then
        Candidate(LeftGameInstanceKind, name)
      else if name[2] == 'i' then
        Candidate(JoinGameInstanceKind, name)
      else if name[2] == 'm' then
        if name[13] == 'e' then
          Candidate(GameInstanceLeftKind, name)
        else
          Candidate(GameInstanceListKind, name)
      else if name[2] == 'q' then
        Candidate(RequestFullStateKind, name)
      else
        Candidate(HostStateChangedKind, name)
    else if |name| == 17 then
      if name[0] == 'G' then
        if name[5] == 'I' then
          Candidate(GuestInputChangedKind, name)
        else
          Candidate(GuestStateChangedKind, name)
      else if name[0] == 'H' then
        Candidate(HostCommandChangeKind, name)
      else if name[0] == 'L' then
        Candidate(LeaveGameInstanceKind, name)
      else
        Candidate(StartGameInstanceKind, name)
    else if |name| == 18 then
      if name[3] == 'a' then
        Candidate(CreateGameInstanceKind, name)
      else if name[3] == 'e' then
        Candidate(GameInstanceJoinedKind, name)
      else if name[3] == 'n' then
        Candidate(JoinedGameInstanceKind, name)
      else if name[3] == 's' then
        Candidate(GuestCommandChangeKind, name)
      else
        Candidate(HostCommandChangedKind, name)
    else if |name| == 19 then
      if name[13] == 'h' then
        Candidate(GuestCommandChangedKind, name)
      else if name[13] == 'i' then
        Candidate(GameInstanceListingKind, name)
      else
        Candidate(GameInstanceCreatedKind, name)
    else if |name| == 21 then
      Candidate(GuestRequestFullStateKind, name)
    else None
  }

  /** The class named `name`, if there is one: the lookup behind `Type.GetType`. */
  function KindNamed(name: string): Option<MessageKind> {
    if |name| >= 7 && name[|name| - 7..] == "Message" then KindOfBase(name[..|name| - 7]) else None
  }

  /**
   * `new AuthenticatedMessage()`: Status holds the enum's default, its first member
   * `Authenticated`, and every reference property is null.
   */
  function NewAuthenticatedMessage(): (m: Message)
    ensures m.AuthenticatedMessage? && m.Status == Authenticated
    ensures m.StatusMessage.None? && m.PlayerId.None? && m.PlayerName.None? && m.SessionId.None?
  {
    AuthenticatedMessage(Authenticated, None, None, None, None)
  }

  /**
   * The tag each class's constructor stores in `MessageType`; None where no tag table of the
   * system declares the constant it names, or where the class sets no tag of its own.
   */
  function Tag(k: MessageKind): Option<string> {
    match k
    case AuthenticateKind => Some(S.Authenticate)
    case AuthenticatedKind => Some(S.Authenticated)
    case ChatSayKind => Some(S.ChatSay)
    case ChatSaidKind => Some(S.ChatSaid)
    case PlayerListKind => Some(S.PlayerList)
    case PlayerListingKind => Some(S.PlayerListing)
    case PlayerRenameKind => Some(S.PlayerRename)
    case StateChangeKind => Some(S.StateChange)
    case StateChangedKind => Some(S.StateChanged)
    case RequestFullStateKind => Some(S.RequestFullState)
    case CreateGameInstanceKind => Some(S.CreateGameInstance)
    case GameInstanceCreatedKind => Some(S.GameInstanceCreated)
    case GameInstanceListKind => Some(S.GameInstanceList)
    case GameInstanceListingKind => Some(S.GameInstanceListing)
    case JoinGameInstanceKind => Some(S.JoinGameInstance)
    case JoinedGameInstanceKind => None
    case LeaveGameInstanceKind => Some(S.LeaveGameInstance)
    case LeftGameInstanceKind => None
    case StartGameInstanceKind => None
    case ServerErrorKind => Some(S.ServerError)
    case GameInstanceJoinedKind => Some(S.GameInstanceJoined)
    case GameInstanceLeftKind => Some(S.GameInstanceLeft)
    case HostStateChangeKind => Some(C.HostStateChange)
    case HostStateChangedKind => Some(C.HostStateChanged)
    case GuestStateChangeKind => None
    case GuestStateChangedKind => None
    case HostCommandChangeKind => Some(C.HostCommandChange)
    case HostCommandChangedKind => Some(C.HostCommandChanged)
    case GuestCommandChangeKind => Some(C.GuestCommandChange)
    case GuestCommandChangedKind => Some(C.GuestCommandChanged)
    case GuestInputChangeKind => Some(C.GuestInputChange)
    case GuestInputChangedKind => Some(C.GuestInputChanged)
    case MiceChangeKind => Some(C.MiceChange)
    case MiceChangedKind => Some(C.MiceChanged)
    case GuestRequestFullStateKind => Some(C.GuestRequestFullState)
  }

  /** The prefix and suffix `ExtractTypeFromMessage` wraps around a tag. */
  const MessageClassPrefix: string := "StateFlux.Model."
  const MessageClassSuffix: string := "Message, StateFlux.Model"
  const AssemblySuffix: string := ", StateFlux.Model"

  /** The assembly-qualified name of a message class. */
  function QualifiedName(k: MessageKind): string {
    MessageClassPrefix + ClassName(k) + AssemblySuffix
  }

  /** A type of the model assembly that names a message: the base class `Message`, or one of its subclasses. */
  datatype MessageClass = BaseMessage | Subclass(kind: MessageKind)

  /**
   * `Type.GetType(name)` over the message classes: strip namespace and assembly, then look the
   * class up; the base class `Message` resolves too.
   */
  function TypeGetType(name: string): Option<MessageClass> {
    if |name| >= |MessageClassPrefix| + |AssemblySuffix|
       && name[..|MessageClassPrefix|] == MessageClassPrefix
       && name[|name| - |AssemblySuffix|..] == AssemblySuffix
    then
      var inner := name[|MessageClassPrefix|..|name| - |AssemblySuffix|];
      if inner == "Message" then Some(BaseMessage)
      else match KindNamed(inner)
        case Some(k) => Some(Subclass(k))
        case None => None
    else None
  }

  /** `ExtractTypeFromMessage`: the class named by a peeked message's tag (a null tag concatenates as ""). */
  function ExtractTypeFromMessage(messageType: Option<string>): Option<MessageClass> {
    TypeGetType(MessageClassPrefix + messageType.GetOr("") + MessageClassSuffix)
  }

  // ---------------------------------------------------------------- proofs

  /** Cutting a prefix and a suffix off `p + m + a` gives back `m`. */
  lemma Unwrap(p: string, m: string, a: string)
    ensures var n := p + m + a;
      n[..|p|] == p && n[|n| - |a|..] == a && n[|p|..|n| - |a|] == m
  {
    var n := p + m + a;
    assert n[..|p|] == p;
    assert n[|n| - |a|..] == a;
    assert n[|p|..|n| - |a|] == m;
  }

  /** Each class is found by its base name; one lemma per class keeps each proof small. */
  lemma KindOfBaseNameAuthenticate()
    ensures KindOfBase(BaseName(AuthenticateKind)) == Some(AuthenticateKind)
  {
  }

  lemma KindOfBaseNameAuthenticated()
    ensures KindOfBase(BaseName(AuthenticatedKind)) == Some(AuthenticatedKind)
  {
  }

  lemma KindOfBaseNameChatSay()
    ensures KindOfBase(BaseName(ChatSayKind)) == Some(ChatSayKind)
  {
  }

  lemma KindOfBaseNameChatSaid()
    ensures KindOfBase(BaseName(ChatSaidKind)) == Some(ChatSaidKind)
  {
  }

  lemma KindOfBaseNamePlayerList()
    ensures KindOfBase(BaseName(PlayerListKind)) == Some(PlayerListKind)
  {
  }

  lemma KindOfBaseNamePlayerListing()
    ensures KindOfBase(BaseName(PlayerListingKind)) == Some(PlayerListingKind)
  {
  }

  lemma KindOfBaseNamePlayerRename()
    ensures KindOfBase(BaseName(PlayerRenameKind)) == Some(PlayerRenameKind)
  {
  }

  lemma KindOfBaseNameStateChange()
    ensures KindOfBase(BaseName(StateChangeKind)) == Some(StateChangeKind)
  {
  }

  lemma KindOfBaseNameStateChanged()
    ensures KindOfBase(BaseName(StateChangedKind)) == Some(StateChangedKind)
  {
  }

  lemma KindOfBaseNameRequestFullState()
    ensures KindOfBase(BaseName(RequestFullStateKind)) == Some(RequestFullStateKind)
  {
  }

  lemma KindOfBaseNameCreateGameInstance()
    ensures KindOfBase(BaseName(CreateGameInstanceKind)) == Some(CreateGameInstanceKind)
  {
  }

  lemma KindOfBaseNameGameInstanceCreated()
    ensures KindOfBase(BaseName(GameInstanceCreatedKind)) == Some(GameInstanceCreatedKind)
  {
  }

  lemma KindOfBaseNameGameInstanceList()
    ensures KindOfBase(BaseName(GameInstanceListKind)) == Some(GameInstanceListKind)
  {
  }

  lemma KindOfBaseNameGameInstanceListing()
    ensures KindOfBase(BaseName(GameInstanceListingKind)) == Some(GameInstanceListingKind)
  {
  }

  lemma KindOfBaseNameJoinGameInstance()
    ensures KindOfBase(BaseName(JoinGameInstanceKind)) == Some(JoinGameInstanceKind)
  {
  }

  lemma KindOfBaseNameJoinedGameInstance()
    ensures KindOfBase(BaseName(JoinedGameInstanceKind)) == Some(JoinedGameInstanceKind)
  {
  }

  lemma KindOfBaseNameLeaveGameInstance()
    ensures KindOfBase(BaseName(LeaveGameInstanceKind)) == Some(LeaveGameInstanceKind)
  {
  }

  lemma KindOfBaseNameLeftGameInstance()
    ensures KindOfBase(BaseName(LeftGameInstanceKind)) == Some(LeftGameInstanceKind)
  {
  }

  lemma KindOfBaseNameStartGameInstance()
    ensures KindOfBase(BaseName(StartGameInstanceKind)) == Some(StartGameInstanceKind)
  {
  }

  lemma KindOfBaseNameServerError()
    ensures KindOfBase(BaseName(ServerErrorKind)) == Some(ServerErrorKind)
  {
  }

  lemma KindOfBaseNameGameInstanceJoined()
    ensures KindOfBase(BaseName(GameInstanceJoinedKind)) == Some(GameInstanceJoinedKind)
  {
  }

  lemma KindOfBaseNameGameInstanceLeft()
    ensures KindOfBase(BaseName(GameInstanceLeftKind)) == Some(GameInstanceLeftKind)
  {
  }

  lemma KindOfBaseNameHostStateChange()
    ensures KindOfBase(BaseName(HostStateChangeKind)) == Some(HostStateChangeKind)
  {
  }

  lemma KindOfBaseNameHostStateChanged()
    ensures KindOfBase(BaseName(HostStateChangedKind)) == Some(HostStateChangedKind)
  {
  }

  lemma KindOfBaseNameGuestStateChange()
    ensures KindOfBase(BaseName(GuestStateChangeKind)) == Some(GuestStateChangeKind)
  {
  }

  lemma KindOfBaseNameGuestStateChanged()
    ensures KindOfBase(BaseName(GuestStateChangedKind)) == Some(GuestStateChangedKind)
  {
  }

  lemma KindOfBaseNameHostCommandChange()
    ensures KindOfBase(BaseName(HostCommandChangeKind)) == Some(HostCommandChangeKind)
  {
  }

  lemma KindOfBaseNameHostCommandChanged()
    ensures KindOfBase(BaseName(HostCommandChangedKind)) == Some(HostCommandChangedKind)
  {
  }

  lemma KindOfBaseNameGuestCommandChange()
    ensures KindOfBase(BaseName(GuestCommandChangeKind)) == Some(GuestCommandChangeKind)
  {
  }

  lemma KindOfBaseNameGuestCommandChanged()
    ensures KindOfBase(BaseName(GuestCommandChangedKind)) == Some(GuestCommandChangedKind)
  {
  }

  lemma KindOfBaseNameGuestInputChange()
    ensures KindOfBase(BaseName(GuestInputChangeKind)) == Some(GuestInputChangeKind)
  {
  }

  lemma KindOfBaseNameGuestInputChanged()
    ensures KindOfBase(BaseName(GuestInputChangedKind)) == Some(GuestInputChangedKind)
  {
  }

  lemma KindOfBaseNameMiceChange()
    ensures KindOfBase(BaseName(MiceChangeKind)) == Some(MiceChangeKind)
  {
  }

  lemma KindOfBaseNameMiceChanged()
    ensures KindOfBase(BaseName(MiceChangedKind)) == Some(MiceChangedKind)
  {
  }

  lemma KindOfBaseNameGuestRequestFullState()
    ensures KindOfBase(BaseName(GuestRequestFullStateKind)) == Some(GuestRequestFullStateKind)
  {
  }

  /** The decision on length and characters finds every class by its base name. */
  lemma KindOfBaseName(k: MessageKind)
    ensures KindOfBase(BaseName(k)) == Some(k)
  {
    match k
    case AuthenticateKind => KindOfBaseNameAuthenticate();
    case AuthenticatedKind => KindOfBaseNameAuthenticated();
    case ChatSayKind => KindOfBaseNameChatSay();
    case ChatSaidKind => KindOfBaseNameChatSaid();
    case PlayerListKind => KindOfBaseNamePlayerList();
    case PlayerListingKind => KindOfBaseNamePlayerListing();
    case PlayerRenameKind => KindOfBaseNamePlayerRename();
    case StateChangeKind => KindOfBaseNameStateChange();
    case StateChangedKind => KindOfBaseNameStateChanged();
    case RequestFullStateKind => KindOfBaseNameRequestFullState();
    case CreateGameInstanceKind => KindOfBaseNameCreateGameInstance();
    case GameInstanceCreatedKind => KindOfBaseNameGameInstanceCreated();
    case GameInstanceListKind => KindOfBaseNameGameInstanceList();
    case GameInstanceListingKind => KindOfBaseNameGameInstanceListing();
    case JoinGameInstanceKind => KindOfBaseNameJoinGameInstance();
    case JoinedGameInstanceKind => KindOfBaseNameJoinedGameInstance();
    case LeaveGameInstanceKind => KindOfBaseNameLeaveGameInstance();
    case LeftGameInstanceKind => KindOfBaseNameLeftGameInstance();
    case StartGameInstanceKind => KindOfBaseNameStartGameInstance();
    case ServerErrorKind => KindOfBaseNameServerError();
    case GameInstanceJoinedKind => KindOfBaseNameGameInstanceJoined();
    case GameInstanceLeftKind => KindOfBaseNameGameInstanceLeft();
    case HostStateChangeKind => KindOfBaseNameHostStateChange();
    case HostStateChangedKind => KindOfBaseNameHostStateChanged();
    case GuestStateChangeKind => KindOfBaseNameGuestStateChange();
    case GuestStateChangedKind => KindOfBaseNameGuestStateChanged();
    case HostCommandChangeKind => KindOfBaseNameHostCommandChange();
    case HostCommandChangedKind => KindOfBaseNameHostCommandChanged();
    case GuestCommandChangeKind => KindOfBaseNameGuestCommandChange();
    case GuestCommandChangedKind => KindOfBaseNameGuestCommandChanged();
    case GuestInputChangeKind => KindOfBaseNameGuestInputChange();
    case GuestInputChangedKind => KindOfBaseNameGuestInputChanged();
    case MiceChangeKind => KindOfBaseNameMiceChange();
    case MiceChangedKind => KindOfBaseNameMiceChanged();
    case GuestRequestFullStateKind => KindOfBaseNameGuestRequestFullState();
  }

  /** Class names and the lookup agree: the name of a class looks up that class. */
  lemma KindNamedClassName(k: MessageKind)
    ensures KindNamed(ClassName(k)) == Some(k)
  {
    Unwrap(BaseName(k), "Message", "");
    assert BaseName(k) + "Message" + "" == ClassName(k);
    KindOfBaseName(k);
  }

  /** No two message classes share a name. */
  lemma ClassNameInjective(k1: MessageKind, k2: MessageKind)
    requires ClassName(k1) == ClassName(k2)
    ensures k1 == k2
  {
    KindNamedClassName(k1);
    KindNamedClassName(k2);
  }

  /** Every class with a declared tag is named tag + "Message". */
  lemma ClassNameIsTagMessage(k: MessageKind)
    requires Tag(k).Some?
    ensures ClassName(k) == Tag(k).value + "Message"
  {
  }

  /** A qualified class name resolves back to its class. */
  lemma TypeGetTypeQualifiedName(k: MessageKind)
    ensures TypeGetType(QualifiedName(k)) == Some(Subclass(k))
  {
    Unwrap(MessageClassPrefix, ClassName(k), AssemblySuffix);
    KindNamedClassName(k);
    assert |BaseName(k)| > 0;
  }

  /** Appending is associative, in the shape the qualified names need. */
  lemma Regroup(p: string, t: string, m: string, a: string)
    ensures p + t + (m + a) == p + (t + m) + a
  {
    assert p + t + (m + a) == p + (t + m) + a;
  }

  /** The suffix `ExtractTypeFromMessage` appends is "Message" followed by the assembly name. */
  lemma ClassSuffixSplits()
    ensures MessageClassSuffix == "Message" + AssemblySuffix
  {
  }

  /**
   * The server's dispatch rule: the type extracted from a message's tag is the class whose
   * constructor sets that tag.
   */
  lemma ExtractTypeFromTag(k: MessageKind)
    requires Tag(k).Some?
    ensures ExtractTypeFromMessage(Tag(k)) == Some(Subclass(k))
  {
    var t := Tag(k).value;
    ClassNameIsTagMessage(k);
    ClassSuffixSplits();
    Regroup(MessageClassPrefix, t, "Message", AssemblySuffix);
    TypeGetTypeQualifiedName(k);
  }

  /**
   * A message without a tag names the base class `Message` itself, not one of the classes a
   * tag names; no handler takes the base class, so the handler-map lookup after it fails.
   */
  lemma NullTagNamesBaseClass()
    ensures ExtractTypeFromMessage(None) == Some(BaseMessage)
    ensures forall k :: Tag(k).Some? ==> ExtractTypeFromMessage(None) != ExtractTypeFromMessage(Tag(k))
  {
    ClassSuffixSplits();
    var n := MessageClassPrefix + "" + MessageClassSuffix;
    assert n == MessageClassPrefix + "Message" + AssemblySuffix;
    Unwrap(MessageClassPrefix, "Message", AssemblySuffix);
    forall k | Tag(k).Some?
      ensures ExtractTypeFromMessage(Tag(k)) == Some(Subclass(k))
    {
      ExtractTypeFromTag(k);
    }
  }

  /** The relay messages: the host's and guests' game traffic, tagged from the client table. */
  predicate RelayKind(k: MessageKind) {
    match k
    case HostStateChangeKind | HostStateChangedKind | GuestStateChangeKind | GuestStateChangedKind
       | HostCommandChangeKind | HostCommandChangedKind | GuestCommandChangeKind | GuestCommandChangedKind
       | GuestInputChangeKind | GuestInputChangedKind | MiceChangeKind | MiceChangedKind
       | GuestRequestFullStateKind => true
    case _ => false
  }

  ghost predicate InServerTable(t: string) {
    exists i :: 0 <= i < |S.Table| && S.Table[i].1 == t
  }

  ghost predicate InClientTable(t: string) {
    exists i :: 0 <= i < |C.Table| && C.Table[i].1 == t
  }

  lemma ServerTagsComeFromServerTable(k: MessageKind)
    requires Tag(k).Some? && !RelayKind(k)
    ensures InServerTable(Tag(k).value)
  {
    match k
    case AuthenticateKind => assert S.Table[0].1 == S.Authenticate;
    case AuthenticatedKind => assert S.Table[1].1 == S.Authenticated;
    case ChatSayKind => assert S.Table[2].1 == S.ChatSay;
    case ChatSaidKind => assert S.Table[5].1 == S.ChatSaid;
    case PlayerListKind => assert S.Table[3].1 == S.PlayerList;
    case PlayerListingKind => assert S.Table[6].1 == S.PlayerListing;
    case PlayerRenameKind => assert S.Table[4].1 == S.PlayerRename;
    case StateChangeKind => assert S.Table[18].1 == S.StateChange;
    case StateChangedKind => assert S.Table[20].1 == S.StateChanged;
    case RequestFullStateKind => assert S.Table[19].1 == S.RequestFullState;
    case CreateGameInstanceKind => assert S.Table[7].1 == S.CreateGameInstance;
    case GameInstanceCreatedKind => assert S.Table[12].1 == S.GameInstanceCreated;
    case GameInstanceListKind => assert S.Table[10].1 == S.GameInstanceList;
    case GameInstanceListingKind => assert S.Table[11].1 == S.GameInstanceListing;
    case JoinGameInstanceKind => assert S.Table[8].1 == S.JoinGameInstance;
    case JoinedGameInstanceKind =>
    case LeaveGameInstanceKind => assert S.Table[9].1 == S.LeaveGameInstance;
    case LeftGameInstanceKind =>
    case StartGameInstanceKind =>
    case ServerErrorKind => assert S.Table[21].1 == S.ServerError;
    case GameInstanceJoinedKind => assert S.Table[13].1 == S.GameInstanceJoined;
    case GameInstanceLeftKind => assert S.Table[14].1 == S.GameInstanceLeft;
  }

  lemma RelayTagsComeFromClientTable(k: MessageKind)
    requires Tag(k).Some? && RelayKind(k)
    ensures InClientTable(Tag(k).value)
  {
    match k
    case HostStateChangeKind => assert C.Table[20].1 == C.HostStateChange;
    case HostStateChangedKind => assert C.Table[25].1 == C.HostStateChanged;
    case GuestStateChangeKind =>
    case GuestStateChangedKind =>
    case HostCommandChangeKind => assert C.Table[21].1 == C.HostCommandChange;
    case HostCommandChangedKind => assert C.Table[26].1 == C.HostCommandChanged;
    case GuestCommandChangeKind => assert C.Table[22].1 == C.GuestCommandChange;
    case GuestCommandChangedKind => assert C.Table[27].1 == C.GuestCommandChanged;
    case GuestInputChangeKind => assert C.Table[23].1 == C.GuestInputChange;
    case GuestInputChangedKind => assert C.Table[28].1 == C.GuestInputChanged;
    case MiceChangeKind => assert C.Table[18].1 == C.MiceChange;
    case MiceChangedKind => assert C.Table[19].1 == C.MiceChanged;
    case GuestRequestFullStateKind => assert C.Table[24].1 == C.GuestRequestFullState;
  }

  /** Each tag a class sets comes from the server table, or for a relay message the client table. */
  lemma TagsComeFromTables(k: MessageKind)
    requires Tag(k).Some?
    ensures (exists i :: 0 <= i < |S.Table| && S.Table[i].1 == Tag(k).value)
         || (exists i :: 0 <= i < |C.Table| && C.Table[i].1 == Tag(k).value)
  {
    if RelayKind(k) {
      RelayTagsComeFromClientTable(k);
    } else {
      ServerTagsComeFromServerTable(k);
    }
  }
}
