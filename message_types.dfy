/**
 * The server's message tag table `MessageTypeNames` and the session cookie name
 * (StateFlux/StateFlux.Model/Messages/MessageType.cs).
 */
module ServerMessageTypes {
  const Authenticate: string := "Authenticate"
  const Authenticated: string := "Authenticated"
  const ChatSay: string := "ChatSay"
  const PlayerList: string := "PlayerList"
  const PlayerRename: string := "PlayerRename"
  const ChatSaid: string := "ChatSaid"
  const PlayerListing: string := "PlayerListing"
  const CreateGameInstance: string := "CreateGameInstance"
  const JoinGameInstance: string := "JoinGameInstance"
  const LeaveGameInstance: string := "LeaveGameInstance"
  const GameInstanceList: string := "GameInstanceList"
  const GameInstanceListing: string := "GameInstanceListing"
  const GameInstanceCreated: string := "GameInstanceCreated"
  const GameInstanceJoined: string := "GameInstanceJoined"
  const GameInstanceLeft: string := "GameInstanceLeft"
  const GameInstanceGetReady: string := "GameInstanceGetReady"
  const GameInstanceStart: string := "GameInstanceStart"
  const GameInstanceStopped: string := "GameInstanceStopped"
  const StateChange: string := "StateChange"
  const RequestFullState: string := "RequestFullState"
  const StateChanged: string := "StateChanged"
  const ServerError: string := "ServerError"

  /** `MessageConstants.SessionCookieName`: the cookie that carries the session token. */
  const SessionCookieName: string := "SFSession"

  /** The table as (field name, value) rows, in declaration order. */
  const Table: seq<(string, string)> := [
    ("Authenticate", Authenticate),
    ("Authenticated", Authenticated),
    ("ChatSay", ChatSay),
    ("PlayerList", PlayerList),
    ("PlayerRename", PlayerRename),
    ("ChatSaid", ChatSaid),
    ("PlayerListing", PlayerListing),
    ("CreateGameInstance", CreateGameInstance),
    ("JoinGameInstance", JoinGameInstance),
    ("LeaveGameInstance", LeaveGameInstance),
    ("GameInstanceList", GameInstanceList),
    ("GameInstanceListing", GameInstanceListing),
    ("GameInstanceCreated", GameInstanceCreated),
    ("GameInstanceJoined", GameInstanceJoined),
    ("GameInstanceLeft", GameInstanceLeft),
    ("GameInstanceGetReady", GameInstanceGetReady),
    ("GameInstanceStart", GameInstanceStart),
    ("GameInstanceStopped", GameInstanceStopped),
    ("StateChange", StateChange),
    ("RequestFullState", RequestFullState),
    ("StateChanged", StateChanged),
    ("ServerError", ServerError)
  ]

  /** Every tag's value is its own field name. */
  lemma ValuesAreFieldNames()
    ensures forall i :: 0 <= i < |Table| ==> Table[i].0 == Table[i].1
  {
  }

  /** No two fields share a value, so a tag names one message type. */
  lemma ValuesAreDistinct()
    ensures forall i, j :: 0 <= i < j < |Table| ==> Table[i].1 != Table[j].1
  {
  }

  /** The session cookie is named "SFSession". */
  lemma CookieName()
    ensures SessionCookieName == "SFSession" && |SessionCookieName| == 9
  {
  }

  /** Each lobby and state request has a reply tag of its own. */
  lemma RequestsHaveReplies()
    ensures Authenticate != Authenticated && ChatSay != ChatSaid && PlayerList != PlayerListing
    ensures GameInstanceList != GameInstanceListing && StateChange != StateChanged
    ensures Authenticated == Authenticate[..|Authenticate| - 1] + "ed"
    ensures ChatSaid == ChatSay[..|ChatSay| - 1] + "id"
    ensures PlayerListing == PlayerList + "ing" && GameInstanceListing == GameInstanceList + "ing"
    ensures StateChanged == StateChange + "d"
  {
  }

}

/**
 * The client's message tag table (StateFluxer/Assets/StateFlux/Model/MessageType.cs), a later
 * revision that adds the relay requests and their replies.
 */
module ClientMessageTypes {
  const Authenticate: string := "Authenticate"
  const Authenticated: string := "Authenticated"
  const ChatSay: string := "ChatSay"
  const PlayerList: string := "PlayerList"
  const PlayerRename: string := "PlayerRename"
  const ChatSaid: string := "ChatSaid"
  const PlayerListing: string := "PlayerListing"
  const CreateGameInstance: string := "CreateGameInstance"
  const JoinGameInstance: string := "JoinGameInstance"
  const LeaveGameInstance: string := "LeaveGameInstance"
  const GameInstanceList: string := "GameInstanceList"
  const GameInstanceListing: string := "GameInstanceListing"
  const GameInstanceCreated: string := "GameInstanceCreated"
  const GameInstanceJoined: string := "GameInstanceJoined"
  const GameInstanceLeft: string := "GameInstanceLeft"
  const GameInstanceGetReady: string := "GameInstanceGetReady"
  const GameInstanceStart: string := "GameInstanceStart"
  const GameInstanceStopped: string := "GameInstanceStopped"
  const MiceChange: string := "MiceChange"
  const MiceChanged: string := "MiceChanged"
  const HostStateChange: string := "HostStateChange"
  const HostCommandChange: string := "HostCommandChange"
  const GuestCommandChange: string := "GuestCommandChange"
  const GuestInputChange: string := "GuestInputChange"
  const GuestRequestFullState: string := "GuestRequestFullState"
  const HostStateChanged: string := "HostStateChanged"
  const HostCommandChanged: string := "HostCommandChanged"
  const GuestCommandChanged: string := "GuestCommandChanged"
  const GuestInputChanged: string := "GuestInputChanged"
  const ServerError: string := "ServerError"

  /** `MessageConstants.SessionCookieName`: the cookie that carries the session token. */
  const SessionCookieName: string := "SFSession"

  /** The table as (field name, value) rows, in declaration order. */
  const Table: seq<(string, string)> := [
    ("Authenticate", Authenticate),
    ("Authenticated", Authenticated),
    ("ChatSay", ChatSay),
    ("PlayerList", PlayerList),
    ("PlayerRename", PlayerRename),
    ("ChatSaid", ChatSaid),
    ("PlayerListing", PlayerListing),
    ("CreateGameInstance", CreateGameInstance),
    ("JoinGameInstance", JoinGameInstance),
    ("LeaveGameInstance", LeaveGameInstance),
    ("GameInstanceList", GameInstanceList),
    ("GameInstanceListing", GameInstanceListing),
    ("GameInstanceCreated", GameInstanceCreated),
    ("GameInstanceJoined", GameInstanceJoined),
    ("GameInstanceLeft", GameInstanceLeft),
    ("GameInstanceGetReady", GameInstanceGetReady),
    ("GameInstanceStart", GameInstanceStart),
    ("GameInstanceStopped", GameInstanceStopped),
    ("MiceChange", MiceChange),
    ("MiceChanged", MiceChanged),
    ("HostStateChange", HostStateChange),
    ("HostCommandChange", HostCommandChange),
    ("GuestCommandChange", GuestCommandChange),
    ("GuestInputChange", GuestInputChange),
    ("GuestRequestFullState", GuestRequestFullState),
    ("HostStateChanged", HostStateChanged),
    ("HostCommandChanged", HostCommandChanged),
    ("GuestCommandChanged", GuestCommandChanged),
    ("GuestInputChanged", GuestInputChanged),
    ("ServerError", ServerError)
  ]

  /** Every tag's value is its own field name. */
  lemma ValuesAreFieldNames()
    ensures forall i :: 0 <= i < |Table| ==> Table[i].0 == Table[i].1
  {
  }

  /** No two fields share a value, so a tag names one message type. */
  lemma ValuesAreDistinct()
    ensures forall i, j :: 0 <= i < j < |Table| ==> Table[i].1 != Table[j].1
  {
  }

  /** The session cookie is named "SFSession". */
  lemma CookieName()
    ensures SessionCookieName == "SFSession" && |SessionCookieName| == 9
  {
  }

  /** Each relayed request `X` is answered under `X + "d"`. */
  lemma RelayRepliesAddD()
    ensures HostStateChanged == HostStateChange + "d"
    ensures HostCommandChanged == HostCommandChange + "d"
    ensures GuestCommandChanged == GuestCommandChange + "d"
    ensures GuestInputChanged == GuestInputChange + "d"
    ensures MiceChanged == MiceChange + "d"
  {
  }

  /** No field holds `GuestRequestFullState + "d"`: the request is relayed under its own tag. */
  lemma FullStateHasNoReply()
    ensures forall i :: 0 <= i < |Table| ==> Table[i].1 != GuestRequestFullState + "d"
  {
  }

}
