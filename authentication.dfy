/**
 * The authentication handler (StateFlux/StateFlux/Handlers/AuthenticationMessageHandler.cs): a
 * connection names its player; a connection that already resolves to a player keeps it, and
 * otherwise a new session is created, replacing an active player of the same name.
 *
 * The handler's log lines look the sender up again. Where that lookup follows one the handler
 * made, it returns the same and changes nothing (`Service.LookupIdempotent`; a lookup that
 * throws changes nothing either and throws again), so only the log line of the blank-name path,
 * which is the first lookup of that path, is modelled as a lookup.
 */
module Authentication {
  import opened Wrappers
  import opened Model
  import opened Messages
  import opened Text
  import opened Service
  import Repository
  import ShortGuid

  const MaxPlayerNameLen: nat := 50

  /** The position of the first player called `name` at or after `j`, or `|ps|` when there is none. */
  function NamedAt(ps: seq<Player>, name: string, j: nat): (i: nat)
    requires j <= |ps|
    ensures j <= i <= |ps|
    ensures i < |ps| ==> ps[i].Name == name
    ensures forall k :: j <= k < i ==> ps[k].Name != name
    decreases |ps| - j
  {
    if j == |ps| || ps[j].Name == name then j else NamedAt(ps, name, j + 1)
  }

  /**
   * `Players.Remove(Players.FirstOrDefault(p => p.Name == name))`: the first active player with
   * that name is taken out (the first element equal to it is that player itself).
   */
  function RemoveFirstNamed(ps: seq<Player>, name: string): (r: seq<Player>)
    ensures (forall p :: p in ps ==> p.Name != name) ==> r == ps
    ensures (exists p :: p in ps && p.Name == name) ==> |r| == |ps| - 1
    ensures forall p :: p in r ==> p in ps
  {
    var i := NamedAt(ps, name, 0);
    if i < |ps| then ps[..i] + ps[i + 1..] else ps
  }

  /** Removing the first player of a name keeps every other player, in order. */
  lemma RemoveFirstNamedKeepsOthers(ps: seq<Player>, name: string)
    ensures forall p :: p in ps && p.Name != name ==> p in RemoveFirstNamed(ps, name)
    ensures |RemoveFirstNamed(ps, name)| == |ps| - 1 ==>
      multiset(RemoveFirstNamed(ps, name)) + multiset{ps[NamedAt(ps, name, 0)]} == multiset(ps)
  {
    var i := NamedAt(ps, name, 0);
    if i < |ps| {
      assert ps == ps[..i] + [ps[i]] + ps[i + 1..];
      forall p | p in ps && p.Name != name
        ensures p in RemoveFirstNamed(ps, name)
      {
        var k :| 0 <= k < |ps| && ps[k] == p;
        if k < i {
          assert ps[..i][k] == p;
        } else {
          assert k != i;
          assert ps[i + 1..][k - i - 1] == p;
        }
      }
    }
  }

  /**
   * The response the handler builds for the player it settled on: `Status` keeps its default,
   * `Authenticated`, and the player's Id, name and session id are copied in. Reading the Id or
   * the session id of a player without them throws.
   */
  function Reply(p: Player): (r: Result<Message>)
    ensures r.Failure? <==> p.Id.None? || p.SessionData.None?
    ensures r.Failure? ==> r.error == NullReference()
    ensures r.Success? ==> r.value.AuthenticatedMessage? && r.value.Status == NewAuthenticatedMessage().Status
    ensures r.Success? ==> r.value.PlayerId == p.Id && r.value.PlayerName == Some(p.Name)
    ensures r.Success? ==> r.value.SessionId == p.SessionData.value.SessionId && r.value.StatusMessage.None?
  {
    if p.Id.None? || p.SessionData.None? then Failure(NullReference())
    else Success(AuthenticatedMessage(NewAuthenticatedMessage().Status, None, p.Id, Some(p.Name),
                                      p.SessionData.value.SessionId))
  }

  /** The reply to a blank name. */
  function BadUserReply(): (m: Message)
    ensures m.AuthenticatedMessage? && m.Status == BadUser
    ensures m.PlayerId.None? && m.PlayerName.None? && m.SessionId.None?
  {
    var m := NewAuthenticatedMessage();
    AuthenticatedMessage(BadUser, m.StatusMessage, m.PlayerId, m.PlayerName, m.SessionId)
  }

  /**
   * A session the handler creates answers with its fresh Id, the requested name cut to 50
   * characters, and the new session token: the client can present that token as its cookie.
   */
  lemma NewSessionReply(name: string, sessionGuid: string, id: string, guid: seq<ShortGuid.byte>, now: Time, ws: string)
    ensures var p := Repository.Stamped(NewPlayer(Truncate(name, MaxPlayerNameLen), SessionData(Some(sessionGuid), Some(ws))), id, now);
      var r := Reply(p);
      r.Success? && r.value.Status == Authenticated && r.value.PlayerId == Some(id)
      && r.value.SessionId == Some(sessionGuid)
      && r.value.PlayerName.Some? && |r.value.PlayerName.value| <= MaxPlayerNameLen
      && r.value.PlayerName.value <= name
  {
  }

  class AuthenticationHandler {
    const websocket: AppWebSocketBehavior

    ghost predicate Valid()
      reads this, websocket, websocket.server, websocket.server.playerRepository
    {
      websocket.Valid()
    }

    constructor (websocket: AppWebSocketBehavior)
      requires websocket.Valid()
      ensures Valid() && this.websocket == websocket
    {
      this.websocket := websocket;
    }

    /**
     * `Authenticate`. A blank name is answered `BadUser`, creating and removing no player. A
     * connection that resolves to a player is answered for that player. Otherwise the first
     * active player with the requested name (uncut) is removed and a session is created under
     * the name cut to 50 characters; creating it throws (the new player has no Id for the
     * store's lookup), so the handler fails after the removal. The exception of a lookup that
     * throws is caught, but the catch's log line throws it again.
     */
    method Authenticate(playerName: Option<string>, sessionGuid: string, guid: seq<ShortGuid.byte>, now: Time,
                        order: seq<string>)
      returns (r: Result<Message>, ghost lookup: Result<Option<Player>>, ghost active: seq<Player>)
      requires Valid() && |guid| == 16
      modifies websocket.server, websocket.server.playerRepository
      ensures Valid()
      ensures LookupOutcome(old(websocket.server.Players), old(websocket.server.playerRepository.Current()),
                            websocket.cookie, lookup, active)
      ensures IsNullOrWhiteSpace(playerName) ==>
        websocket.server.Players == active
        && websocket.server.playerRepository.Current() == old(websocket.server.playerRepository.Current())
        && r == if lookup.Failure? then Failure(lookup.error) else Success(BadUserReply())
      ensures !IsNullOrWhiteSpace(playerName) && (lookup.Failure? || lookup.value.Some?) ==>
        websocket.server.Players == active
        && websocket.server.playerRepository.Current() == old(websocket.server.playerRepository.Current())
        && r == if lookup.Failure? then Failure(lookup.error) else Reply(lookup.value.value)
      ensures !IsNullOrWhiteSpace(playerName) && lookup == Success(None) ==>
        var newPlayer := NewPlayer(Truncate(playerName.value, MaxPlayerNameLen), SessionData(Some(sessionGuid), Some(websocket.ID)));
        var inserted := Repository.InsertAsWritten(old(websocket.server.playerRepository.Current()), newPlayer, guid, now, order);
        websocket.server.playerRepository.Current() == inserted.store
        && inserted.store == old(websocket.server.playerRepository.Current())
        && inserted.outcome == Failure(Raise(Repository.NullKeyText)) && r == Failure(inserted.outcome.error)
        && websocket.server.Players == RemoveFirstNamed(active, playerName.value)
      ensures websocket.server.Games == old(websocket.server.Games) && websocket.server.Chat == old(websocket.server.Chat)
      ensures websocket.server.PlayerDatabase == old(websocket.server.PlayerDatabase)
    {
      if IsNullOrWhiteSpace(playerName) {
        var logged := websocket.GetCurrentSessionPlayer();
        lookup, active := logged, websocket.server.Players;
        if logged.Failure? {
          return Failure(logged.error), lookup, active;
        }
        return Success(BadUserReply()), lookup, active;
      }
      var found := websocket.GetCurrentSessionPlayer();
      lookup, active := found, websocket.server.Players;
      if found.Failure? {
        return Failure(found.error), lookup, active;
      }
      if found.value.None? {
        websocket.server.Players := RemoveFirstNamed(websocket.server.Players, playerName.value);
        var created := websocket.CreatePlayerSession(Truncate(playerName.value, MaxPlayerNameLen), sessionGuid, guid, now, order);
        return Failure(created.error), lookup, active;
      }
      r := Reply(found.value.value);
    }
  }
}
