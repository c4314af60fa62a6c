/**
 * The chat handler (StateFlux/StateFlux/Handlers/ChatMessageHandler.cs): saying something,
 * asking for the player list, and renaming oneself. Each operation looks the sender up, refuses
 * a connection without a player, changes the server's state in place and broadcasts through the
 * connection.
 */
module Chat {
  import opened Wrappers
  import opened Model
  import opened Messages
  import opened Text
  import opened Service
  import opened ServerState
  import Repository
  import ShortGuid

  const MaxChatStringSize: nat := 255
  const MaxPlayerNameLen: nat := 50

  class ChatMessageHandler {
    const websocket: AppWebSocketBehavior

    ghost predicate Valid()
      reads this, websocket, websocket.server, websocket.server.playerRepository
    {
      websocket.Valid()
    }

    constructor (websocket: AppWebSocketBehavior)
      requires websocket.Valid()
      ensures Valid() && this.websocket == websocket
    {
      this.websocket := websocket;
    }

    /**
     * `ChatSay`: the speaker's name and the text cut to 255 characters are appended to the chat
     * log, and the same pair is broadcast to the speaker's instance (everyone, when the speaker
     * is in none), speaker included.
     */
    method ChatSay(say: string, live: set<string>)
      returns (r: Result<()>, out: seq<Sent>, ghost lookup: Result<Option<Player>>, ghost active: seq<Player>)
      requires Valid()
      modifies websocket.server, websocket.server.playerRepository
      ensures Valid()
      ensures LookupOutcome(old(websocket.server.Players), old(websocket.server.playerRepository.Current()),
                            websocket.cookie, lookup, active)
      ensures websocket.server.Players == active
      ensures SessionPlayer(lookup).Failure? ==>
        r == Failure(SessionPlayer(lookup).error) && out == [] && websocket.server.Chat == old(websocket.server.Chat)
      ensures SessionPlayer(lookup).Success? ==>
        var p := lookup.value.value;
        var said := ChatSaid(p.Name, Truncate(say, MaxChatStringSize));
        r == Success(()) && websocket.server.Chat == old(websocket.server.Chat) + [said]
        && out == Addressed(Deliveries(active, websocket.server.Games, p.GameInstanceRef, live, None),
                            ChatSaidMessage(Some(said.PlayerName), said.Saying))
      ensures websocket.server.playerRepository.Current() == old(websocket.server.playerRepository.Current())
      ensures websocket.server.Games == old(websocket.server.Games)
      ensures websocket.server.PlayerDatabase == old(websocket.server.PlayerDatabase)
    {
      ghost var store := websocket.server.playerRepository.Current();
      ghost var before := websocket.server.Players;
      var found := websocket.GetCurrentSessionPlayer();
      lookup, active := found, websocket.server.Players;
      var current := SessionPlayer(found);
      if current.Failure? {
        return Failure(current.error), [], lookup, active;
      }
      var p := current.value;
      var said := ChatSaid(p.Name, Truncate(say, MaxChatStringSize));
      websocket.server.Chat := websocket.server.Chat + [said];
      LookupIdempotent(before, store, websocket.cookie, lookup, active);
      ghost var again;
      out, again := websocket.Broadcast(ChatSaidMessage(Some(said.PlayerName), said.Saying), p.GameInstanceRef, true, live);
      r := Success(());
    }

    /** `PlayerList`: the whole active list is broadcast to everyone, sender included. */
    method PlayerList(live: set<string>)
      returns (r: Result<()>, out: seq<Sent>, ghost lookup: Result<Option<Player>>, ghost active: seq<Player>)
      requires Valid()
      modifies websocket.server, websocket.server.playerRepository
      ensures Valid()
      ensures LookupOutcome(old(websocket.server.Players), old(websocket.server.playerRepository.Current()),
                            websocket.cookie, lookup, active)
      ensures websocket.server.Players == active
      ensures SessionPlayer(lookup).Failure? ==> r == Failure(SessionPlayer(lookup).error) && out == []
      ensures SessionPlayer(lookup).Success? ==>
        r == Success(()) && out == Addressed(Deliveries(active, websocket.server.Games, None, live, None), PlayerListingMessage(active))
      ensures websocket.server.playerRepository.Current() == old(websocket.server.playerRepository.Current())
      ensures websocket.server.Games == old(websocket.server.Games) && websocket.server.Chat == old(websocket.server.Chat)
      ensures websocket.server.PlayerDatabase == old(websocket.server.PlayerDatabase)
    {
      ghost var store := websocket.server.playerRepository.Current();
      ghost var before := websocket.server.Players;
      var found := websocket.GetCurrentSessionPlayer();
      lookup, active := found, websocket.server.Players;
      var current := SessionPlayer(found);
      if current.Failure? {
        return Failure(current.error), [], lookup, active;
      }
      LookupIdempotent(before, store, websocket.cookie, lookup, active);
      ghost var again;
      out, again := websocket.Broadcast(PlayerListingMessage(websocket.server.Players), None, true, live);
      r := Success(());
    }

    /**
     * `PlayerRename`: the sender's active record takes the name cut to 50 characters, the
     * renamed record is written through `UpdatePlayer`, and the new active list is broadcast to
     * everyone. An update that throws leaves the rename in the active list and sends nothing.
     */
    method PlayerRename(name: string, guid: seq<ShortGuid.byte>, now: Time, order: seq<string>, live: set<string>)
      returns (r: Result<()>, out: seq<Sent>, ghost lookup: Result<Option<Player>>, ghost active: seq<Player>)
      requires Valid() && |guid| == 16
      modifies websocket.server, websocket.server.playerRepository
      ensures Valid()
      ensures LookupOutcome(old(websocket.server.Players), old(websocket.server.playerRepository.Current()),
                            websocket.cookie, lookup, active)
      ensures SessionPlayer(lookup).Failure? ==>
        r == Failure(SessionPlayer(lookup).error) && out == [] && websocket.server.Players == active
        && websocket.server.playerRepository.Current() == old(websocket.server.playerRepository.Current())
      ensures SessionPlayer(lookup).Success? ==>
        var p := lookup.value.value;
        var renamed := p.(Name := Truncate(name, MaxPlayerNameLen));
        var updated := Repository.UpdateAsWritten(old(websocket.server.playerRepository.Current()), renamed, guid, now, order);
        FindActive(active, websocket.cookie).Success? && FindActive(active, websocket.cookie).value.Some?
        && var j := FindActive(active, websocket.cookie).value.value;
        active[j] == p && websocket.server.Players == active[j := renamed]
        && websocket.server.playerRepository.Current() == updated.store
        && (updated.outcome.Failure? ==> r == Failure(updated.outcome.error) && out == [])
        && (updated.outcome.Success? ==>
              r == Success(()) && out == Addressed(Deliveries(active[j := renamed], websocket.server.Games, None, live, None),
                                                   PlayerListingMessage(active[j := renamed])))
      ensures websocket.server.Games == old(websocket.server.Games) && websocket.server.Chat == old(websocket.server.Chat)
      ensures websocket.server.PlayerDatabase == old(websocket.server.PlayerDatabase)
    {
      ghost var store := websocket.server.playerRepository.Current();
      ghost var before := websocket.server.Players;
      var found := websocket.GetCurrentSessionPlayer();
      lookup, active := found, websocket.server.Players;
      var current := SessionPlayer(found);
      if current.Failure? {
        return Failure(current.error), [], lookup, active;
      }
      var p := current.value;
      LookupIdempotent(before, store, websocket.cookie, lookup, active);
      var j := FindActive(websocket.server.Players, websocket.cookie).value.value;
      var renamed := p.(Name := Truncate(name, MaxPlayerNameLen));
      websocket.server.Players := websocket.server.Players[j := renamed];
      FindActiveReplaced(active, websocket.cookie, j, renamed, 0);
      var updated := websocket.server.playerRepository.UpdatePlayer(renamed, guid, now, order);
      if updated.Failure? {
        return Failure(updated.error), [], lookup, active;
      }
      ghost var again;
      out, again := websocket.Broadcast(PlayerListingMessage(websocket.server.Players), None, true, live);
      r := Success(());
    }
  }

  /** A chat line is never longer than 255 characters and is a prefix of what was said. */
  lemma ChatLineBounded(p: Player, say: string)
    ensures var said := ChatSaid(p.Name, Truncate(say, MaxChatStringSize));
      |said.Saying| <= MaxChatStringSize && said.Saying <= say
      && (|say| <= MaxChatStringSize ==> said.Saying == say)
  {
  }
}
