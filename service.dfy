/**
 * The connection behaviour of the relay (StateFlux/StateFlux/ServiceBehavior.cs): finding the
 * player behind a connection, creating sessions, scoped broadcasts, finding a player's game
 * instance, closing a connection and turning a failed message into a `ServerErrorMessage`.
 *
 * The searches are functions over the server's lists; the operations that change the active
 * player list or send are methods of `AppWebSocketBehavior`, one object per connection. The live
 * sockets of the session manager are given as the set of their session ids; sending is modelled
 * by returning the session ids a message goes to.
 */
module Service {
  import opened Wrappers
  import opened Model
  import opened Messages
  import Repository
  import ShortGuid
  import opened ServerState
  import opened Guards

  // ---------------------------------------------------------------- game instance search

  /** The first of `instances` that the player occupies, if any. */
  function FindInInstances(instances: seq<GameInstance>, p: Player): (r: Option<GameInstance>)
    ensures r.Some? ==> r.value in instances && Occupies(r.value, p)
    ensures r.None? <==> forall gi :: gi in instances ==> !Occupies(gi, p)
  {
    if instances == [] then None
    else if Occupies(instances[0], p) then Some(instances[0])
    else FindInInstances(instances[1..], p)
  }

  /** Every game's instances, concatenated in catalog order (what `GameInstanceList` lists). */
  function AllInstances(games: seq<Game>): (r: seq<GameInstance>)
    ensures forall g, gi :: g in games && gi in g.Instances ==> gi in r
    ensures forall gi :: gi in r ==> exists g :: g in games && gi in g.Instances
  {
    if games == [] then [] else games[0].Instances + AllInstances(games[1..])
  }

  /**
   * `FindPlayerGameInstance`: scan the games in order and, within each, its instances in order;
   * the first instance whose occupants include the player, or null.
   */
  function FindPlayerGameInstance(games: seq<Game>, p: Player): (r: Option<GameInstance>)
  {
    if games == [] then None
    else match FindInInstances(games[0].Instances, p)
      case Some(gi) => Some(gi)
      case None => FindPlayerGameInstance(games[1..], p)
  }

  /** A first match in `a + b` is a first match in `a`, or else one in `b`. */
  lemma {:induction false} FindInConcat(a: seq<GameInstance>, b: seq<GameInstance>, p: Player)
    ensures FindInInstances(a + b, p) == if FindInInstances(a, p).Some? then FindInInstances(a, p) else FindInInstances(b, p)
  {
    if a != [] {
      assert (a + b)[0] == a[0];
      assert (a + b)[1..] == a[1..] + b;
      FindInConcat(a[1..], b, p);
    } else {
      assert a + b == b;
    }
  }

  /** The nested search is the first match in the flattened instance list. */
  lemma {:induction false} FindPlayerGameInstanceIsFirstMatch(games: seq<Game>, p: Player)
    ensures FindPlayerGameInstance(games, p) == FindInInstances(AllInstances(games), p)
  {
    if games != [] {
      FindInConcat(games[0].Instances, AllInstances(games[1..]), p);
      FindPlayerGameInstanceIsFirstMatch(games[1..], p);
    }
  }

  /** The instance found is occupied by the player, and null means no instance of any game is. */
  lemma FoundInstanceIsOccupied(games: seq<Game>, p: Player)
    ensures var r := FindPlayerGameInstance(games, p);
      (r.Some? ==> Occupies(r.value, p) && exists g :: g in games && r.value in g.Instances)
      && (r.None? <==> forall g, gi :: g in games && gi in g.Instances ==> !Occupies(gi, p))
  {
    FindPlayerGameInstanceIsFirstMatch(games, p);
  }

  // ---------------------------------------------------------------- session lookup

  /**
   * The active-player search `FirstOrDefault(p => p.SessionData.SessionId == cookie)` from index
   * `i` on: the index of the first match, or a null-reference failure at the first player
   * without session data reached before one.
   */
  function FindActiveFrom(ps: seq<Player>, cookie: Option<string>, i: nat): (r: Result<Option<nat>>)
    requires i <= |ps|
    ensures r.Failure? ==> r.error == NullReference()
    ensures r.Success? && r.value.Some? ==>
      i <= r.value.value < |ps| && ps[r.value.value].SessionData.Some?
      && ps[r.value.value].SessionData.value.SessionId == cookie
    ensures r.Success? ==> forall j :: i <= j < |ps| && (r.value.None? || j < r.value.value) ==>
      ps[j].SessionData.Some? && ps[j].SessionData.value.SessionId != cookie
    ensures r.Failure? <==>
      exists j :: i <= j < |ps| && ps[j].SessionData.None? &&
        forall k :: i <= k < j ==> ps[k].SessionData.Some? && ps[k].SessionData.value.SessionId != cookie
    decreases |ps| - i
  {
    if i == |ps| then Success(None)
    else if ps[i].SessionData.None? then Failure(NullReference())
    else if ps[i].SessionData.value.SessionId == cookie then Success(Some(i))
    else FindActiveFrom(ps, cookie, i + 1)
  }

  function FindActive(ps: seq<Player>, cookie: Option<string>): Result<Option<nat>> {
    FindActiveFrom(ps, cookie, 0)
  }

  /** A stored record that `p.SessionData?.SessionId == cookie` selects. */
  predicate StoredMatch(rec: Player, cookie: string) {
    rec.SessionData.Some? && rec.SessionData.value.SessionId == Some(cookie)
  }

  /** The first of the enumerated records that matches the cookie, if any. */
  function FirstStored(records: seq<Player>, cookie: string): (r: Option<Player>)
    ensures r.Some? ==> r.value in records && StoredMatch(r.value, cookie)
    ensures r.None? <==> forall rec :: rec in records ==> !StoredMatch(rec, cookie)
  {
    if records == [] then None
    else if StoredMatch(records[0], cookie) then Some(records[0])
    else FirstStored(records[1..], cookie)
  }

  /**
   * What `GetCurrentSessionPlayer` may do, from the active list `ps` and the store `store`:
   * an active match is returned with nothing changed; otherwise, with a cookie, some stored record
   * carrying it (the dictionary's order is unspecified) is taken, its instance reference cleared,
   * appended to the active list and returned; otherwise null. A player without session data
   * met during the active search makes the call throw.
   */
  ghost predicate LookupOutcome(ps: seq<Player>, store: Repository.Store, cookie: Option<string>,
                                r: Result<Option<Player>>, ps': seq<Player>)
  {
    match FindActive(ps, cookie)
    case Failure(e) => r == Failure(e) && ps' == ps
    case Success(Some(i)) => r == Success(Some(ps[i])) && ps' == ps
    case Success(None) =>
      if cookie.Some? && exists rec :: rec in store.Values && StoredMatch(rec, cookie.value) then
        exists rec :: rec in store.Values && StoredMatch(rec, cookie.value)
          && r == Success(Some(rec.(GameInstanceRef := None))) && ps' == ps + [rec.(GameInstanceRef := None)]
      else r == Success(None) && ps' == ps
  }

  /** Once the active search has passed every player, a player appended with the cookie is found. */
  lemma {:induction false} FindActiveAppended(ps: seq<Player>, cookie: Option<string>, p: Player, i: nat)
    requires i <= |ps| && FindActiveFrom(ps, cookie, i) == Success(None)
    requires p.SessionData.Some? && p.SessionData.value.SessionId == cookie
    ensures FindActiveFrom(ps + [p], cookie, i) == Success(Some(|ps|))
    decreases |ps| - i
  {
    var qs := ps + [p];
    if i < |ps| {
      assert qs[i] == ps[i];
      FindActiveAppended(ps, cookie, p, i + 1);
    } else {
      assert qs[i] == p;
    }
  }

  /**
   * The lookup is idempotent: after a successful call, a second call returns the same player
   * and changes nothing. Every later lookup in the same message therefore agrees with the first.
   */
  lemma LookupIdempotent(ps: seq<Player>, store: Repository.Store, cookie: Option<string>,
                         r: Result<Option<Player>>, ps': seq<Player>)
    requires LookupOutcome(ps, store, cookie, r, ps') && r.Success? && r.value.Some?
    ensures FindActive(ps', cookie).Success? && FindActive(ps', cookie).value.Some?
    ensures ps'[FindActive(ps', cookie).value.value] == r.value.value
    ensures LookupOutcome(ps', store, cookie, r, ps')
  {
    match FindActive(ps, cookie)
    case Success(Some(i)) =>
    case Success(None) =>
      var rec :| rec in store.Values && StoredMatch(rec, cookie.value)
        && r == Success(Some(rec.(GameInstanceRef := None))) && ps' == ps + [rec.(GameInstanceRef := None)];
      FindActiveAppended(ps, cookie, rec.(GameInstanceRef := None), 0);
  }

  /** A lookup over a list where the active search already finds the cookie returns that player and changes nothing. */
  lemma LookupFoundStable(ps: seq<Player>, store: Repository.Store, cookie: Option<string>,
                          r: Result<Option<Player>>, ps': seq<Player>)
    requires FindActive(ps, cookie).Success? && FindActive(ps, cookie).value.Some?
    requires LookupOutcome(ps, store, cookie, r, ps')
    ensures r == Success(Some(ps[FindActive(ps, cookie).value.value])) && ps' == ps
  {
  }

  /**
   * Replacing an active player by one with the same session data changes no search: a renamed
   * player is still found where it was.
   */
  lemma {:induction false} FindActiveReplaced(ps: seq<Player>, cookie: Option<string>, j: nat, q: Player, i: nat)
    requires i <= |ps| && j < |ps| && q.SessionData == ps[j].SessionData
    ensures FindActiveFrom(ps[j := q], cookie, i) == FindActiveFrom(ps, cookie, i)
    decreases |ps| - i
  {
    if i < |ps| {
      FindActiveReplaced(ps, cookie, j, q, i + 1);
    }
  }

  // ---------------------------------------------------------------- broadcast

  /**
   * The session ids the loop of `Broadcast` sends to, skipping the player `except` (the sender
   * when `meToo` is false). A player is in scope when the reference is null, or when the instance
   * found for the player has the reference's Id; a player in scope whose socket session is live
   * is sent the message. A player in no instance under a non-null reference, or a player in scope
   * without session data, raises a null reference, which ends the loop for everyone after.
   */
  function Deliveries(ps: seq<Player>, games: seq<Game>, ref: Option<GameInstanceRef>, live: set<string>,
                      except: Option<Player>): seq<string>
  {
    if ps == [] then []
    else
      var p := ps[0];
      var found := FindPlayerGameInstance(games, p);
      if except == Some(p) then Deliveries(ps[1..], games, ref, live, except)
      else if ref.Some? && found.None? then []
      else if ref.None? || ref.value.Id == Some(found.value.Id) then
        if p.SessionData.None? then []
        else
          var ws := p.SessionData.value.WebsocketSessionId;
          (if ws.Some? && ws.value in live then [ws.value] else []) + Deliveries(ps[1..], games, ref, live, except)
      else Deliveries(ps[1..], games, ref, live, except)
  }

  /**
   * The loop of `Broadcast` as written: its first statement, `if (!meToo) continue;`, skips every
   * player, so with `meToo` false nothing is sent at all.
   */
  function DeliveriesAsWritten(ps: seq<Player>, games: seq<Game>, ref: Option<GameInstanceRef>, meToo: bool,
                               live: set<string>): (sent: seq<string>)
    ensures !meToo ==> sent == []
    ensures meToo ==> sent == Deliveries(ps, games, ref, live, None)
  {
    if meToo then Deliveries(ps, games, ref, live, None) else []
  }

  /** A player is in the scope of `ref`: no reference, or the player's instance carries its Id. */
  predicate InScope(games: seq<Game>, ref: Option<GameInstanceRef>, p: Player) {
    ref.None? || (FindPlayerGameInstance(games, p).Some? && ref.value.Id == Some(FindPlayerGameInstance(games, p).value.Id))
  }

  /** A player the loop can pass without a null dereference. */
  predicate Passable(games: seq<Game>, ref: Option<GameInstanceRef>, p: Player) {
    (ref.Some? ==> FindPlayerGameInstance(games, p).Some?) && (InScope(games, ref, p) ==> p.SessionData.Some?)
  }

  /** `p` is in scope and `w` is the socket session it has. */
  predicate Reaches(games: seq<Game>, ref: Option<GameInstanceRef>, p: Player, w: string) {
    InScope(games, ref, p) && p.SessionData.Some? && p.SessionData.value.WebsocketSessionId == Some(w)
  }

  /** The live session of an in-scope player other than `except`, as the list of at most one id. */
  function Recipient(games: seq<Game>, ref: Option<GameInstanceRef>, live: set<string>, except: Option<Player>,
                     p: Player): seq<string>
  {
    if except != Some(p) && InScope(games, ref, p) && p.SessionData.Some?
       && p.SessionData.value.WebsocketSessionId.Some? && p.SessionData.value.WebsocketSessionId.value in live
    then [p.SessionData.value.WebsocketSessionId.value]
    else []
  }

  /** Every player's `Recipient` contribution, in list order. */
  function RecipientsOf(ps: seq<Player>, games: seq<Game>, ref: Option<GameInstanceRef>, live: set<string>,
                        except: Option<Player>): seq<string>
  {
    if ps == [] then [] else Recipient(games, ref, live, except, ps[0]) + RecipientsOf(ps[1..], games, ref, live, except)
  }

  /**
   * Only players in scope other than `except` are sent to, and only at a live session of theirs:
   * every id sent to belongs to such a player.
   */
  lemma {:induction false} DeliveriesAreScoped(ps: seq<Player>, games: seq<Game>, ref: Option<GameInstanceRef>,
                                               live: set<string>, except: Option<Player>)
    ensures forall w :: w in Deliveries(ps, games, ref, live, except) ==>
      w in live && exists p :: p in ps && except != Some(p) && Reaches(games, ref, p, w)
  {
    if ps != [] {
      DeliveriesAreScoped(ps[1..], games, ref, live, except);
      forall w | w in Deliveries(ps, games, ref, live, except)
        ensures w in live && exists p :: p in ps && except != Some(p) && Reaches(games, ref, p, w)
      {
        if w !in Deliveries(ps[1..], games, ref, live, except) {
          assert ps[0] in ps;
        } else {
          var p :| p in ps[1..] && except != Some(p) && Reaches(games, ref, p, w);
          assert p in ps;
        }
      }
    }
  }

  /**
   * When no player trips the loop, every in-scope player other than `except` with a live session
   * is sent to, in the order of the active list.
   */
  lemma {:induction false} DeliveriesComplete(ps: seq<Player>, games: seq<Game>, ref: Option<GameInstanceRef>,
                                              live: set<string>, except: Option<Player>)
    requires forall i :: 0 <= i < |ps| ==> Passable(games, ref, ps[i])
    ensures Deliveries(ps, games, ref, live, except) == RecipientsOf(ps, games, ref, live, except)
  {
    if ps != [] {
      DeliveriesComplete(ps[1..], games, ref, live, except);
    }
  }

  /**
   * One try block covers the whole loop: under a non-null reference, a player in no instance
   * cuts the sends off there, and no player after it is sent anything.
   */
  lemma {:induction false} DeliveriesStopAtUnseated(ps: seq<Player>, games: seq<Game>, ref: Option<GameInstanceRef>,
                                                    live: set<string>, except: Option<Player>, i: nat)
    requires i < |ps| && ref.Some? && FindPlayerGameInstance(games, ps[i]).None? && except != Some(ps[i])
    ensures Deliveries(ps, games, ref, live, except) == Deliveries(ps[..i], games, ref, live, except)
  {
    if i == 0 {
      assert ps[..0] == [];
    } else {
      assert ps[..i][0] == ps[0];
      assert ps[..i][1..] == ps[1..][..i - 1];
      DeliveriesStopAtUnseated(ps[1..], games, ref, live, except, i - 1);
    }
  }

  /** A session id that the sender alone holds is never sent to when the sender is skipped. */
  lemma SenderIsSkipped(ps: seq<Player>, games: seq<Game>, ref: Option<GameInstanceRef>, live: set<string>,
                        sender: Player, w: string)
    requires sender.SessionData.Some? && sender.SessionData.value.WebsocketSessionId == Some(w)
    requires forall p :: p in ps && p != sender ==> p.SessionData.None? || p.SessionData.value.WebsocketSessionId != Some(w)
    ensures w !in Deliveries(ps, games, ref, live, Some(sender))
  {
    DeliveriesAreScoped(ps, games, ref, live, Some(sender));
  }

  /**
   * As written, a broadcast with `meToo` false reaches nobody, although another in-scope player
   * with a live session would be sent it once only the sender is skipped.
   */
  lemma {:induction false} HostBroadcastIsLost(ps: seq<Player>, games: seq<Game>, ref: Option<GameInstanceRef>, live: set<string>,
                            sender: Player, other: Player)
    requires forall i :: 0 <= i < |ps| ==> Passable(games, ref, ps[i])
    requires other in ps && other != sender && InScope(games, ref, other)
    requires other.SessionData.Some? && other.SessionData.value.WebsocketSessionId.Some?
    requires other.SessionData.value.WebsocketSessionId.value in live
    ensures DeliveriesAsWritten(ps, games, ref, false, live) == []
    ensures other.SessionData.value.WebsocketSessionId.value in Deliveries(ps, games, ref, live, Some(sender))
  {
    DeliveriesComplete(ps, games, ref, live, Some(sender));
    RecipientsInclude(ps, games, ref, live, Some(sender), other);
  }

  /** A player's contribution appears among the recipients of a list holding it. */
  lemma {:induction false} RecipientsInclude(ps: seq<Player>, games: seq<Game>, ref: Option<GameInstanceRef>,
                                             live: set<string>, except: Option<Player>, p: Player)
    requires p in ps
    ensures forall w :: w in Recipient(games, ref, live, except, p) ==> w in RecipientsOf(ps, games, ref, live, except)
  {
    if ps[0] != p {
      RecipientsInclude(ps[1..], games, ref, live, except, p);
    }
  }

  /** With `meToo` true nothing is skipped, and the corrected loop sends what the written one sends. */
  lemma MeTooAgrees(ps: seq<Player>, games: seq<Game>, ref: Option<GameInstanceRef>, live: set<string>)
    ensures DeliveriesAsWritten(ps, games, ref, true, live) == Deliveries(ps, games, ref, live, None)
  {
  }

  // ---------------------------------------------------------------- error replies

  /** How reflection rethrows a handler's exception: wrapped as the inner exception. */
  function InvocationFailure(e: Exception): (w: Exception)
    ensures w.InnerException == Some(e)
  {
    Exception(TargetInvocationText, Some(e))
  }

  /** The text `OnMessage` reports: the inner exception's message when there is one. */
  function ErrorText(e: Exception): string {
    if e.InnerException.Some? then e.InnerException.value.Message else e.Message
  }

  /**
   * What `OnMessage` sends back to the caller, given how decoding and handling ended: a handler's
   * reply when it returned one, nothing when it returned null, and one `ServerErrorMessage`
   * carrying the error text when anything threw.
   */
  function Replies(outcome: Result<Option<Message>>): (ms: seq<Message>)
    ensures outcome.Failure? ==> ms == [ServerErrorMessage(ErrorText(outcome.error))]
    ensures outcome.Success? ==> ms == if outcome.value.Some? then [outcome.value.value] else []
  {
    match outcome
    case Failure(e) => [ServerErrorMessage(ErrorText(e))]
    case Success(reply) => if reply.Some? then [reply.value] else []
  }

  /** A handler that throws `msg` gets exactly one error reply carrying `msg`, however it was wrapped. */
  lemma HandlerErrorReachesCaller(msg: string)
    ensures Replies(Failure(InvocationFailure(Raise(msg)))) == [ServerErrorMessage(msg)]
    ensures Replies(Failure(Raise(msg))) == [ServerErrorMessage(msg)]
  {
  }

  // ---------------------------------------------------------------- handler plumbing

  /** The text every handler throws when the connection resolves to no player. */
  const RequiresSessionText: string := "requires a user session"

  /**
   * The opening lines every handler shares: look the sender up, then
   * `Assert.ThrowIfNull(currentPlayer, "requires a user session")`. A lookup that throws
   * propagates.
   */
  function SessionPlayer(lookup: Result<Option<Player>>): (r: Result<Player>)
    ensures lookup.Failure? ==> r == Failure(lookup.error)
    ensures lookup == Success(None) ==> r == Failure(ThrowError(RequiresSessionText))
    ensures lookup.Success? && lookup.value.Some? ==> r == Success(lookup.value.value)
  {
    var current :- lookup;
    ThrowIfNull(current, RequiresSessionText)
  }

  /**
   * What a handler asks of its collaborators, in order: a broadcast through the connection,
   * an addressed `Send(message, id)`, or one of the server's instance operations
   * (`HostGameInstance`, `JoinGameInstance`, `LeaveGameInstance`, `StartGameInstance`), whose
   * bodies are not part of this model.
   */
  datatype Effect =
      Broadcasts(Message: Message, Ref: Option<GameInstanceRef>, MeToo: bool)
    | Sends(Message: Message, To: Option<string>)
    | HostsInstance(Host: Player, Game: Game, InstanceName: string)
    | JoinsInstance(Instance: GameInstance, Player: Player)
    | LeavesInstance(Instance: GameInstance, Player: Player)
    | StartsInstance(InstanceId: string)

  // ---------------------------------------------------------------- sends

  /**
   * One message leaving the server: to a live socket session, as `Broadcast` sends, or addressed
   * to an id through `Send(message, id)`, whose body is not part of this model.
   */
  datatype Sent = ToSession(SessionId: string, Message: Message) | ToId(Id: Option<string>, Message: Message)

  /** `message` sent to each of the session ids `ids`, in order. */
  function Addressed(ids: seq<string>, message: Message): (out: seq<Sent>)
    ensures |out| == |ids|
    ensures forall i :: 0 <= i < |ids| ==> out[i] == ToSession(ids[i], message)
  {
    if ids == [] then [] else [ToSession(ids[0], message)] + Addressed(ids[1..], message)
  }

  /** Every active player has session data: what the two ways into the active list guarantee. */
  predicate Sessioned(ps: seq<Player>) {
    forall i :: 0 <= i < |ps| ==> ps[i].SessionData.Some?
  }

  /** Over a list of players with session data the active search never throws. */
  lemma SessionedLookupSucceeds(ps: seq<Player>, cookie: Option<string>)
    requires Sessioned(ps)
    ensures FindActive(ps, cookie).Success?
  {
  }

  /** The lookup keeps every active player with session data: a promoted record matched on it. */
  lemma LookupKeepsSessioned(ps: seq<Player>, store: Repository.Store, cookie: Option<string>,
                             r: Result<Option<Player>>, ps': seq<Player>)
    requires LookupOutcome(ps, store, cookie, r, ps') && Sessioned(ps)
    ensures Sessioned(ps') && r.Success?
  {
    SessionedLookupSucceeds(ps, cookie);
    if ps' != ps {
      var rec :| rec in store.Values && StoredMatch(rec, cookie.value)
        && r == Success(Some(rec.(GameInstanceRef := None))) && ps' == ps + [rec.(GameInstanceRef := None)];
      assert ps'[|ps|] == rec.(GameInstanceRef := None);
    }
  }

  /**
   * The listing `OnClose` broadcasts: the active players whose session id differs from the
   * closing player's. Reading `SessionData.SessionId` throws on a player without session data.
   */
  function Others(ps: seq<Player>, current: Player): (r: Result<seq<Player>>)
    ensures r.Failure? ==> r.error == NullReference()
    ensures r.Failure? <==> current.SessionData.None? || exists i :: 0 <= i < |ps| && ps[i].SessionData.None?
    ensures r.Success? ==> forall p :: p in r.value <==> p in ps && p.SessionData.value.SessionId != current.SessionData.value.SessionId
  {
    if current.SessionData.None? then Failure(NullReference())
    else if ps == [] then Success([])
    else if ps[0].SessionData.None? then Failure(NullReference())
    else
      match Others(ps[1..], current)
      case Failure(e) => Failure(e)
      case Success(rest) =>
        if ps[0].SessionData.value.SessionId != current.SessionData.value.SessionId
        then Success([ps[0]] + rest) else Success(rest)
  }

  /** The position of the first element equal to `x` at or after `j`. */
  function FirstIndexFrom(ps: seq<Player>, x: Player, j: nat): (i: nat)
    requires j <= |ps| && exists k :: j <= k < |ps| && ps[k] == x
    ensures j <= i < |ps| && ps[i] == x
    ensures forall k :: j <= k < i ==> ps[k] != x
    decreases |ps| - j
  {
    if ps[j] == x then j else FirstIndexFrom(ps, x, j + 1)
  }

  /** `List.Remove`: the first element equal to `x` is taken out, or nothing when there is none. */
  function RemoveFirst(ps: seq<Player>, x: Player): (r: seq<Player>)
    ensures x !in ps ==> r == ps
    ensures x in ps ==> exists i :: 0 <= i < |ps| && ps[i] == x && x !in ps[..i] && r == ps[..i] + ps[i + 1..]
  {
    if x in ps then
      var i := FirstIndexFrom(ps, x, 0);
      assert x !in ps[..i];
      ps[..i] + ps[i + 1..]
    else ps
  }

  /** `Deliveries` of a suffix, unfolded once. */
  lemma DeliveriesStep(ps: seq<Player>, games: seq<Game>, ref: Option<GameInstanceRef>, live: set<string>,
                       except: Option<Player>, i: nat)
    requires i < |ps|
    ensures var p := ps[i];
      var found := FindPlayerGameInstance(games, p);
      Deliveries(ps[i..], games, ref, live, except) ==
        if except == Some(p) then Deliveries(ps[i + 1..], games, ref, live, except)
        else if ref.Some? && found.None? then []
        else if ref.None? || ref.value.Id == Some(found.value.Id) then
          if p.SessionData.None? then []
          else
            var ws := p.SessionData.value.WebsocketSessionId;
            (if ws.Some? && ws.value in live then [ws.value] else []) + Deliveries(ps[i + 1..], games, ref, live, except)
        else Deliveries(ps[i + 1..], games, ref, live, except)
  {
    assert ps[i..][0] == ps[i] && ps[i..][1..] == ps[i + 1..];
  }

  /** What the loop of `Broadcast` has sent after the players `ps[..i]`: what remains completes it. */
  ghost predicate DeliveredUpTo(ps: seq<Player>, games: seq<Game>, ref: Option<GameInstanceRef>, live: set<string>,
                                except: Option<Player>, i: nat, sent: seq<string>)
  {
    i <= |ps| && sent + Deliveries(ps[i..], games, ref, live, except) == Deliveries(ps, games, ref, live, except)
  }

  /**
   * One turn of the loop of `Broadcast`, for `ps[i]`: `stop` when the turn dereferences null
   * (the loop is left through the surrounding catch), otherwise the ids it sends to.
   */
  method DeliverAt(ps: seq<Player>, games: seq<Game>, ref: Option<GameInstanceRef>, live: set<string>,
                   except: Option<Player>, i: nat)
    returns (stop: bool, ids: seq<string>)
    requires i < |ps|
    ensures stop ==> Deliveries(ps[i..], games, ref, live, except) == []
    ensures !stop ==> Deliveries(ps[i..], games, ref, live, except) == ids + Deliveries(ps[i + 1..], games, ref, live, except)
  {
    DeliveriesStep(ps, games, ref, live, except, i);
    stop, ids := false, [];
    var player := ps[i];
    if except == Some(player) {
      return;
    }
    var instance := FindPlayerGameInstance(games, player);
    if ref.Some? && instance.None? {
      return true, [];
    }
    if ref.None? || ref.value.Id == Some(instance.value.Id) {
      if player.SessionData.None? {
        return true, [];
      }
      var ws := player.SessionData.value.WebsocketSessionId;
      if ws.Some? && ws.value in live {
        ids := [ws.value];
      }
    }
  }

  /** One turn of the loop of `Broadcast`, added to what the earlier turns sent. */
  method DeliverNext(ps: seq<Player>, games: seq<Game>, ref: Option<GameInstanceRef>, live: set<string>,
                     except: Option<Player>, i: nat, sent: seq<string>)
    returns (stop: bool, sent': seq<string>)
    requires i < |ps| && DeliveredUpTo(ps, games, ref, live, except, i, sent)
    ensures stop ==> sent' == Deliveries(ps, games, ref, live, except)
    ensures !stop ==> DeliveredUpTo(ps, games, ref, live, except, i + 1, sent')
  {
    var ids;
    stop, ids := DeliverAt(ps, games, ref, live, except, i);
    ghost var rest := Deliveries(ps[i + 1..], games, ref, live, except);
    if stop {
      assert sent + [] == sent;
      return stop, sent;
    }
    assert sent + (ids + rest) == (sent + ids) + rest;
    sent' := sent + ids;
  }

  /**
   * The loop of `Broadcast` once the sender is looked up: the session ids the message goes to,
   * skipping `except`. A null dereference inside the loop leaves it through the surrounding catch.
   */
  method Deliver(ps: seq<Player>, games: seq<Game>, ref: Option<GameInstanceRef>, live: set<string>,
                 except: Option<Player>)
    returns (sent: seq<string>)
    ensures sent == Deliveries(ps, games, ref, live, except)
  {
    assert ps[0..] == ps && [] + Deliveries(ps, games, ref, live, except) == Deliveries(ps, games, ref, live, except);
    sent := [];
    var i := 0;
    while i < |ps|
      invariant DeliveredUpTo(ps, games, ref, live, except, i, sent)
    {
      var stop;
      stop, sent := DeliverNext(ps, games, ref, live, except, i, sent);
      if stop {
        return;
      }
      i := i + 1;
    }
    assert ps[i..] == [];
    assert sent + [] == sent;
  }

  // ---------------------------------------------------------------- the connection

  /** `AppWebSocketBehavior`: one client connection and the session cookie it arrived with. */
  class AppWebSocketBehavior {
    const server: Server
    /** The socket session id the session manager gave this connection. */
    const ID: string
    /** The value of the `SFSession` cookie, None when the request carried none. */
    const cookie: Option<string>

    ghost predicate Valid()
      reads this, server, server.playerRepository
    {
      server.Valid()
    }

    constructor (server: Server, id: string, cookie: Option<string>)
      requires server.Valid()
      ensures Valid() && this.server == server && ID == id && this.cookie == cookie
    {
      this.server := server;
      ID := id;
      this.cookie := cookie;
    }

    /**
     * `GetCurrentSessionPlayer`: the active player whose session id is the cookie; failing that,
     * with a cookie, a stored record carrying it, promoted into the active list with its instance
     * reference cleared. Only the active list changes; the store is only read.
     */
    method GetCurrentSessionPlayer() returns (r: Result<Option<Player>>)
      requires Valid()
      modifies server, server.playerRepository
      ensures Valid()
      ensures LookupOutcome(old(server.Players), old(server.playerRepository.Current()), cookie, r, server.Players)
      ensures server.playerRepository.Current() == old(server.playerRepository.Current())
      ensures server.Games == old(server.Games) && server.Chat == old(server.Chat)
      ensures server.PlayerDatabase == old(server.PlayerDatabase)
    {
      var found := FindActive(server.Players, cookie);
      match found
      case Failure(e) =>
        return Failure(e);
      case Success(Some(i)) =>
        return Success(Some(server.Players[i]));
      case Success(None) =>
        if cookie.None? {
          return Success(None);
        }
        var stored := server.playerRepository.GetAllPlayers();
        var rec := FirstStored(stored, cookie.value);
        if rec.None? {
          return Success(None);
        }
        var player := rec.value.(GameInstanceRef := None);
        server.Players := server.Players + [player];
        return Success(Some(player));
    }

    /**
     * `CreatePlayerSession`: a new player called `name`, whose session id is the fresh
     * `sessionGuid` and whose socket session is this connection, inserted into the store and,
     * once stored, appended to the active list. The new player has no Id yet, so the insert's
     * own lookup throws: the session is never created and the list is left alone.
     */
    method CreatePlayerSession(name: string, sessionGuid: string, guid: seq<ShortGuid.byte>, now: Time,
                               order: seq<string>)
      returns (r: Result<Player>)
      requires Valid() && |guid| == 16
      modifies server, server.playerRepository
      ensures Valid()
      ensures var inserted := Repository.InsertAsWritten(old(server.playerRepository.Current()),
                                                NewPlayer(name, SessionData(Some(sessionGuid), Some(ID))), guid, now, order);
        server.playerRepository.players == Some(inserted.store) && r == inserted.outcome
      ensures r == Failure(Raise(Repository.NullKeyText))
      ensures server.playerRepository.Current() == old(server.playerRepository.Current())
      ensures server.Players == old(server.Players)
      ensures server.Games == old(server.Games) && server.Chat == old(server.Chat)
      ensures server.PlayerDatabase == old(server.PlayerDatabase)
    {
      var player := NewPlayer(name, SessionData(Some(sessionGuid), Some(ID)));
      r := server.playerRepository.InsertPlayer(player, guid, now, order);
      // The insert has thrown, so the `Players.Add` after it is never reached.
    }

    /**
     * `Broadcast`: look the sender up, then walk the active list; with `meToo` false every
     * player is skipped, so nothing is sent. The sends are exactly `DeliveriesAsWritten` of the
     * list after the lookup, and a lookup that throws sends nothing.
     */
    method Broadcast(message: Message, ref: Option<GameInstanceRef>, meToo: bool, live: set<string>)
      returns (out: seq<Sent>, ghost lookup: Result<Option<Player>>)
      requires Valid()
      modifies server, server.playerRepository
      ensures Valid()
      ensures LookupOutcome(old(server.Players), old(server.playerRepository.Current()), cookie, lookup, server.Players)
      ensures lookup.Failure? ==> out == []
      ensures lookup.Success? ==>
        out == Addressed(DeliveriesAsWritten(server.Players, server.Games, ref, meToo, live), message)
      ensures server.playerRepository.Current() == old(server.playerRepository.Current())
      ensures server.Games == old(server.Games) && server.Chat == old(server.Chat)
      ensures server.PlayerDatabase == old(server.PlayerDatabase)
    {
      var found := GetCurrentSessionPlayer();
      lookup := found;
      if found.Failure? {
        return [], lookup;
      }
      var sent := [];
      if meToo {
        sent := Deliver(server.Players, server.Games, ref, live, None);
      }
      out := Addressed(sent, message);
    }

    /**
     * `OnClose`: nothing without a session player; otherwise the listing of everyone with a
     * different session id goes to all live sessions and the player is taken out of the active
     * list. The player stays seated in any game instance.
     */
    method OnClose(live: set<string>)
      returns (r: Result<()>, out: seq<Sent>, ghost lookup: Result<Option<Player>>, ghost active: seq<Player>)
      requires Valid()
      modifies server, server.playerRepository
      ensures Valid()
      ensures LookupOutcome(old(server.Players), old(server.playerRepository.Current()), cookie, lookup, active)
      ensures lookup.Failure? ==> r == Failure(lookup.error) && out == [] && server.Players == active
      ensures lookup == Success(None) ==> r == Success(()) && out == [] && server.Players == active
      ensures lookup.Success? && lookup.value.Some? && Others(active, lookup.value.value).Failure? ==>
        r == Failure(NullReference()) && out == [] && server.Players == active
      ensures lookup.Success? && lookup.value.Some? && Others(active, lookup.value.value).Success? ==>
        r == Success(()) && server.Players == RemoveFirst(active, lookup.value.value)
      ensures lookup.Success? && lookup.value.Some? && Others(active, lookup.value.value).Success? ==>
        out == Addressed(Deliveries(active, server.Games, None, live, None),
                         PlayerListingMessage(Others(active, lookup.value.value).value))
      ensures server.playerRepository.Current() == old(server.playerRepository.Current())
      ensures server.Games == old(server.Games) && server.Chat == old(server.Chat)
      ensures server.PlayerDatabase == old(server.PlayerDatabase)
    {
      var found := GetCurrentSessionPlayer();
      lookup, active := found, server.Players;
      if found.Failure? {
        return Failure(found.error), [], lookup, active;
      }
      if found.value.None? {
        return Success(()), [], lookup, active;
      }
      LookupIdempotent(old(server.Players), old(server.playerRepository.Current()), cookie, lookup, active);
      r, out := CloseFound(found.value.value, live);
    }

    /**
     * The rest of `OnClose` once the lookup has found `current` in the active list: the listing,
     * its broadcast (whose own lookup finds `current` again and changes nothing), the removal.
     */
    method CloseFound(current: Player, live: set<string>) returns (r: Result<()>, out: seq<Sent>)
      requires Valid()
      requires FindActive(server.Players, cookie).Success? && FindActive(server.Players, cookie).value.Some?
      requires server.Players[FindActive(server.Players, cookie).value.value] == current
      modifies server, server.playerRepository
      ensures Valid()
      ensures Others(old(server.Players), current).Failure? ==>
        r == Failure(NullReference()) && out == [] && server.Players == old(server.Players)
      ensures Others(old(server.Players), current).Success? ==>
        r == Success(()) && server.Players == RemoveFirst(old(server.Players), current)
      ensures Others(old(server.Players), current).Success? ==>
        out == Addressed(Deliveries(old(server.Players), server.Games, None, live, None),
                         PlayerListingMessage(Others(old(server.Players), current).value))
      ensures server.playerRepository.Current() == old(server.playerRepository.Current())
      ensures server.Games == old(server.Games) && server.Chat == old(server.Chat)
      ensures server.PlayerDatabase == old(server.PlayerDatabase)
    {
      var others := Others(server.Players, current);
      if others.Failure? {
        return Failure(others.error), [];
      }
      ghost var active := server.Players;
      ghost var store := server.playerRepository.Current();
      ghost var again;
      out, again := Broadcast(PlayerListingMessage(others.value), None, true, live);
      LookupFoundStable(active, store, cookie, again, server.Players);
      server.Players := RemoveFirst(server.Players, current);
      r := Success(());
    }
  }

  /** The operations that add to the active list keep every active player with session data. */
  lemma CreatedSessionIsSessioned(ps: seq<Player>, p: Player)
    requires Sessioned(ps) && p.SessionData.Some?
    ensures Sessioned(ps + [p])
  {
  }
}
