/**
 * `PlayerRepository` (StateFlux/StateFlux.Model/Repository/PlayerRepository.cs): the persistent
 * player store, a dictionary from player Id to player record, read lazily from the database
 * file on first use. The file itself is outside the model: the repository is given what the
 * file holds (None when it is missing or does not parse), and saving is not modelled.
 *
 * The store operations are specified by functions on the dictionary; the class performs them in
 * place. Identifiers come from `ShortGuid.Generate` over given random bytes, and "now" is a
 * parameter.
 */
module Repository {
  import opened Wrappers
  import opened Model
  import ShortGuid

  type Store = map<string, Player>

  /** The message of the ArgumentNullException a .NET dictionary throws for a null key. */
  const NullKeyText: string := "Value cannot be null. (Parameter 'key')"

  const DuplicateIdText: string := "failed to insert player, GUID already in DB"

  /** The message of the ArgumentException `Dictionary.Add` throws for a key already present. */
  function DuplicateKeyText(key: string): string {
    "An item with the same key has already been added. Key: " + key
  }

  /** Every record is stored under its own Id, as `InsertPlayer` stores it. */
  predicate KeyedById(m: Store) {
    forall k :: k in m ==> m[k].Id == Some(k)
  }

  /** `LoadDb`: what the file holds, or an empty store when it is missing or unreadable. */
  function LoadDb(database: Option<Store>): (m: Store)
    ensures database.None? ==> m == map[]
    ensures database.Some? ==> m == database.value
  {
    database.GetOr(map[])
  }

  /**
   * `GetPlayerById` as written: `TryGetValue(null)` throws, otherwise the record under `id`,
   * or null when there is none.
   */
  function LookupAsWritten(m: Store, id: Option<string>): (r: Result<Option<Player>>)
    ensures id.None? <==> r.Failure?
    ensures r.Failure? ==> r.error == Raise(NullKeyText)
    ensures r.Success? ==> (r.value.Some? <==> id.value in m)
    ensures r.Success? && r.value.Some? ==> r.value.value == m[id.value]
  {
    match id
    case None => Failure(Raise(NullKeyText))
    case Some(k) => Success(if k in m then Some(m[k]) else None)
  }

  /** `GetPlayerById` as its callers use it: a player with no Id is not in the store. */
  function Lookup(m: Store, id: Option<string>): (r: Option<Player>)
    ensures r.Some? <==> id.Some? && id.value in m
    ensures r.Some? ==> r.value == m[id.value]
  {
    if id.Some? && id.value in m then Some(m[id.value]) else None
  }

  /**
   * `RemoveAllPlayersWithName` read on a store that keeps every record under its own Id: every
   * record called `name` is dropped. The reference that `RemoveNamed` agrees with on such stores.
   */
  function WithoutName(m: Store, name: string): (r: Store)
    ensures forall k :: k in r <==> k in m && m[k].Name != name
    ensures forall k :: k in r ==> r[k] == m[k]
  {
    map k | k in m && m[k].Name != name :: m[k]
  }

  /** What a removal pass leaves behind: the store, and the exception that stopped it, if any. */
  datatype Removed = Removed(store: Store, error: Option<Exception>)

  /** Every key of the store appears in the enumeration order. */
  predicate Covers(order: seq<string>, m: Store) {
    forall k :: k in m ==> k in order
  }

  /** How many of the entries under `keys` hold the record `p`. */
  function Copies(m: Store, keys: set<string>, p: Player): nat {
    |set k | k in keys && k in m && m[k] == p|
  }

  /** One more key adds one copy of the record stored under it. */
  lemma CopiesAdd(m: Store, keys: set<string>, k: string, p: Player)
    requires k in m && k !in keys
    ensures Copies(m, keys + {k}, p) == Copies(m, keys, p) + if m[k] == p then 1 else 0
  {
    var a := set j | j in keys && j in m && m[j] == p;
    var b := set j | j in keys + {k} && j in m && m[j] == p;
    if m[k] == p {
      assert b == a + {k};
    } else {
      assert b == a;
    }
  }

  /** No stored record lacks an Id. */
  predicate AllHaveIds(m: Store) {
    forall k :: k in m ==> m[k].Id.Some?
  }

  /**
   * `RemoveAllPlayersWithName` as written: the dictionary is enumerated in `order` (the keys as
   * .NET happens to list them), and each record still present and called `name` has the entry
   * under its own `Id` removed, which need not be the key it was found under. A record without
   * an Id makes `Remove(null)` throw, and the removals before it stay done.
   */
  function RemoveNamed(m: Store, name: string, order: seq<string>): (r: Removed)
    ensures r.store.Keys <= m.Keys
    ensures forall k :: k in r.store ==> r.store[k] == m[k]
    ensures AllHaveIds(m) ==> r.error.None?
    decreases |order|
  {
    if order == [] then Removed(m, None)
    else
      var k := order[0];
      if k in m && m[k].Name == name then
        match m[k].Id
        case None => Removed(m, Some(Raise(NullKeyText)))
        case Some(j) => RemoveNamed(m - {j}, name, order[1..])
      else RemoveNamed(m, name, order[1..])
  }

  /** The record `InsertPlayer` stores: the player with its new Id and time stamp. */
  function Stamped(player: Player, id: string, now: Time): (p: Player)
    ensures p.Id == Some(id) && p.LastUpdated == Some(now)
    ensures p.Name == player.Name && p.SessionData == player.SessionData
    ensures p.GameInstanceRef == player.GameInstanceRef && p.Color == player.Color
  {
    player.(Id := Some(id), LastUpdated := Some(now))
  }

  /** What an insert leaves behind: the store it changed, and the outcome it reports. */
  datatype Inserted = Inserted(store: Store, outcome: Result<Player>)

  /**
   * The insert steps after the duplicate-Id check: a fresh Id, the removal of every record with
   * the player's name, the time stamp, then `Dictionary.Add`, which throws if the fresh Id is
   * already a key. A step that throws leaves the removals before it done.
   */
  function InsertFresh(m: Store, player: Player, guid: seq<ShortGuid.byte>, now: Time, order: seq<string>): (r: Inserted)
    requires |guid| == 16
  {
    var id := ShortGuid.Generate(guid);
    var removed := RemoveNamed(m, player.Name, order);
    if removed.error.Some? then Inserted(removed.store, Failure(removed.error.value))
    else if id in removed.store then Inserted(removed.store, Failure(Raise(DuplicateKeyText(id))))
    else Inserted(removed.store[id := Stamped(player, id, now)], Success(Stamped(player, id, now)))
  }

  /** `InsertPlayer` as written: the duplicate check looks the player's own Id up first. */
  function InsertAsWritten(m: Store, player: Player, guid: seq<ShortGuid.byte>, now: Time, order: seq<string>): (r: Inserted)
    requires |guid| == 16
    ensures player.Id.None? ==> r == Inserted(m, Failure(Raise(NullKeyText)))
    ensures player.Id.Some? && player.Id.value in m ==> r == Inserted(m, Failure(Raise(DuplicateIdText)))
    ensures player.Id.Some? && player.Id.value !in m ==> r == InsertFresh(m, player, guid, now, order)
  {
    match LookupAsWritten(m, player.Id)
    case Failure(e) => Inserted(m, Failure(e))
    case Success(found) =>
      if found.Some? then Inserted(m, Failure(Raise(DuplicateIdText))) else InsertFresh(m, player, guid, now, order)
  }

  /** `InsertPlayer` with a missing Id read as "not stored yet", which is what its callers rely on. */
  function Insert(m: Store, player: Player, guid: seq<ShortGuid.byte>, now: Time, order: seq<string>): (r: Inserted)
    requires |guid| == 16
    ensures Lookup(m, player.Id).Some? ==> r == Inserted(m, Failure(Raise(DuplicateIdText)))
    ensures Lookup(m, player.Id).None? ==> r == InsertFresh(m, player, guid, now, order)
  {
    if Lookup(m, player.Id).Some? then Inserted(m, Failure(Raise(DuplicateIdText)))
    else InsertFresh(m, player, guid, now, order)
  }

  /**
   * `UpdatePlayer` as written: the lookup of the player's Id throws for a missing Id; an unknown
   * player is time-stamped and inserted; a known one has its Name, Bval, Fval, Sval and
   * SessionData copied onto the stored record, which is re-stamped and keeps everything else,
   * its key included.
   */
  function UpdateAsWritten(m: Store, player: Player, guid: seq<ShortGuid.byte>, now: Time, order: seq<string>): (r: Inserted)
    requires |guid| == 16
    ensures player.Id.None? ==> r == Inserted(m, Failure(Raise(NullKeyText)))
  {
    match LookupAsWritten(m, player.Id)
    case Failure(e) => Inserted(m, Failure(e))
    case Success(None) => InsertAsWritten(m, player.(LastUpdated := Some(now)), guid, now, order)
    case Success(Some(p)) =>
      Inserted(m[player.Id.value := Copied(p, player, now)], Success(Copied(p, player, now)))
  }

  /** `UpdatePlayer` on top of the corrected `Insert`: a missing Id is an unknown player. */
  function Update(m: Store, player: Player, guid: seq<ShortGuid.byte>, now: Time, order: seq<string>): (r: Inserted)
    requires |guid| == 16
  {
    match Lookup(m, player.Id)
    case None => Insert(m, player.(LastUpdated := Some(now)), guid, now, order)
    case Some(p) =>
      Inserted(m[player.Id.value := Copied(p, player, now)], Success(Copied(p, player, now)))
  }

  /** The stored record `p` after `UpdatePlayer` copies the fields of `player` onto it. */
  function Copied(p: Player, player: Player, now: Time): Player {
    p.(Name := player.Name, Bval := player.Bval, Fval := player.Fval, Sval := player.Sval,
       LastUpdated := Some(now), SessionData := player.SessionData)
  }

  class PlayerRepository {
    /** `_players`: None until the first operation loads the database. */
    var players: Option<Store>
    /** What the database file holds, None when it is missing or does not parse. */
    const database: Option<Store>

    /** The store as the next operation sees it, loading it first if need be. */
    function Current(): Store
      reads this
    {
      if players.Some? then players.value else LoadDb(database)
    }

    constructor (database: Option<Store>)
      ensures players.None? && this.database == database
    {
      players := None;
      this.database := database;
    }

    /** `LazyLoadPlayerDb`: reads the database only when nothing is loaded yet. */
    method LazyLoadPlayerDb()
      modifies this
      ensures players == Some(old(Current()))
      ensures old(players).Some? ==> players == old(players)
    {
      if players.None? {
        players := Some(LoadDb(database));
      }
    }

    /** `GetPlayerById`: `TryGetValue` throws for a missing Id, else the record under it or null. */
    method GetPlayerById(id: Option<string>) returns (r: Result<Option<Player>>)
      modifies this
      ensures players == Some(old(Current()))
      ensures r == LookupAsWritten(old(Current()), id)
    {
      LazyLoadPlayerDb();
      if id.None? {
        return Failure(Raise(NullKeyText));
      }
      r := Success(if id.value in players.value then Some(players.value[id.value]) else None);
    }

    /**
     * `GetAllPlayers`: every stored record, each as often as it is stored, in the dictionary's
     * own order.
     */
    method GetAllPlayers() returns (ps: seq<Player>)
      modifies this
      ensures players == Some(old(Current()))
      ensures |ps| == |players.value|
      ensures forall p :: p in ps <==> p in players.value.Values
      ensures forall p :: multiset(ps)[p] == Copies(players.value, players.value.Keys, p)
    {
      LazyLoadPlayerDb();
      var m := players.value;
      var left := m.Keys;
      ps := [];
      while left != {}
        invariant left <= m.Keys
        invariant |ps| + |left| == |m.Keys|
        invariant forall p :: p in ps <==> exists k :: k in m.Keys - left && m[k] == p
        invariant forall p :: multiset(ps)[p] == Copies(m, m.Keys - left, p)
        decreases left
      {
        var k :| k in left;
        ghost var done := m.Keys - left;
        ps := ps + [m[k]];
        left := left - {k};
        assert m.Keys - left == done + {k};
        forall p
          ensures Copies(m, done + {k}, p) == Copies(m, done, p) + if m[k] == p then 1 else 0
        {
          CopiesAdd(m, done, k, p);
        }
      }
      assert m.Keys - left == m.Keys;
    }

    /**
     * `RemoveAllPlayersWithName`: the loop over the records called `name`, in the enumeration
     * `order`, removing the entry under each one's Id; a record without an Id throws.
     */
    method RemoveAllPlayersWithName(name: string, order: seq<string>) returns (error: Option<Exception>)
      requires players.Some?
      modifies this
      ensures players.Some? && Removed(players.value, error) == RemoveNamed(old(players.value), name, order)
    {
      var i := 0;
      while i < |order|
        invariant 0 <= i <= |order| && players.Some?
        invariant RemoveNamed(players.value, name, order[i..]) == RemoveNamed(old(players.value), name, order)
      {
        assert order[i..][0] == order[i] && order[i..][1..] == order[i + 1..];
        var k := order[i];
        if k in players.value && players.value[k].Name == name {
          var id := players.value[k].Id;
          if id.None? {
            return Some(Raise(NullKeyText));
          }
          players := Some(players.value - {id.value});
        }
        i := i + 1;
      }
      assert order[i..] == [];
      error := None;
    }

    /**
     * `InsertPlayer`: the lookup of the player's own Id (which throws when it has none), the
     * refusal of a stored Id, then a fresh Id, the removal of every record with the player's
     * name, and the stamped player added under the fresh Id.
     */
    method InsertPlayer(player: Player, guid: seq<ShortGuid.byte>, now: Time, order: seq<string>)
      returns (r: Result<Player>)
      requires |guid| == 16
      modifies this
      ensures players.Some? && Inserted(players.value, r) == InsertAsWritten(old(Current()), player, guid, now, order)
    {
      LazyLoadPlayerDb();
      var existing := GetPlayerById(player.Id);
      if existing.Failure? {
        return Failure(existing.error);
      }
      if existing.value.Some? {
        return Failure(Raise(DuplicateIdText));
      }
      var id := ShortGuid.Generate(guid);
      var removal := RemoveAllPlayersWithName(player.Name, order);
      if removal.Some? {
        return Failure(removal.value);
      }
      var stamped := Stamped(player, id, now);
      if id in players.value {
        return Failure(Raise(DuplicateKeyText(id)));
      }
      players := Some(players.value[id := stamped]);
      r := Success(stamped);
    }

    /** `UpdatePlayer`: insert an unknown player, or copy the updatable fields onto the stored one. */
    method UpdatePlayer(player: Player, guid: seq<ShortGuid.byte>, now: Time, order: seq<string>)
      returns (r: Result<Player>)
      requires |guid| == 16
      modifies this
      ensures players.Some? && Inserted(players.value, r) == UpdateAsWritten(old(Current()), player, guid, now, order)
    {
      LazyLoadPlayerDb();
      var p := GetPlayerById(player.Id);
      if p.Failure? {
        return Failure(p.error);
      }
      if p.value.None? {
        r := InsertPlayer(player.(LastUpdated := Some(now)), guid, now, order);
      } else {
        var copied := Copied(p.value.value, player, now);
        players := Some(players.value[player.Id.value := copied]);
        r := Success(copied);
      }
    }
  }

  // ---------------------------------------------------------------- properties

  /** The records a removal pass over `order` keeps when every record is keyed by its Id. */
  function Kept(m: Store, name: string, order: seq<string>): Store {
    map k | k in m && !(k in order && m[k].Name == name) :: m[k]
  }

  /**
   * On a store that keeps every record under its own Id, the removal pass drops exactly the
   * records called `name` whose keys it enumerates, and never throws.
   */
  lemma {:induction false} RemoveNamedDropsEnumerated(m: Store, name: string, order: seq<string>)
    requires KeyedById(m)
    ensures RemoveNamed(m, name, order) == Removed(Kept(m, name, order), None)
    decreases |order|
  {
    if order == [] {
      assert Kept(m, name, order) == m;
    } else {
      var k := order[0];
      assert forall x :: x in order <==> x == k || x in order[1..];
      if k in m && m[k].Name == name {
        var rest := m - {k};
        assert KeyedById(rest);
        RemoveNamedDropsEnumerated(rest, name, order[1..]);
        assert Kept(rest, name, order[1..]) == Kept(m, name, order);
      } else {
        RemoveNamedDropsEnumerated(m, name, order[1..]);
        assert Kept(m, name, order[1..]) == Kept(m, name, order);
      }
    }
  }

  /** On such a store, a pass over every key is `WithoutName`. */
  lemma RemoveNamedIsWithoutName(m: Store, name: string, order: seq<string>)
    requires KeyedById(m) && Covers(order, m)
    ensures RemoveNamed(m, name, order) == Removed(WithoutName(m, name), None)
  {
    RemoveNamedDropsEnumerated(m, name, order);
    assert Kept(m, name, order) == WithoutName(m, name);
  }

  /**
   * A record filed under another key than its Id survives the pass even when it carries the
   * name, and the entry under its Id goes instead.
   */
  lemma MisfiledRecordSurvives(name: string, other: Player)
    requires other.Name != name
    ensures var p := NewPlayer(name, SessionData(None, None)).(Id := Some("b"));
      var m := map["a" := p, "b" := other];
      RemoveNamed(m, name, ["a", "b"]) == Removed(map["a" := p], None)
  {
    var p := NewPlayer(name, SessionData(None, None)).(Id := Some("b"));
    var m := map["a" := p, "b" := other];
    assert m - {"b"} == map["a" := p];
    assert ["a", "b"][1..] == ["b"];
    assert "b" !in m - {"b"};
  }

  /** As written, and the read a caller relies on, agree on every player that has an Id. */
  lemma AsWrittenAgreesWithId(m: Store, player: Player, guid: seq<ShortGuid.byte>, now: Time, order: seq<string>)
    requires |guid| == 16 && player.Id.Some?
    ensures InsertAsWritten(m, player, guid, now, order) == Insert(m, player, guid, now, order)
    ensures UpdateAsWritten(m, player, guid, now, order) == Update(m, player, guid, now, order)
  {
  }

  /** As written, inserting any fresh player (no Id yet) throws at the duplicate check. */
  lemma FreshPlayerInsertThrows(m: Store, name: string, data: SessionData, guid: seq<ShortGuid.byte>, now: Time,
                                order: seq<string>)
    requires |guid| == 16
    ensures InsertAsWritten(m, NewPlayer(name, data), guid, now, order) == Inserted(m, Failure(Raise(NullKeyText)))
  {
  }

  /**
   * Read as intended, a fresh player is stored whenever its generated Id is not already a key
   * and every stored record has an Id.
   */
  lemma FreshPlayerInsertSucceeds(m: Store, name: string, data: SessionData, guid: seq<ShortGuid.byte>, now: Time,
                                  order: seq<string>)
    requires |guid| == 16 && ShortGuid.Generate(guid) !in m && AllHaveIds(m)
    ensures Insert(m, NewPlayer(name, data), guid, now, order).outcome
         == Success(Stamped(NewPlayer(name, data), ShortGuid.Generate(guid), now))
  {
  }

  /**
   * On a store keyed by Id, after an insert the new record is the only one with its name,
   * stored under its fresh Id.
   */
  lemma InsertLeavesOneWithName(m: Store, player: Player, guid: seq<ShortGuid.byte>, now: Time, order: seq<string>)
    requires |guid| == 16 && KeyedById(m) && Covers(order, m)
    ensures var r := Insert(m, player, guid, now, order);
      r.outcome.Success? ==>
        var id := ShortGuid.Generate(guid);
        r.outcome.value == Stamped(player, id, now) && Lookup(r.store, Some(id)) == Some(r.outcome.value)
        && forall k :: k in r.store && r.store[k].Name == player.Name ==> k == id
  {
    RemoveNamedIsWithoutName(m, player.Name, order);
  }

  /**
   * On a store keyed by Id, an insert leaves every record with another name where it was, and
   * a refusal changes nothing.
   */
  lemma InsertKeepsOthers(m: Store, player: Player, guid: seq<ShortGuid.byte>, now: Time, order: seq<string>)
    requires |guid| == 16 && KeyedById(m)
    ensures var r := Insert(m, player, guid, now, order);
      (forall k :: k in m && m[k].Name != player.Name ==> k in r.store && r.store[k] == m[k])
      && (Lookup(m, player.Id).Some? ==> r.store == m)
  {
    RemoveNamedDropsEnumerated(m, player.Name, order);
  }

  /** Inserting and updating keep every record under its own Id. */
  lemma OperationsKeepKeyedById(m: Store, player: Player, guid: seq<ShortGuid.byte>, now: Time, order: seq<string>)
    requires |guid| == 16 && KeyedById(m)
    ensures KeyedById(Insert(m, player, guid, now, order).store)
    ensures KeyedById(Update(m, player, guid, now, order).store)
  {
  }

  /** A stored player cannot be inserted a second time: its Id is now in the store. */
  lemma ReinsertFails(m: Store, player: Player, g1: seq<ShortGuid.byte>, g2: seq<ShortGuid.byte>, t1: Time, t2: Time,
                      o1: seq<string>, o2: seq<string>)
    requires |g1| == 16 && |g2| == 16
    requires Insert(m, player, g1, t1, o1).outcome.Success?
    ensures var r := Insert(m, player, g1, t1, o1);
      Insert(r.store, r.outcome.value, g2, t2, o2) == Inserted(r.store, Failure(Raise(DuplicateIdText)))
      && InsertAsWritten(r.store, r.outcome.value, g2, t2, o2) == Inserted(r.store, Failure(Raise(DuplicateIdText)))
  {
  }

  /**
   * Updating a stored player changes only that record, under the same key and Id, and only its
   * Name, Bval, Fval, Sval, SessionData and time stamp.
   */
  lemma UpdateKnownCopiesFields(m: Store, player: Player, guid: seq<ShortGuid.byte>, now: Time, order: seq<string>)
    requires |guid| == 16 && Lookup(m, player.Id).Some?
    ensures var r := UpdateAsWritten(m, player, guid, now, order);
      var id := player.Id.value;
      var p := r.store[id];
      r.store.Keys == m.Keys && r.outcome == Success(p)
      && (forall k :: k in m && k != id ==> r.store[k] == m[k])
      && p.Id == m[id].Id && p.Color == m[id].Color && p.Icon == m[id].Icon && p.Score == m[id].Score
      && p.GameInstanceRef == m[id].GameInstanceRef
      && p.Name == player.Name && p.Bval == player.Bval && p.Fval == player.Fval && p.Sval == player.Sval
      && p.SessionData == player.SessionData && p.LastUpdated == Some(now)
  {
  }

  /** Updating a player with an Id the store does not know takes the insert path, time-stamped first. */
  lemma UpdateUnknownInserts(m: Store, player: Player, guid: seq<ShortGuid.byte>, now: Time, order: seq<string>)
    requires |guid| == 16 && player.Id.Some? && player.Id.value !in m
    ensures UpdateAsWritten(m, player, guid, now, order)
         == InsertAsWritten(m, player.(LastUpdated := Some(now)), guid, now, order)
  {
  }
}
