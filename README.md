# StateFlux relay and client core in Dafny

StateFlux is a WebSocket relay for small multiplayer games. The server keeps:

- a list of active players;
- a persistent player store keyed by player Id;
- a catalog of games and their instances;
- a chat log.

Every incoming message goes to a handler. The handlers cover:

- authenticating a player;
- chat, the player list and renaming;
- creating, listing, joining and leaving game instances;
- relaying game traffic: the host's state batches and commands go to the rest of its instance, and a guest's state changes, commands and full-state requests go to the instance's host.

The Unity client has:

- a per-object change tracker that the host drains into one batch per tick;
- a tracker for mouse positions;
- a demo game that sends guest input through a change filter;
- a tile painter.

This project models those rules and proves what they promise.

Layout, one module per source file (file names below are relative to the repository root):

- `wrappers.dfy`: `Option`, `Result` and the exceptions the model raises (`Raise`, `NullReference`).
- `guards.dfy`: the `Assert` helpers of the server (StateFlux/StateFlux/Assert.cs).
- `text.dfy`: `Truncate` and `String.IsNullOrWhiteSpace`.
- `short_guid.dfy`: `ShortGuid.Generate` as a function of the 16 GUID bytes.
  - Base64 follows section 4 of RFC 4648.
  - The result is remapped to the URL-safe alphabet of section 5 of RFC 4648 and cut to 22 characters.
  - A decoder proves the round trip.
- `color_sequence.dfy`: the seven-colour cycle of StateFlux/StateFlux.Model/Util/ColorSequence.cs.
- `message_types.dfy`: the server tag table (`ServerMessageTypes`) and the client tag table (`ClientMessageTypes`).
- `messages.dfy`: the message classes as one datatype, their tags, and the tag → class-name rule of `ExtractTypeFromMessage`.
- `model.dfy`: the shared data records (players, game-instance references, instances, changes, mice, guest input).
  - The server code reads `Player.Id`, `Player.SessionData` and `Player.GameInstanceRef`. These exist only in the client-side `Player.cs`, so that shape is the one used.
- `server_models.dfy`: the server's `Game`, `GameInstance` and `Player` classes, which `StartInstance` and `Join` update in place.
- `player_repository.dfy`: `PlayerRepository` as a class over a dictionary, specified by functions on the dictionary.
- `server.dfy`: the `Server` state and its constructor, including `LoadPlayerDatabase`.
- `service.dfy`: `AppWebSocketBehavior`. It covers:
  - session lookup with promotion from the store;
  - session creation;
  - scoped broadcast;
  - the instance search;
  - `OnClose`.
- `dispatch.dfy`: the error path of `OnMessage`.
- `authentication.dfy`, `chat.dfy`, `game_instances.dfy`: the lobby handlers.
- `relays.dfy`: the relay handlers, one module per handler file.
- `unity.dfy`: the vector and colour conversions of the client.
- `game_object_tracker.dfy`, `mice_tracker.dfy`, `demo_game.dfy`, `tile_painter.dfy`: the client trackers, the demo game's input and cursor logic, and the tile painter.

Floating-point values are an opaque `Float` (Dafny's `real`). They are only copied or compared for equality, never computed on.

The operations follow the code as written, also where it defeats the design around it. Where that is so, a corrected reference definition is proved beside the as-written one, and "## Findings" names both:

- **A player without an Id.** `GetPlayerById` passes the Id to `Dictionary.TryGetValue`, which throws on a null key. Every player a new session builds has no Id yet, so `InsertPlayer`, `CreatePlayerSession` and the new-session path of `Authenticate` all fail with that exception. `Authenticate` has already removed the same-named active player by then.
- **Broadcast with `meToo` false.** `if (!meToo) continue;` skips every player, not only the sender, so the host relays reach nobody.
- **Authenticate and a throwing lookup.** Authenticate catches an exception from the session lookup. But the catch's log line (`LogMessage`) looks the player up again and throws the same exception. So a lookup that throws is not swallowed: `Authenticate` fails with it.
- **The dead click reset in SendInputAsGuest.** `SendInputAsGuest` sets `clicked = false` after sending the click command. The input record then reads the mouse button again, so that assignment has no effect.
- **A fresh update record has no position.** `new Transform2d()` leaves `Pos` and `Vel` null, so `EnqueuePosChangeAsHost` on a tracker without an update record throws, and so does every later call until `OnTrackedObjectChange` fills the position in.
- **Destroyed objects are removed by payload id.** The tracker drain removes entries by the destroy record's `ObjectID`, not by the map key.

## Model

| member | source | states |
|---|---|---|
| Guards.ThrowError | StateFlux/StateFlux/Assert.cs:30-34 | the raised exception's message is exactly `msg`, with no inner exception |
| Guards.ThrowIfNull | StateFlux/StateFlux/Assert.cs:15-18 | throws iff the object is null, with message `msg`; otherwise passes the object on |
| Guards.ThrowIfNotNull | StateFlux/StateFlux/Assert.cs:20-23 | throws iff the object is non-null, with message `msg` |
| Guards.ThrowIfFalse | StateFlux/StateFlux/Assert.cs:25-28 | throws iff the flag is false, with message `msg` |
| Text.Truncate | StateFlux/StateFlux/Handlers/ChatMessageHandler.cs:22 | the result is a prefix of the input, of length min(n, length of the input) |
| Text.TruncateIdempotent | StateFlux/StateFlux/Handlers/ChatMessageHandler.cs:44 | cutting twice is cutting once, and the cut is a prefix |
| Text.VisibleCharacterIsNotBlank | StateFlux/StateFlux/Handlers/AuthenticationMessageHandler.cs:22 | a name is refused as blank unless it holds a visible character, and one visible character anywhere is enough |
| Model.NewPlayer | StateFlux/StateFlux/ServiceBehavior.cs:77-81 | a new session player has the given name and session data, no Id, no instance reference and no time stamp |
| Model.EmptyRef | StateFluxer/Assets/StateFlux/Model/GameInstance.cs:10-13 | the parameterless reference has a null Id |
| Model.RefOf | StateFluxer/Assets/StateFlux/Model/GameInstance.cs:15-20 | a reference built from an instance copies its Id, name and game name, so it refers to that instance |
| Model.NewGameInstance | StateFluxer/Assets/StateFlux/Model/GameInstance.cs:42-49 | a new instance waits for players, has no players and no host, has the given game and name, and its Id is a 22-character ShortGuid that decodes to the GUID bytes |
| Model.NewInstancesAreDistinguished | StateFluxer/Assets/StateFlux/Model/GameInstance.cs:48 | instances made from different GUIDs are never confused by a reference to one of them |
| ShortGuid.DigitValueOfDigit | StateFlux/StateFlux/ShortGuId.cs:11 | the Base64 digit table is inverted by the digit-value function |
| ShortGuid.EncodeThree | StateFlux/StateFlux/ShortGuId.cs:11 | a full 3-byte group encodes to 4 characters |
| ShortGuid.EncodeTwo | StateFlux/StateFlux/ShortGuId.cs:11 | a 2-byte tail encodes to 4 characters ending in one pad |
| ShortGuid.EncodeOne | StateFlux/StateFlux/ShortGuId.cs:11 | a 1-byte tail encodes to 4 characters ending in two pads |
| ShortGuid.Replace | StateFlux/StateFlux/ShortGuId.cs:12-13 | replacement keeps the length and changes exactly the occurrences of the replaced character |
| ShortGuid.Generate | StateFlux/StateFlux/ShortGuId.cs:9-15 | the id is 22 characters long |
| ShortGuid.Base64Length | StateFlux/StateFlux/ShortGuId.cs:11 | Base64 of n bytes has 4 * ceil(n / 3) characters |
| ShortGuid.Base64Alphabet | StateFlux/StateFlux/ShortGuId.cs:11 | Base64 output holds only alphabet characters and '=' |
| ShortGuid.Base64Split | StateFlux/StateFlux/ShortGuId.cs:11 | Base64 of a sequence is Base64 of its whole 3-byte groups followed by Base64 of the rest |
| ShortGuid.DigitIsNotPad | StateFlux/StateFlux/ShortGuId.cs:11 | no Base64 digit is the pad character |
| ShortGuid.ThreeArithmetic | StateFlux/StateFlux/ShortGuId.cs:11 | the four 6-bit digits of a 3-byte group reassemble to the three bytes |
| ShortGuid.ThreeRoundTrip | StateFlux/StateFlux/ShortGuId.cs:11 | decoding a full group gives back its 3 bytes |
| ShortGuid.TwoRoundTrip | StateFlux/StateFlux/ShortGuId.cs:11 | decoding a 2-byte tail gives back its 2 bytes |
| ShortGuid.OneRoundTrip | StateFlux/StateFlux/ShortGuId.cs:11 | decoding a 1-byte tail gives back its byte |
| ShortGuid.Base64RoundTrip | StateFlux/StateFlux/ShortGuId.cs:11 | Base64 decoding inverts Base64 encoding for every byte sequence |
| ShortGuid.SixteenBytesTail | StateFlux/StateFlux/ShortGuId.cs:11-14 | Base64 of 16 bytes is 24 characters and ends in "==" |
| ShortGuid.CutDropsOnlyPadding | StateFlux/StateFlux/ShortGuId.cs:11-14 | the cut to 22 characters removes exactly the "==" padding |
| ShortGuid.GenerateIsUrlSafe | StateFlux/StateFlux/ShortGuId.cs:11-14 | every character is in A–Z, a–z, 0–9, '-', '_'; '+', '/' and '=' never appear |
| ShortGuid.NoPadInFullGroups | StateFlux/StateFlux/ShortGuId.cs:11 | Base64 of whole 3-byte groups contains no pad |
| ShortGuid.LastCharacter | StateFlux/StateFlux/ShortGuId.cs:11-14 | the last character is 'A', 'Q', 'g' or 'w', its low 4 bits being zero fill |
| ShortGuid.DecodeGenerate | StateFlux/StateFlux/ShortGuId.cs:11-14 | undoing the remapping and re-appending "==" decodes back to the 16 bytes |
| ShortGuid.GenerateInjective | StateFlux/StateFlux/ShortGuId.cs:9-15 | distinct GUIDs give distinct ids |
| ColorSequence.Step | StateFlux/StateFlux.Model/Util/ColorSequence.cs:24 | the index advances by one modulo 7 and stays in [0, 6] |
| ColorSequence.Run | StateFlux/StateFlux.Model/Util/ColorSequence.cs:21-26 | n calls from an index return n colours |
| ColorSequence.ColorSequence.constructor | StateFlux/StateFlux.Model/Util/ColorSequence.cs:19 | the sequence starts at index 0 |
| ColorSequence.ColorSequence.Next | StateFlux/StateFlux.Model/Util/ColorSequence.cs:21-26 | returns the colour at the index before the call and advances the index modulo 7, keeping it in [0, 6] |
| ColorSequence.RunAt | StateFlux/StateFlux.Model/Util/ColorSequence.cs:21-26 | the k-th of consecutive calls from index i returns colour (i + k) mod 7 |
| ColorSequence.RotatedAt | StateFlux/StateFlux.Model/Util/ColorSequence.cs:9-18 | the rotation of the colour table by i holds colour (i + k) mod 7 at k |
| ColorSequence.RotationPermutes | StateFlux/StateFlux.Model/Util/ColorSequence.cs:9-18 | a rotation is a permutation |
| ColorSequence.RunIsRotation | StateFlux/StateFlux.Model/Util/ColorSequence.cs:21-26 | seven calls from index i return the table rotated by i |
| ColorSequence.SevenCallsArePermutation | StateFlux/StateFlux.Model/Util/ColorSequence.cs:9-26 | any seven consecutive calls return each colour exactly once |
| ColorSequence.FirstIsRed | StateFlux/StateFlux.Model/Util/ColorSequence.cs:11-19 | the first call returns red (1, 0, 0, 1) |
| ColorSequence.RunColorsArePrimary | StateFlux/StateFlux.Model/Util/ColorSequence.cs:11-17 | every returned colour has alpha 1 and channels in {0, 1} |
| ServerMessageTypes.ValuesAreFieldNames | StateFlux/StateFlux.Model/Messages/MessageType.cs:7-45 | every tag's value equals its field name |
| ServerMessageTypes.ValuesAreDistinct | StateFlux/StateFlux.Model/Messages/MessageType.cs:7-45 | the tag values are pairwise distinct |
| ServerMessageTypes.CookieName | StateFlux/StateFlux.Model/Messages/MessageType.cs:50 | the session cookie is "SFSession" |
| ServerMessageTypes.RequestsHaveReplies | StateFlux/StateFlux.Model/Messages/MessageType.cs:7-42 | Authenticate, ChatSay, PlayerList, GameInstanceList and StateChange each have a distinct reply tag, formed as written out |
| ClientMessageTypes.ValuesAreFieldNames | StateFluxer/Assets/StateFlux/Model/MessageType.cs:7-54 | every tag's value equals its field name |
| ClientMessageTypes.ValuesAreDistinct | StateFluxer/Assets/StateFlux/Model/MessageType.cs:7-54 | the tag values are pairwise distinct |
| ClientMessageTypes.CookieName | StateFluxer/Assets/StateFlux/Model/MessageType.cs:59 | the session cookie is "SFSession" |
| ClientMessageTypes.RelayRepliesAddD | StateFluxer/Assets/StateFlux/Model/MessageType.cs:37-51 | each relayed request X (host state, host and guest command, guest input, mice) has the response X + "d" |
| ClientMessageTypes.FullStateHasNoReply | StateFluxer/Assets/StateFlux/Model/MessageType.cs:45 | there is no "GuestRequestFullStated" tag: the server re-sends the request type |
| Messages.NewAuthenticatedMessage | StateFlux/StateFlux.Model/Messages/Message.cs:20-32 | a new AuthenticatedMessage has status Authenticated, the first enum member, and no other fields set |
| Messages.KindOfBaseName | StateFlux/StateFlux.Model/Messages/Message.cs:10-206 | every message class's base name maps back to that class |
| Messages.KindNamedClassName | StateFlux/StateFlux.Model/Messages/Message.cs:10-206 | every class name resolves back to its class |
| Messages.ClassNameInjective | StateFlux/StateFlux.Model/Messages/Message.cs:10-206 | no two message classes share a name |
| Messages.ClassNameIsTagMessage | StateFlux/StateFlux.Model/Messages/Message.cs:10-18 | a tagged class is named tag + "Message" |
| Messages.TypeGetTypeQualifiedName | StateFlux/StateFlux/ServiceBehavior.cs:256-257 | the assembly-qualified name of a message subclass resolves back to that subclass |
| Messages.ClassSuffixSplits | StateFlux/StateFlux/ServiceBehavior.cs:27-28 | the class suffix is "Message" followed by the assembly suffix |
| Messages.ExtractTypeFromTag | StateFlux/StateFlux/ServiceBehavior.cs:251-258 | a message carrying a class's tag is decoded as that class |
| Messages.NullTagNamesBaseClass | StateFlux/StateFlux/ServiceBehavior.cs:251-258 | a message without a tag resolves to the base class `Message`, never to a class a tag names |
| Messages.ServerTagsComeFromServerTable | StateFlux/StateFlux.Model/Messages/Message.cs:10-206 | each lobby message's tag is in the server tag table |
| Messages.RelayTagsComeFromClientTable | StateFlux/StateFlux.Model/Messages/Message.cs:10-206 | each relay message's tag is in the client tag table |
| Messages.TagsComeFromTables | StateFlux/StateFlux.Model/Messages/Message.cs:10-206 | every tag a message carries is in the server table or the client table |
| Unity.Vector3Convert3d | StateFluxer/Assets/StateFlux/Unity/Convert.cs:8-11 | keeps x and y and drops z |
| Unity.Vector3Convert2d | StateFluxer/Assets/StateFlux/Unity/Convert.cs:12-15 | keeps x and y and drops z |
| Unity.Vector2Convert2d | StateFluxer/Assets/StateFlux/Unity/Convert.cs:16-19 | keeps x and y |
| Unity.Vec2dConvert3d | StateFluxer/Assets/StateFlux/Unity/Convert.cs:20-23 | keeps X and Y, with z = 0 |
| Unity.Vec2dConvert2d | StateFluxer/Assets/StateFlux/Unity/Convert.cs:24-27 | keeps X and Y |
| Unity.ToUnityColor | StateFluxer/Assets/StateFlux/Unity/Convert.cs:28-31 | maps Red, Green, Blue, Alpha to r, g, b, a |
| Unity.FromUnityColor | StateFluxer/Assets/StateFlux/Unity/Convert.cs:32-35 | maps r, g, b, a to Red, Green, Blue, Alpha |
| Unity.Vector3ConversionsAgree | StateFluxer/Assets/StateFlux/Unity/Convert.cs:8-15 | the two Vector3 conversions are the same |
| Unity.Vec2dRoundTrips | StateFluxer/Assets/StateFlux/Unity/Convert.cs:8-27 | Vec2d → Vector3 → Vec2d and Vec2d → Vector2 → Vec2d are identities |
| Unity.Vector3RoundTrip | StateFluxer/Assets/StateFlux/Unity/Convert.cs:8-23 | Vector3 → Vec2d → Vector3 only zeroes z |
| Unity.ColorRoundTrips | StateFluxer/Assets/StateFlux/Unity/Convert.cs:28-35 | the two colour conversions are mutual inverses |
| ServerModels.Player.constructor | StateFlux/StateFlux.Model/Models/Player.cs:6-17 | a new player has the given name and session id and is in no instance |
| ServerModels.GameInstance.constructor | StateFlux/StateFlux.Model/Models/GameInstance.cs:20-25 | a new instance has no players, the given game and name, and no host |
| ServerModels.GameInstance.Join | StateFlux/StateFlux.Model/Models/GameInstance.cs:27-37 | throws, changing nothing, iff an occupant has the player's session id; otherwise appends the player and points the player at this instance; other instances are not consulted; the instance's name, game and host and the player's other fields stay |
| ServerModels.Game.constructor | StateFlux/StateFlux.Model/Models/Game.cs:15-18 | a new game has the given fields and no instances |
| ServerModels.Game.StartInstance | StateFlux/StateFlux.Model/Models/Game.cs:20-28 | appends one fresh instance of this game with the given name, hosted and occupied by exactly the host, who points at it; names and hosts are not checked; the game's other fields and the host's other fields stay |
| Repository.LoadDb | StateFlux/StateFlux.Model/Repository/PlayerRepository.cs:86-109 | a missing or unreadable database gives an empty store; otherwise the store is what the file holds |
| Repository.LookupAsWritten | StateFlux/StateFlux.Model/Repository/PlayerRepository.cs:21-29 | a null Id throws; otherwise the record stored under the Id, or null |
| Repository.Lookup | StateFlux/StateFlux.Model/Repository/PlayerRepository.cs:21-29 | the record stored under the Id, or null when there is none or the Id is null |
| Repository.WithoutName | StateFlux/StateFlux.Model/Repository/PlayerRepository.cs:117-121 | exactly the records with another name remain, unchanged |
| Repository.RemoveNamed | StateFlux/StateFlux.Model/Repository/PlayerRepository.cs:117-121 | the pass removes only entries and keeps every remaining record unchanged; it cannot throw when every record has an Id |
| Repository.RemoveNamedDropsEnumerated | StateFlux/StateFlux.Model/Repository/PlayerRepository.cs:117-121 | on a store keyed by Id, exactly the enumerated records with the name are removed, without error |
| Repository.RemoveNamedIsWithoutName | StateFlux/StateFlux.Model/Repository/PlayerRepository.cs:117-121 | on a store keyed by Id, enumerating every key removes exactly the records with the name |
| Repository.MisfiledRecordSurvives | StateFlux/StateFlux.Model/Repository/PlayerRepository.cs:119-120 | a record filed under a key other than its Id survives the pass though it has the name, and the entry under its Id is removed instead |
| Repository.Stamped | StateFlux/StateFlux.Model/Repository/PlayerRepository.cs:49-51 | the record gets the new Id and time stamp and keeps its other fields |
| Repository.InsertAsWritten | StateFlux/StateFlux.Model/Repository/PlayerRepository.cs:39-56 | a player without an Id throws and changes nothing; a stored Id is refused as a duplicate and changes nothing; otherwise the fresh-Id insert |
| Repository.Insert | StateFlux/StateFlux.Model/Repository/PlayerRepository.cs:39-56 | a stored Id is refused with "failed to insert player, GUID already in DB" and nothing changes; otherwise the fresh-Id insert |
| Repository.UpdateAsWritten | StateFlux/StateFlux.Model/Repository/PlayerRepository.cs:57-79 | a player without an Id throws and changes nothing |
| Repository.AsWrittenAgreesWithId | StateFlux/StateFlux.Model/Repository/PlayerRepository.cs:21-79 | for a player with an Id, the as-written insert and update equal the corrected ones |
| Repository.PlayerRepository.constructor | StateFlux/StateFlux.Model/Repository/PlayerRepository.cs:17-19 | a new repository has not loaded its store yet, whatever the database file holds |
| Repository.PlayerRepository.LazyLoadPlayerDb | StateFlux/StateFlux.Model/Repository/PlayerRepository.cs:81-84 | the store is loaded at most once: an already loaded store is kept |
| Repository.PlayerRepository.GetPlayerById | StateFlux/StateFlux.Model/Repository/PlayerRepository.cs:21-29 | a null Id throws; otherwise the record stored under the Id, or null; the store is loaded and unchanged |
| Repository.PlayerRepository.GetAllPlayers | StateFlux/StateFlux.Model/Repository/PlayerRepository.cs:31-38 | returns the stored records, each as many times as it is stored |
| Repository.CopiesAdd | StateFlux/StateFlux.Model/Repository/PlayerRepository.cs:36 | one more entry adds one copy of the record stored under it |
| Repository.PlayerRepository.RemoveAllPlayersWithName | StateFlux/StateFlux.Model/Repository/PlayerRepository.cs:117-121 | the loop over the enumeration removes the entries `RemoveNamed` removes and fails as it does |
| Repository.PlayerRepository.InsertPlayer | StateFlux/StateFlux.Model/Repository/PlayerRepository.cs:39-56 | store and outcome are those of `InsertAsWritten` on the store before the call |
| Repository.PlayerRepository.UpdatePlayer | StateFlux/StateFlux.Model/Repository/PlayerRepository.cs:57-79 | store and outcome are those of `UpdateAsWritten` on the store before the call |
| Repository.FreshPlayerInsertThrows | StateFlux/StateFlux.Model/Repository/PlayerRepository.cs:44-48 | as written, inserting a new session player (Id null) throws and stores nothing |
| Repository.FreshPlayerInsertSucceeds | StateFlux/StateFlux.Model/Repository/PlayerRepository.cs:44-52 | with a null Id read as "not stored", a new session player is inserted under its fresh Id whenever that Id is unused and every record has an Id |
| Repository.InsertLeavesOneWithName | StateFlux/StateFlux.Model/Repository/PlayerRepository.cs:49-52 | on a store keyed by Id, after an insert the new record is stored under its new Id and is the only record with its name |
| Repository.InsertKeepsOthers | StateFlux/StateFlux.Model/Repository/PlayerRepository.cs:45-52 | on a store keyed by Id, records with other names are untouched, and a refused insert changes nothing |
| Repository.OperationsKeepKeyedById | StateFlux/StateFlux.Model/Repository/PlayerRepository.cs:49-77 | insert and update keep every record stored under its own Id |
| Repository.ReinsertFails | StateFlux/StateFlux.Model/Repository/PlayerRepository.cs:45-48 | inserting the returned record a second time is refused as a duplicate, as written and corrected alike |
| Repository.UpdateKnownCopiesFields | StateFlux/StateFlux.Model/Repository/PlayerRepository.cs:68-77 | as written, a known Id has only Name, Bval, Fval, Sval, SessionData and the time stamp copied onto its record, under the same key |
| Repository.UpdateUnknownInserts | StateFlux/StateFlux.Model/Repository/PlayerRepository.cs:62-67 | as written, an unknown Id takes the insert path, time-stamped first |
| ServerState.AssetCollapse | StateFlux/StateFlux/Server.cs:24-29 | the seeded game is "AssetCollapse", "Asset Collapse Game", MinPlayers 2, with no instances |
| ServerState.LoadPlayerDatabase | StateFlux/StateFlux/Server.cs:33-58 | a missing or unreadable file gives an empty map; otherwise the same keys, each record's SessionId set to its key |
| ServerState.Server.constructor | StateFlux/StateFlux/Server.cs:17-31 | players and chat start empty, the catalog holds exactly the seeded game, and the player map is the file's, each record's SessionId set to its key, or empty without a file |
| Service.FindInInstances | StateFlux/StateFlux/ServiceBehavior.cs:133-139 | returns an instance the player occupies, or null iff none of them has the player |
| Service.AllInstances | StateFlux/StateFlux/ServiceBehavior.cs:131-133 | holds exactly the instances of the games |
| Service.FindInConcat | StateFlux/StateFlux/ServiceBehavior.cs:131-141 | searching two lists in a row finds the first list's match first |
| Service.FindPlayerGameInstanceIsFirstMatch | StateFlux/StateFlux/ServiceBehavior.cs:129-142 | the nested search returns the first occupied instance, scanning games then instances in order |
| Service.FoundInstanceIsOccupied | StateFlux/StateFlux/ServiceBehavior.cs:129-142 | a found instance belongs to a game and holds the player; null means no instance holds the player |
| Service.FindActiveFrom | StateFlux/StateFlux/ServiceBehavior.cs:56 | the first active player whose session id is the cookie; throws at the first player without session data met before a match |
| Service.FirstStored | StateFlux/StateFlux/ServiceBehavior.cs:62 | the first stored record carrying the cookie, or null iff none does |
| Service.FindActiveAppended | StateFlux/StateFlux/ServiceBehavior.cs:56-68 | a player appended with the cookie after an unsuccessful search is found at the end |
| Service.LookupIdempotent | StateFlux/StateFlux/ServiceBehavior.cs:53-73 | a second lookup after a successful one finds the same player and changes nothing |
| Service.LookupFoundStable | StateFlux/StateFlux/ServiceBehavior.cs:56-57 | when an active player carries the cookie, the lookup returns that player and changes nothing |
| Service.FindActiveReplaced | StateFlux/StateFlux/ServiceBehavior.cs:56 | replacing a player by one with the same session data does not change the search |
| Service.DeliveriesAsWritten | StateFlux/StateFlux/ServiceBehavior.cs:109-121 | as written, meToo false delivers to nobody; meToo true delivers as intended |
| Service.DeliveriesAreScoped | StateFlux/StateFlux/ServiceBehavior.cs:112-119 | every session the corrected loop sends to is live and belongs to an in-scope player other than the skipped one |
| Service.DeliveriesComplete | StateFlux/StateFlux/ServiceBehavior.cs:109-121 | with no null dereference on the way, every in-scope player's live session is sent to, in list order |
| Service.DeliveriesStopAtUnseated | StateFlux/StateFlux/ServiceBehavior.cs:104-126 | under a non-null reference, a player in no instance ends delivery for every later player |
| Service.SenderIsSkipped | StateFlux/StateFlux/ServiceBehavior.cs:109-121 | the corrected loop never sends back to the sender's own session |
| Service.HostBroadcastIsLost | StateFlux/StateFlux/ServiceBehavior.cs:111 | as written, a host's meToo-false broadcast reaches no other player, though the corrected loop reaches each in-scope one |
| Service.RecipientsInclude | StateFlux/StateFlux/ServiceBehavior.cs:109-121 | each player's own recipient is among all recipients |
| Service.MeTooAgrees | StateFlux/StateFlux/ServiceBehavior.cs:111 | with meToo true the loop as written and the corrected loop agree |
| Service.InvocationFailure | StateFlux/StateFlux/ServiceBehavior.cs:202 | a handler's exception arrives wrapped as the inner exception |
| Service.Replies | StateFlux/StateFlux/ServiceBehavior.cs:202-222 | a failure gives exactly one ServerErrorMessage; a reply is sent alone; no reply sends nothing |
| Service.HandlerErrorReachesCaller | StateFlux/StateFlux/ServiceBehavior.cs:213-222 | the error report carries the inner exception's message when there is one, else the exception's own |
| Service.SessionPlayer | StateFlux/StateFlux/Handlers/ChatMessageHandler.cs:20-21 | a lookup that throws propagates; no player throws "requires a user session"; otherwise the player |
| Service.Addressed | StateFlux/StateFlux/ServiceBehavior.cs:115-118 | the message goes to each session id, in order |
| Service.SessionedLookupSucceeds | StateFlux/StateFlux/ServiceBehavior.cs:56 | when every active player has session data the search never throws |
| Service.LookupKeepsSessioned | StateFlux/StateFlux/ServiceBehavior.cs:53-73 | the lookup keeps every active player with session data and then succeeds |
| Service.Others | StateFlux/StateFlux/ServiceBehavior.cs:184 | exactly the active players whose session id differs from the closing player's; a player without session data throws |
| Service.RemoveFirst | StateFlux/StateFlux/ServiceBehavior.cs:188 | removes the first occurrence of the player, if any |
| Service.DeliverAt | StateFlux/StateFlux/ServiceBehavior.cs:111-120 | one player's step of the loop: the sessions it adds, or the end of delivery |
| Service.DeliverNext | StateFlux/StateFlux/ServiceBehavior.cs:109-121 | one step keeps the loop invariant or ends with all deliveries |
| Service.Deliver | StateFlux/StateFlux/ServiceBehavior.cs:109-121 | the loop sends exactly the deliveries of the active list |
| Service.AppWebSocketBehavior.constructor | StateFlux/StateFlux/ServiceBehavior.cs:31-34 | a connection has its server, id and cookie |
| Service.AppWebSocketBehavior.GetCurrentSessionPlayer | StateFlux/StateFlux/ServiceBehavior.cs:53-73 | an active match is returned with nothing changed; otherwise a stored record with the cookie has its instance reference cleared and is appended and returned; otherwise null |
| Service.AppWebSocketBehavior.CreatePlayerSession | StateFlux/StateFlux/ServiceBehavior.cs:75-85 | the insert is the as-written one, so the session is never created: the call fails with the null-key exception and neither the store nor the active list changes |
| Service.AppWebSocketBehavior.Broadcast | StateFlux/StateFlux/ServiceBehavior.cs:102-127 | after the lookup, the message goes to exactly the as-written deliveries: with meToo false to nobody, with meToo true to every in-scope live session |
| Service.AppWebSocketBehavior.OnClose | StateFlux/StateFlux/ServiceBehavior.cs:175-190 | nothing without a session player; otherwise everyone is sent the listing of players with a different session id, and the player leaves the active list but stays in its instance |
| Service.AppWebSocketBehavior.CloseFound | StateFlux/StateFlux/ServiceBehavior.cs:181-188 | the listing, its broadcast to everyone and the removal of the first occurrence of the closing player |
| Service.CreatedSessionIsSessioned | StateFlux/StateFlux/ServiceBehavior.cs:77-83 | appending a created session keeps every active player with session data |
| Dispatch.Sends | StateFlux/StateFlux/ServiceBehavior.cs:192-223 | at most one message: the reply if any; an error report exactly when the catch's log line does not throw |
| Dispatch.SessionedSendsReplies | StateFlux/StateFlux/ServiceBehavior.cs:213-222 | while every active player has session data, every failure gives exactly one ServerErrorMessage to the caller |
| Authentication.NamedAt | StateFlux/StateFlux/Handlers/AuthenticationMessageHandler.cs:41 | the index of the first active player with the name, or the end |
| Authentication.RemoveFirstNamed | StateFlux/StateFlux/Handlers/AuthenticationMessageHandler.cs:41-46 | removes one player, the first with the name, when there is one |
| Authentication.RemoveFirstNamedKeepsOthers | StateFlux/StateFlux/Handlers/AuthenticationMessageHandler.cs:41-46 | players with other names all remain |
| Authentication.Reply | StateFlux/StateFlux/Handlers/AuthenticationMessageHandler.cs:50-52 | the response carries the player's Id, name and session id with status Authenticated; a player without Id or session data throws |
| Authentication.BadUserReply | StateFlux/StateFlux/Handlers/AuthenticationMessageHandler.cs:21-26 | a blank name is answered BadUser with no player fields |
| Authentication.NewSessionReply | StateFlux/StateFlux/Handlers/AuthenticationMessageHandler.cs:47-52 | a new session answers with its fresh Id, its session token and the name cut to 50 characters |
| Authentication.AuthenticationHandler.constructor | StateFlux/StateFlux/Handlers/AuthenticationMessageHandler.cs:15-17 | the handler is bound to its connection |
| Authentication.AuthenticationHandler.Authenticate | StateFlux/StateFlux/Handlers/AuthenticationMessageHandler.cs:19-55 | blank name: BadUser, nothing created or removed; resolved player: reused; else the first player with the uncut name is removed and the session creation fails with the null-key exception; a throwing lookup propagates |
| Chat.ChatMessageHandler.constructor | StateFlux/StateFlux/Handlers/ChatMessageHandler.cs:14-16 | the handler is bound to its connection |
| Chat.ChatMessageHandler.ChatSay | StateFlux/StateFlux/Handlers/ChatMessageHandler.cs:18-29 | appends exactly one line with the speaker's name and the text cut to 255, and broadcasts that same pair to the speaker's instance, speaker included |
| Chat.ChatMessageHandler.PlayerList | StateFlux/StateFlux/Handlers/ChatMessageHandler.cs:31-38 | broadcasts the whole active list to everyone |
| Chat.ChatMessageHandler.PlayerRename | StateFlux/StateFlux/Handlers/ChatMessageHandler.cs:40-49 | renames the active record to the name cut to 50, writes it through the as-written `UpdatePlayer`, then broadcasts the new list to everyone |
| Chat.ChatLineBounded | StateFlux/StateFlux/Handlers/ChatMessageHandler.cs:13-22 | a chat line is a prefix of what was said and at most 255 characters |
| GameInstances.FindGame | StateFlux/StateFlux/Handlers/GameInstanceMessageHandler.cs:20 | a game with that name, or null iff there is none |
| GameInstances.FindInstance | StateFlux/StateFlux/Handlers/GameInstanceMessageHandler.cs:75 | an instance with that name, or null iff there is none |
| GameInstances.HostsAny | StateFlux/StateFlux/Handlers/GameInstanceMessageHandler.cs:28 | false iff every instance has a host with another Id; an instance without a host throws |
| GameInstances.CreateGameInstance | StateFlux/StateFlux/Handlers/GameInstanceMessageHandler.cs:15-50 | checks game, host and name in that order; otherwise the instance is hosted and announced to its scope |
| GameInstances.CreateAcceptsOnlyFresh | StateFlux/StateFlux/Handlers/GameInstanceMessageHandler.cs:17-40 | a creation happens only for a session player, in an existing game the player hosts no instance of, under an unused name |
| GameInstances.CreateReportsFirstFailedCheck | StateFlux/StateFlux/Handlers/GameInstanceMessageHandler.cs:20-33 | a missing game is reported first, then hosting another instance |
| GameInstances.CreatedAnnouncementIsScoped | StateFlux/StateFlux/Handlers/GameInstanceMessageHandler.cs:45-49 | the announcement is scoped to exactly the hosted instance, sender included |
| GameInstances.GameInstanceList | StateFlux/StateFlux/Handlers/GameInstanceMessageHandler.cs:52-65 | a session player gets a listing of exactly the instances of all games |
| GameInstances.ListingKeepsOrder | StateFlux/StateFlux/Handlers/GameInstanceMessageHandler.cs:57-58 | the listing is the concatenation of every game's instances in catalog order |
| GameInstances.JoinGameInstance | StateFlux/StateFlux/Handlers/GameInstanceMessageHandler.cs:67-88 | a missing game or instance throws; otherwise join, tell everyone, and start the instance iff it waits for players and holds at least MinPlayers |
| GameInstances.JoinNeedsExistingInstance | StateFlux/StateFlux/Handlers/GameInstanceMessageHandler.cs:72-77 | a join names an existing instance of an existing game |
| GameInstances.LeaveGameInstance | StateFlux/StateFlux/Handlers/GameInstanceMessageHandler.cs:90-107 | a missing game throws; a missing instance throws "game instance G:I not found"; otherwise leave and tell everyone who left which instance |
| GameInstances.JoinAndLeaveRefuseAlike | StateFlux/StateFlux/Handlers/GameInstanceMessageHandler.cs:72-99 | join and leave refuse exactly the same requests |
| StateChanges.HostStateChange | StateFlux/StateFlux/Handlers/StateChangeMessageHandler.cs:13-27 | the batch is broadcast unchanged to the sender's instance with meToo false; no reply |
| StateChanges.GuestStateChange | StateFlux/StateFlux/Handlers/StateChangeMessageHandler.cs:29-44 | the batch, stamped with the sender's Id, is sent to the instance host's Id; a sender in no instance throws |
| GameCommands.HostCommandChange | StateFlux/StateFlux/Handlers/GameCommandChangeHander.cs:12-25 | the command is broadcast unchanged to the sender's instance with meToo false |
| GameCommands.GuestCommandChange | StateFlux/StateFlux/Handlers/GameCommandChangeHander.cs:27-42 | the command, stamped with the sender's Id, is sent to the instance host's Id; a sender in no instance throws |
| MiceChanges.MiceChange | StateFlux/StateFlux/Handlers/MiceChangeHandler.cs:12-30 | nothing for a sender in no instance; otherwise the mice unchanged to the sender's instance with meToo false |
| FullState.GuestRequestFullState | StateFlux/StateFlux/Handlers/RequestFullStateMessageHandler.cs:12-21 | refused for the host with "only guests should ask for full state", null dereference in no instance; otherwise a fresh request addressed to the instance's Id |
| Relaying.HostStateRelayTag | StateFlux/StateFlux/Handlers/StateChangeMessageHandler.cs:19-24 | what a host's state change sends carries the HostStateChanged tag |
| Relaying.HostCommandRelayTag | StateFlux/StateFlux/Handlers/GameCommandChangeHander.cs:17-22 | what a host's command sends carries the HostCommandChanged tag |
| Relaying.GuestCommandRelayTag | StateFlux/StateFlux/Handlers/GameCommandChangeHander.cs:34-39 | what a guest's command sends carries the GuestCommandChanged tag |
| Relaying.MiceRelayTag | StateFlux/StateFlux/Handlers/MiceChangeHandler.cs:21-26 | what a mice change sends carries the MiceChanged tag |
| Relaying.FullStateRelayTag | StateFlux/StateFlux/Handlers/RequestFullStateMessageHandler.cs:19 | a full-state request is forwarded under its own tag |
| Relaying.HostsBroadcastGuestsAddress | StateFlux/StateFlux/Handlers/StateChangeMessageHandler.cs:24-41 | host traffic is only broadcast with meToo false, which as written reaches nobody; guest traffic is only sent addressed to the host |
| ObjectTracking.NewTransform | StateFluxer/Assets/Game/GameObjectTracker.cs:241-246 | a fresh transform has no position and no velocity, and zero rotation, spin and scale |
| ObjectTracking.NewUpdate | StateFluxer/Assets/Game/GameObjectTracker.cs:241-246 | a fresh update record names the object and carries a fresh transform, so it has no position yet |
| ObjectTracking.Emit | StateFluxer/Assets/Game/GameObjectTracker.cs:54-71 | a dirty tracker sends its create, else its destroy, else its update |
| ObjectTracking.Visit | StateFluxer/Assets/Game/GameObjectTracker.cs:52-71 | a visit clears dirty and the sent create or destroy, keeping the update |
| ObjectTracking.RetiredIds | StateFluxer/Assets/Game/GameObjectTracker.cs:64-77 | exactly the object ids of the destroys that go out |
| ObjectTracking.Emitted | StateFluxer/Assets/Game/GameObjectTracker.cs:48-72 | one record per dirty tracker; empty iff none is dirty |
| ObjectTracking.Drained | StateFluxer/Assets/Game/GameObjectTracker.cs:50-77 | retired ids leave the map; every remaining tracker is clean, visited if it was dirty, unchanged otherwise |
| ObjectTracking.SecondDrainSendsNothing | StateFluxer/Assets/Game/GameObjectTracker.cs:50-79 | a drain right after a drain sends nothing |
| ObjectTracking.CreateThenDestroyDoesNotCoalesce | StateFluxer/Assets/Game/GameObjectTracker.cs:54-66 | with both pending, only the create goes out; the destroy stays pending, not dirty |
| ObjectTracking.RetiredAmongMembers | StateFluxer/Assets/Game/GameObjectTracker.cs:49-64 | the removal list holds exactly the destroyed ids of the visited trackers |
| ObjectTracking.VisitIfDirty | StateFluxer/Assets/Game/GameObjectTracker.cs:50-52 | after the pass no tracker is dirty |
| ObjectTracking.EmittedSnoc | StateFluxer/Assets/Game/GameObjectTracker.cs:50-72 | visiting one more tracker appends its record |
| ObjectTracking.RetiredSnoc | StateFluxer/Assets/Game/GameObjectTracker.cs:60-66 | visiting one more tracker appends its retired id |
| ObjectTracking.VisitNext | StateFluxer/Assets/Game/GameObjectTracker.cs:50-72 | one visit keeps the loop invariant |
| ObjectTracking.VisitDirty | StateFluxer/Assets/Game/GameObjectTracker.cs:48-72 | the first loop yields the emitted batch, the visited map and exactly the retired ids |
| ObjectTracking.RemoveKeys | StateFluxer/Assets/Game/GameObjectTracker.cs:74-77 | the second loop removes exactly the listed ids |
| ObjectTracking.GameObjectTracker.constructor | StateFluxer/Assets/Game/GameObjectTracker.cs:16-21 | the tracking map starts empty |
| ObjectTracking.GameObjectTracker.Count | StateFluxer/Assets/Game/GameObjectTracker.cs:102-105 | the number of tracked ids |
| ObjectTracking.GameObjectTracker.Drain | StateFluxer/Assets/Game/GameObjectTracker.cs:48-90 | the batch is the emitted records in visit order, the map is drained, and one HostStateChangeMessage goes out iff the batch is non-empty |
| ObjectTracking.GameObjectTracker.TrackCreate | StateFluxer/Assets/Game/GameObjectTracker.cs:96-100 | inserts under the create's id without setting dirty; an existing id or a missing create throws, changing nothing |
| ObjectTracking.GameObjectTracker.OnTrackedObjectChange | StateFluxer/Assets/Game/GameObjectTracker.cs:232-254 | as host on a tracked id, overwrites position, velocity, rotation and spin in the update record (created if absent) and sets dirty; otherwise nothing changes |
| ObjectTracking.GameObjectTracker.OnTrackedObjectDestroy | StateFluxer/Assets/Game/GameObjectTracker.cs:256-284 | as host records a destroy and sets dirty; as guest removes the entry; untracked ids change nothing |
| ObjectTracking.GameObjectTracker.EnqueuePosChangeAsHost | StateFluxer/Assets/Game/GameObjectTracker.cs:286-311 | an untracked id changes nothing; a tracker without an update, or whose update has no transform or no position, throws and changes nothing; an equal position changes nothing; a different one is written, the record marked Updated and the tracker dirty |
| ObjectTracking.GameObjectTracker.OnHostStateChanged | StateFluxer/Assets/Game/GameObjectTracker.cs:152-230 | a host ignores the batch; a guest's map becomes that of receiving the batch in order |
| ObjectTracking.Spawn | StateFluxer/Assets/Game/GameObjectTracker.cs:108-148 | a type without a prefab throws the Instantiate argument error; a missing attribute, transform or position throws; otherwise the object is made under the change's id |
| ObjectTracking.ReceiveAll | StateFluxer/Assets/Game/GameObjectTracker.cs:158-205 | existing trackers are kept, only new ids are added, and every non-destroy change of a successful batch ends up tracked |
| ObjectTracking.ReceiveAllStep | StateFluxer/Assets/Game/GameObjectTracker.cs:158-205 | one change at a time: a known create and an unknown destroy are skipped; an unknown update adds a tracker |
| ObjectTracking.Receive | StateFluxer/Assets/Game/GameObjectTracker.cs:158-205 | the loop over the batch computes `ReceiveAll` |
| ObjectTracking.ImplicitCreate | StateFluxer/Assets/Game/GameObjectTracker.cs:185-200 | an update for an unknown id with a prefab, attributes and a position inserts a new tracker holding that update and its new object |
| ObjectTracking.UnknownPrefabEndsBatch | StateFluxer/Assets/Game/GameObjectTracker.cs:108-117 | a create or update for an unknown id whose type has no prefab fails the batch, and the changes after it are not applied |
| ObjectTracking.SkippedChanges | StateFluxer/Assets/Game/GameObjectTracker.cs:160-182 | a create for a known id and a destroy change nothing |
| MiceTracking.DirtyMice | StateFluxer/Assets/Game/MiceTracker.cs:73-82 | the dirty mice in enumeration order; empty iff none is dirty |
| MiceTracking.Cleaned | StateFluxer/Assets/Game/MiceTracker.cs:76 | same keys and mice, no dirty flag set |
| MiceTracking.Tracked | StateFluxer/Assets/Game/MiceTracker.cs:45-68 | the tracked player's cursor is at the position and dirty iff it is new, moved or already dirty; every other tracker is kept |
| MiceTracking.DirtyMiceComplete | StateFluxer/Assets/Game/MiceTracker.cs:73-80 | every dirty mouse is collected |
| MiceTracking.DirtyMiceSound | StateFluxer/Assets/Game/MiceTracker.cs:73-80 | only dirty mice are collected |
| MiceTracking.SecondBuildIsEmpty | StateFluxer/Assets/Game/MiceTracker.cs:73-82 | a second build with no Track in between collects nothing |
| MiceTracking.DirtyMiceSnoc | StateFluxer/Assets/Game/MiceTracker.cs:73-80 | one more tracker appends its mouse when dirty |
| MiceTracking.CollectNext | StateFluxer/Assets/Game/MiceTracker.cs:73-80 | one step keeps the loop invariant |
| MiceTracking.CollectDirty | StateFluxer/Assets/Game/MiceTracker.cs:70-84 | the loop cleans every flag and returns the dirty mice, or null when there are none |
| MiceTracking.MiceTracker.constructor | StateFluxer/Assets/Game/MiceTracker.cs:19-23 | no mouse is tracked |
| MiceTracking.MiceTracker.Find | StateFluxer/Assets/Game/MiceTracker.cs:35-43 | the tracked mouse for the id, or null iff untracked |
| MiceTracking.MiceTracker.Track | StateFluxer/Assets/Game/MiceTracker.cs:45-68 | the trackers become `Tracked`: a new id is inserted dirty; an equal position changes nothing; a different one is replaced and set dirty |
| MiceTracking.MiceTracker.BuildMice | StateFluxer/Assets/Game/MiceTracker.cs:70-84 | null iff no tracker was dirty; otherwise exactly the dirty mice; every flag is cleared |
| Demo.NoInput | StateFluxer/Assets/Game/DemoGame.cs:74 | the first remembered input has no mouse position and nothing pressed |
| Demo.ClickAloneSendsNothing | StateFluxer/Assets/Game/DemoGame.cs:301-316 | a difference only in mClicked never passes the filter |
| Demo.FirstInputSent | StateFluxer/Assets/Game/DemoGame.cs:308 | the first input always passes the filter |
| Demo.ClickCommand | StateFluxer/Assets/Game/DemoGame.cs:283-292 | the click command is "groovy" on "testy" with {"bin": "baz"} |
| Demo.JakeChange | StateFluxer/Assets/Game/DemoGame.cs:205-223 | a created "jake" under "jake" + a ShortGuid, at the mouse point, at rest, with the given spin and colour |
| Demo.JakeTracker | StateFluxer/Assets/Game/DemoGame.cs:224-225 | a clean tracker holding only the create |
| Demo.JakeIdsDiffer | StateFluxer/Assets/Game/DemoGame.cs:210 | jakes made from different GUIDs have different ids |
| Demo.MovedMice | StateFluxer/Assets/Game/DemoGame.cs:608-619 | each cursor ends at the last position sent for its side |
| Demo.DemoGame.constructor | StateFluxer/Assets/Game/DemoGame.cs:69-75 | fresh empty trackers and no remembered input |
| Demo.DemoGame.SendInputAsGuest | StateFluxer/Assets/Game/DemoGame.cs:278-326 | a click sends the test command; the input is sent and remembered iff it passes the filter |
| Demo.DemoGame.SetPlayerMouseDetails | StateFluxer/Assets/Game/DemoGame.cs:608-619 | the own id moves the own cursor, any other id the other |
| Demo.DemoGame.MoveMice | StateFluxer/Assets/Game/DemoGame.cs:171-174 | moving every mouse in order leaves the cursors where `MovedMice` says |
| Demo.DemoGame.UpdateMiceAsHost | StateFluxer/Assets/Game/DemoGame.cs:149-175 | the own mouse is tracked at the cursor and every flag cleared; a MiceChangeMessage goes out iff some tracker is dirty after that, carrying exactly the dirty mice in enumeration order, whose cursors then move |
| Demo.DemoGame.OnGuestInputChanged | StateFluxer/Assets/Game/DemoGame.cs:404-416 | the trackers become `Tracked` under the guest id at the input position; a click also track-creates one new jake in the other player's colour |
| Tiles.IndexAt | StateFluxer/Assets/TilePainter.cs:15-23 | the first tile equal, by position only, to the given one |
| Tiles.RemoveAt | StateFluxer/Assets/TilePainter.cs:70 | removes the tile at the position, if any; the list is unchanged otherwise |
| Tiles.RemoveAtClears | StateFluxer/Assets/TilePainter.cs:70 | after removal no tile is at the position, others remain, and positions stay unique |
| Tiles.SetTileLeavesOneAt | StateFluxer/Assets/TilePainter.cs:61-62 | remove-then-append keeps positions unique with exactly one tile at the position, last |
| Tiles.TilePainter.constructor | StateFluxer/Assets/TilePainter.cs:31-36 | the tile list starts empty |
| Tiles.TilePainter.SetTile | StateFluxer/Assets/TilePainter.cs:58-67 | the tile at the position is replaced by one in MyColor, appended last; the colour argument only tints the shared tile |
| Tiles.TilePainter.RemoveTile | StateFluxer/Assets/TilePainter.cs:68-73 | the tile at the position is removed, others kept |
| Tiles.TilePainter.FixedUpdate | StateFluxer/Assets/TilePainter.cs:37-56 | the left button appends a tile in MyColor at an unpainted position and tints the shared tile; then the right button removes the tile at a painted one; the list is exactly that result |

## Left out

- Messages.TypeGetType: the base class `Message` resolves, but the handler map built by reflection is not modelled. So the `KeyNotFoundException` its lookup throws for that class (ServiceBehavior.cs:198) is not stated, and such a message reaches the catch like any other failure.
- Sockets, JSON and reflection. The WebSocket transport, JSON encoding and decoding, and the reflective handler map (`BuildHandlerMap`, `FindAssignableFrom`) are not modelled. A message is already a value of the `Message` datatype, and each handler is called directly.
- The session manager. Live socket sessions are a given set of session ids. `TryGetSession` is membership in that set, and a send is a returned `Sent` value.
- `Send(message, id)` and the server's `HostGameInstance`, `JoinGameInstance`, `LeaveGameInstance` and `StartGameInstance`. Their bodies are not part of the source, so a handler returns them as requested effects.
- `OnOpen`, `OnError`, `Respond`'s check that the socket is open, and the `SaveDb`/`SavePlayerDatabase` writes. They are I/O.
- Randomness and time. GUIDs are given 16-byte sequences, "now" is a parameter, and Unity's `Random.value` spin is a parameter.
- Dictionary order. The enumeration order of a .NET dictionary is unspecified, so it is a parameter (`order`). The lookup promoting a stored record may pick any record that carries the cookie.
- Reference identity and aliasing. Players are values. So the promoted record and the active-list entry are one value, not one shared object. A rename changes the active-list entry, and the store sees it only through `UpdatePlayer`. The instance search's `Contains` (ServiceBehavior.cs:135) compares references, but `Model.Occupies` compares Ids. So a player without an Id counts as occupying every instance that holds some other player without an Id.
- Repository: the database file is taken to be one `SaveDb` wrote, with no null records. A null record is not modelled. `LoadPlayerDatabase` (Server.cs:36-50) would catch the resulting null dereference and keep the map partly rewritten: records visited before the null one carry their key as session id, the rest are as loaded. The repository's removal pass would throw.
- Repository.RemoveNamed: removing entries while enumerating `Values.Where` is taken to be allowed, as on .NET Core 3.0 and later. Older runtimes throw at the next step of the enumeration.
- Repository.PlayerRepository.InsertPlayer: the source also writes the fresh Id into the caller's `player` object. Players are values here, so the caller's copy keeps no Id.
- ObjectTracking.Spawn: a missing velocity is accepted. The source reads it only when the prefab has a `Rigidbody2D`, which is not modelled.
- Service.AppWebSocketBehavior.Broadcast: the loop's own null dereferences are caught and swallowed, as in the source. But a session lookup that throws is rethrown by the catch's log line, and the model only says nothing is sent, without returning that exception. This cannot happen while every active player has session data (`Service.LookupKeepsSessioned`).
- Log lines. `LogMessage` looks the sender up again before logging. That extra lookup is modelled where it decides an outcome: `Authenticate`, the `OnMessage` catch and `Broadcast`.
  - The success-path log lines of the lobby handlers (Assert's `ThrowError`, the create/join/leave logs) are not modelled. After the handler's own successful lookup they find the same player and change nothing (`Service.LookupIdempotent`).
- Demo.DemoGame.OnGuestInputChanged: requires the input to carry a mouse position. The source accepts an input without one on a guest's first unclicked input and stores a null cursor position (MiceTracker.cs:47-57). Only a later `Track` for that guest, or a click, throws. Cursor positions are never null in this model.
- Demo.DemoGame.OnGuestInputChanged: the jake's game object is the handle `GameObject(id)`. Prefab loading and rendering (`StateCreateGameObject`) are not modelled, and neither is the mouse tracker's game-object field.
- The host's click part of `UpdateAsHost` (DemoGame.cs:177-197), the rest of DemoGame, and the other Unity scripts are not part of this model.
- Floating point. Positions, axes and colours are opaque values that are only copied and compared. The tile painter's `RoundToInt` of the mouse position is left out: its input is already a grid position.
- The Unity-side `ColorSequence` picks its index with `UnityEngine.Random` and is not part of this model.
- Concurrency. `lock(this)` in the repository and the coroutine timing of the drain loop (`WaitForSeconds`) are not modelled.
- Server.Instance. The singleton (`Server.Instance`) is one `Server` object shared by every connection object.

## Findings

| source | as written | input that shows it | evidently intended | confidence | as-written member | corrected member |
|---|---|---|---|---|---|---|
| StateFlux/StateFlux.Model/Repository/PlayerRepository.cs:45 | `InsertPlayer` first looks up `player.Id`. A .NET `Dictionary` throws on a null key. | The player `CreatePlayerSession` builds (ServiceBehavior.cs:77-82) has no Id, so inserting it throws and no session can be created. | A player without an Id counts as not yet stored, and the insert goes ahead. | not executed | Repository.FreshPlayerInsertThrows | Repository.FreshPlayerInsertSucceeds |
| StateFlux/StateFlux/ServiceBehavior.cs:111 | `if (!meToo) continue;` skips every player. | A host's `HostStateChange` with a guest seated in its instance: the guest receives nothing. | With `meToo` false, skip only the sender. | not executed | Service.HostBroadcastIsLost | Service.SenderIsSkipped |
