# mserver game session model

A Dafny model of the game server `mserver.js`, a WebSocket server that hosts
multiplayer card games. The model covers the per-game session state machine
and the registry of games around it.

The server keeps a registry `gameMap` from game names to games. A ConfigGame
message installs a game. It names the game, the cards per hand and a roster
of players. Each player is human or a bot.

- **Joining.** A human player joins a game by binding a connection to its
  name. Once every human is connected, `play()` runs. It either starts a
  fresh hand or resumes a paused one.
- **Starting.** A fresh start takes the first connected player in roster
  order as the dealer and first to play. Each player gets the next
  `cardsPerHand` cards of a shuffled two-deck, four-joker deck.
- **Turns.** On its turn a player sends HandDone. The move is either a draw
  from the deck or the hand the client reports. After the move the server
  broadcasts the new state. A player left with no cards has won, and the
  game is reset to idle. Otherwise the turn passes to the next player in
  roster order, wrapping round, and the hand number goes up by one.
- **Updates.** StateUpdate messages from the current player change the board,
  the buckets and the current hand between turns. Stale updates are
  acknowledged and ignored.
- **Leaving.** A closed connection unbinds its players and pauses an active
  game. LeaveGame unbinds one player.
- **Reconfiguration and deletion.** A game can be reconfigured or deleted
  only while it is idle.

Modules:

- `Wrappers`: the `Option` type.
- `Cards`:
  - the deck that `createDeck` builds, with a reference definition;
  - the shuffle;
  - a stand-in for the hand sort;
  - the multiset algebra that states card conservation when dealing.
- `Protocol`:
  - connection identities;
  - inbound messages (already decoded);
  - the outbound message log `Msg`.
- `Session`: the `Player` and `Game` classes, with every `Game` operation as
  a method that changes the game's fields and its players' `hand` and
  `webSocket` in place.
  - Each method returns the messages it sends, in order, as `sent`.
  - `Game.Valid()` is the invariant the operations keep:
    - the roster is well formed;
    - paused implies active;
    - an idle game holds the full deck with the turn pointer at 0;
    - an active game has a current player at the turn pointer and a dealer;
    - an active, unpaused game has every human connected.
- `Registry`: the `Server` class holding `gameMap`, and the id counter that
  the `Player` constructor draws from. It models:
  - lookup;
  - the ConfigGame checks as a pure function `ConfigCheck`, with the loop
    that builds the roster;
  - installation;
  - deletion.

Inputs from outside the server are parameters:

- Randomness: `picks`, the index `Math.random` chooses on each shuffle step.
- The clock: `now`.
- The two validators imported from the card module: `validGame` and
  `validPlayer`, as uninterpreted predicates.

## Model

| member | source | states |
|---|---|---|
| Cards.CreateDeck | mserver.js:19-35 | the deck built is exactly `DeckOf(numDecks, numJokers, numValues, numSuits)`: `numDecks` passes over values 1..numValues, each in every suit, followed by `numJokers` jokers |
| Cards.DeckOfShape | mserver.js:19-35 | the deck has `numDecks*numValues*numSuits + numJokers` cards; a position holds a joker exactly when it is among the last `numJokers` |
| Cards.DeckOfCount | mserver.js:19-35 | each standard card in range occurs exactly `numDecks` times, the joker `numJokers` times, and no other card occurs |
| Cards.OneDeckLength | mserver.js:23-27 | one pass over values and suits yields `numValues*numSuits` cards |
| Cards.DecksLength | mserver.js:22-28 | all passes yield `numDecks*numValues*numSuits` cards |
| Cards.DecksLengthBy | mserver.js:22-28 | all passes yield `numDecks` blocks of `numValues*numSuits` cards |
| Cards.NoJokerInDecks | mserver.js:22-28 | the nested loops produce no joker |
| Cards.NoJokerInOneDeck | mserver.js:23-27 | one pass over values and suits produces no joker |
| Cards.OneDeckCount | mserver.js:23-27 | one pass holds each in-range standard card exactly once and nothing else |
| Cards.SuitsCount | mserver.js:24-26 | the suit loop for one value holds each suit of that value exactly once |
| Cards.DecksCount | mserver.js:22-28 | the nested loops hold each in-range standard card exactly `numDecks` times |
| Cards.JokersCount | mserver.js:30-33 | the joker loop adds exactly `numJokers` jokers |
| Cards.FullDeckSize | mserver.js:120 | the game's deck `createDeck(2, 4, 13, 4)` has 108 cards |
| Cards.FullDeckIsFull | mserver.js:120 | that deck holds every standard card twice and four jokers |
| Cards.ShuffleDeck | mserver.js:37-45 | for any sequence of in-range random indices, the result has the input's length and is a permutation of it |
| Cards.NewShuffledDeck | mserver.js:120 | the deck `resetGameState` installs is a full deck in some order |
| Cards.SortSequence | mserver.js:139 | the hand sort permutes the hand: same length, same multiset |
| Cards.BlockStartIsProduct | mserver.js:148-152 | hand `i` of a deal starts at deck position `i*k` |
| Cards.DealBlockStep | mserver.js:148-152 | filling hand `i` with the `i`-th block of `k` cards keeps every earlier hand's block |
| Cards.DealtBlocks | mserver.js:148-152 | hands holding consecutive blocks together hold exactly the front `|hands|*k` cards of the deck |
| Session.Player.constructor | mserver.js:73-80 | a new player has the given name, bot flag and id, an empty hand and no connection |
| Session.NextIndexMod | mserver.js:336-339 | the increment-and-wrap of the turn pointer is `(i + 1) mod n` |
| Session.AdvanceByIsModular | mserver.js:336-339 | after `s` advances from index `i < n` the turn pointer is `(i + s) mod n` |
| Session.Game.constructor | mserver.js:109-115 | a new game has the given name, roster and cards per hand, is idle and reset, and unbinds any connected player of its roster, clearing that player's hand |
| Session.Game.ResetGameState | mserver.js:117-132 | the game becomes idle, unpaused, with turn pointer 0, a full shuffled deck, an empty board, buckets `[[]]`, and version and hand number set to the clock; every connected player is unbound and only those players' hands are cleared; the invariant holds |
| Session.Game.ReleaseConnections | mserver.js:126-131 | every player ends unbound; a player that was connected has an empty hand, every other keeps its hand |
| Session.Game.DrawCard | mserver.js:134-141 | needs a non-empty deck; the front card leaves the deck and joins the re-sorted hand; hand plus deck is conserved as a multiset |
| Session.Game.DealHand | mserver.js:149-151 | `count` draws take exactly the front `count` cards of the deck into the hand, as a multiset |
| Session.Game.EmptyHands | mserver.js:144-147 | `n` hands, all empty |
| Session.Game.DealCards | mserver.js:143-155 | hand `i` holds the `i`-th block of `cardsPerHand` cards from the front of the deck; the deck loses exactly those cards; deck plus hands is conserved |
| Session.Game.StateMsgsReach | mserver.js:176-184 | a broadcast sends the snapshot to exactly the connected players whose connection is not the skipped one, and sends nothing else |
| Session.Game.CreateGameStateMsg | mserver.js:157-173 | the snapshot carries the version, the board, the buckets and one entry per player in roster order |
| Session.Game.BroadcastGameState | mserver.js:176-184 | sends the current snapshot once to each connected player not on the skipped connection, in roster order |
| Session.Game.TurnMsgs | mserver.js:351-367 | at most one PlayHand message, describing the current player, its hand and the hand number; it goes to the current player's connection, or the dealer's when the current player is a bot; nothing is sent when that connection is absent |
| Session.Game.SendPlayHandMsg | mserver.js:351-367 | sends exactly the turn message above |
| Session.Game.PlayHand | mserver.js:345-349 | the player at the turn pointer becomes current and gets its turn message |
| Session.Game.UpdateGameState | mserver.js:275-286 | board, buckets and current hand are each replaced only when supplied; the version takes the clock; the invariant holds |
| Session.Game.AssignHands | mserver.js:393-398 | hand `k` goes to the `k`-th player in roster order; connections and the game's fields are unchanged |
| Session.Game.FindDealer | mserver.js:378-388 | finds the index of the first connected player in roster order |
| Session.Game.ChooseDealer | mserver.js:377-389 | the game becomes active; the first connected player in roster order becomes dealer, and the turn pointer names it |
| Session.Game.Resume | mserver.js:371-375 | a paused game is unpaused, the state goes to every connected player, then the turn message; hands and turn are unchanged |
| Session.Game.Deal | mserver.js:377-398 | chooses the dealer as above; the players, in roster order, get consecutive blocks of `cardsPerHand` cards from the front of the deck; connections are unchanged |
| Session.Game.Announce | mserver.js:399-400 | broadcasts the state to every connected player, then starts the turn at the turn pointer |
| Session.Game.Start | mserver.js:376-401 | the fresh start: deals as above, keeps the invariant, and sends the state broadcast followed by the dealer's turn message |
| Session.Game.Play | mserver.js:369-402 | needs `!active or paused`. Afterwards the game is active and unpaused. A resume changes no hand, deck, turn pointer, dealer or current player. A fresh start picks the first connected player as dealer and deals every player `cardsPerHand` cards in order. Either way it sends the state broadcast, then the turn message |
| Session.Game.AllHumansJoined | mserver.js:219-223 | true exactly when every human player is connected |
| Session.Game.BindPlayer | mserver.js:207-218 | refuses an unknown name, a connected player and a bot with an error and no change; otherwise binds `ws` to that player only and acknowledges, keeping the invariant |
| Session.Game.PlayIfAllJoined | mserver.js:219-225 | calls `play()` exactly when every human is connected, ending active and unpaused with the state broadcast and the turn message; otherwise changes and sends nothing; no connection changes. When it plays, board, buckets, version and hand number are kept. A resumed hand keeps the deck, the turn pointer, the current player, the dealer and every hand. A fresh hand makes the first connected player dealer and first to play, and deals each player the next `cardsPerHand` cards of the deck in roster order |
| Session.Game.JoinGame | mserver.js:207-226 | succeeds exactly when the name is an unconnected human. A refusal sends an error and changes nothing. A success binds only that player and calls `play()` exactly when it connects the last missing human, with the outcome of `PlayIfAllJoined`: the resume keeps deck, turn, dealer and hands; the fresh start picks the first connected player as dealer and deals consecutive blocks of `cardsPerHand` cards. Otherwise it changes nothing else and only acknowledges |
| Session.Game.LeaveGameAsWritten | mserver.js:260-273 | unbinds exactly the named connected human, acknowledges on its old connection and pushes the summaries. An unknown name, a player with no connection and a bot are refused with one error and nothing changes. The game is not paused, so an active game is left running with a human missing, and rejoining that player would complete the roster |
| Session.Game.LeaveGame | mserver.js:260-273 | as above, and an active game is paused, which keeps the invariant |
| Session.Game.BoundToPositive | mserver.js:404-415 | some player is bound to `ws` exactly when the count of players bound to it is positive |
| Session.Game.ProcessSocketClose | mserver.js:404-415 | exactly the players bound to `ws` become unbound, with one summary push each; every other player and all hands are unchanged; the game becomes paused exactly when it was paused, or it is active and some player was bound to `ws`; the invariant holds |
| Session.Game.UnbindConnection | mserver.js:405-414 | the loop: unbinds exactly the players on `ws` and sends one summary push per player unbound |
| Session.Game.ValidateNewConfig | mserver.js:288-305 | accepts exactly when the game is idle and every connected player is in the new roster. An active game is refused with nothing copied. On acceptance, each connected player's connection is copied onto the new player of the same name, and every other new player is untouched |
| Session.Game.TakeOver | mserver.js:288-305 | an idle game with unconnected players takes the roster check of the game it replaces: accepted exactly when that game accepts the roster, and then each player inherits the connection of the same-named old player or stays unconnected; a refusal sends one error; no hand changes |
| Session.Game.BoundNamesUpToMembers | mserver.js:232-237 | a name is collected exactly when it is a connected player of the roster |
| Session.Game.JoinedPlayers | mserver.js:232-237 | collects the connected players' names in roster order, exactly those |
| Session.Game.CanDeleteGameAsWritten | mserver.js:228-258 | with the argument-less call at line 460, an active game raises, and only an active one; an idle game is either deletable, exactly when no player is connected, or refused with the non-empty list of connected names |
| Session.Game.CanDeleteGame | mserver.js:228-258 | corrected: never raises; refuses an active game; deletable exactly when the game is idle with nobody connected; otherwise lists exactly the connected names |
| Session.Game.Joined | mserver.js:231-257 | an idle game is deletable exactly when nobody is connected; otherwise the refusal lists exactly the connected names |
| Session.Game.AppendConfig | mserver.js:307-313 | the summary has the game's name and cards per hand, and one entry per roster position with its name, bot flag and whether it is connected |
| Session.Game.MakeMove | mserver.js:324-328 | the current hand becomes the moved hand: on a draw, the deck loses its front card and hand plus deck is conserved as a multiset; a played hand leaves the deck |
| Session.Game.MoveAndStamp | mserver.js:324-329 | the move is applied (`MoveApplied`: deck, hand, conservation, reported board, buckets `[[]]`, version = clock, every connection and every other hand unchanged), and the snapshot of the new state is the moved snapshot computed from the state before |
| Session.Game.ApplyMove | mserver.js:324-330 | the move is applied as above; the current hand is empty exactly when the move reports an empty hand; the broadcast is the moved snapshot sent to every connected player, which is the state broadcast of the new state |
| Session.Game.AdvanceTurn | mserver.js:336-341 | the turn pointer moves one step round the roster, the hand number goes up by one, and the player at the pointer becomes current and gets its turn message |
| Session.Game.AcknowledgeMove | mserver.js:323-330 | the Ok reply comes first, then the moved-state broadcast; the move is applied as above; `active` and `paused` are kept; the hand is empty exactly when the move reports an empty hand |
| Session.Game.WinHand | mserver.js:323-334 | the Ok, the moved-state broadcast, then the summary push; the game ends reset, keeping the current player and the dealer; the winner's hand and every connected player's hand are empty, every other hand is kept |
| Session.Game.PassTurn | mserver.js:323-341 | the Ok, the moved-state broadcast, then the next player's turn message; the move is applied as above; the turn pointer takes one step round the roster, the hand number goes up by one, the player at the pointer becomes current, and `active` and `paused` are kept |
| Session.Game.TakeTurn | mserver.js:323-342 | the accepted path: the hand is won exactly when the move reports an empty hand, with the outcomes of `WinHand` and `PassTurn`; the dealer is kept on both branches |
| Session.Game.HandDone | mserver.js:315-343 | rejects exactly a message not naming the current player and hand, with one error and no change at all. Otherwise, on a won hand: the Ok, the moved-state broadcast and the summary push; the game is reset and keeps the current player and the dealer. On a passed turn: the move is applied (deck, hand, conservation, board, buckets, version, connections and other hands as above). The turn pointer becomes `(i + 1) mod n`, the hand number goes up by one, the player at the pointer becomes current and the dealer is kept. The messages are the Ok, the moved-state broadcast and the turn message |
| Session.Game.ReceiveStateUpdate | mserver.js:191-205 | an inactive game refuses with an error and changes nothing. Any other update is acknowledged. A stale update changes nothing. An update naming the current player and hand applies the supplied board, buckets and hand, stamps the version, keeps every connection and every other player's hand, and broadcasts to everyone except the sender |
| Registry.SeenExists | mserver.js:500 | the duplicate test finds a name exactly when an earlier entry carries it |
| Registry.RosterErrorSticks | mserver.js:492-509 | the roster loop stops at the first bad entry: a failure of a prefix is the failure of the whole roster |
| Registry.RosterErrorNone | mserver.js:492-509 | the roster passes exactly when every entry is valid with a non-empty name and no two entries share a name |
| Registry.ConfigCheckNone | mserver.js:481-513 | a configuration passes the message checks exactly when it is present, has at least two players, passes both validators, has non-empty distinct names and at least one human |
| Registry.SomeHumanExists | mserver.js:504-506 | the human flag is set exactly when some entry is not a bot |
| Registry.RosterAdd | mserver.js:503-507 | adding a new name with its player keeps the roster well formed |
| Registry.BuiltStep | mserver.js:503-507 | registering entry `i` extends the names-in-order, bot flags and consecutive ids by one entry |
| Registry.RosterErrorNext | mserver.js:495-502 | once the earlier entries have passed, entry `i` fails on the validator, then on an empty name, then on a name already in the new map, in that order |
| Registry.Server.constructor | mserver.js:15 | the registry starts empty and the ids start at 1000 |
| Registry.Server.LookupGame | mserver.js:418-424 | returns the game filed under the name, or sends an error when there is none |
| Registry.Server.BuildRoster | mserver.js:492-509 | the error is the first failing entry's. On success, names are in order with one newly created, empty-handed, unconnected player each; ids are consecutive from the counter; the human flag says whether any entry is human |
| Registry.Server.AddPlayer | mserver.js:503-507 | one loop pass: the entry gets a new unconnected, empty-handed player with the next id, the map changes at that name only, and the human flag is updated |
| Registry.Server.CheckConfig | mserver.js:481-513 | succeeds exactly when the message checks pass, returning the roster in order with a newly created, empty-handed, unconnected player per name, carrying the entry's bot flag and the next consecutive id, and the config's `cardsPerHand`; the id counter never goes back |
| Registry.Server.ProcessConfigGameMsgAsWritten | mserver.js:476-537 | refuses, leaving the registry unchanged, exactly when a check fails or an existing game of that name refuses the roster. Otherwise it files a new idle game under the name, with the roster in order, each entry's bot flag, consecutive ids and the config's `cardsPerHand`, and pushes the summaries. The new game is reset: unpaused, empty board, buckets `[[]]`, version and hand number stamped with the clock, every hand empty. The id counter advances by the roster's length on acceptance and never goes back. Every player of the new game is then unconnected, including those whose connections were copied over |
| Registry.Server.ProcessConfigGameMsg | mserver.js:476-537 | corrected: as above, but each player of the new game keeps the connection of the same-named player of the game it replaces, and the rest are unconnected |
| Registry.Server.Install | mserver.js:514-520 | the registry update for a roster of newly created players: refused exactly when an existing game of that name refuses the roster; otherwise the new game is filed under the name, nothing else in the registry changes, the new game has the given roster and `cardsPerHand`, and the connections are inherited as above. The new game is reset (unpaused, empty board, buckets `[[]]`, version and hand number stamped with the clock); each hand is kept, except that a player that was connected loses its cards; the id counter is unchanged |
| Registry.Server.ProcessDeleteGameMsgAsWritten | mserver.js:457-474 | an unknown name gets an error. An active game raises, with nothing sent or changed. An idle game with nobody connected is removed and the summaries are pushed. Otherwise the request is refused |
| Registry.Server.ProcessDeleteGameMsg | mserver.js:457-474 | corrected: the game is removed, with the summaries pushed, exactly when it exists, is idle and has nobody connected; every other request gets an error and changes nothing |

## Left out

- The WebSocket server, the list of connected clients and the dispatch of JSON messages (the `process...Msg` routers other than the three modelled). Inbound messages are decoded datatypes; a connection is an opaque `ConnId`.
- The message that announces a join, sent by `processJoinGameMsg`, is not in the model: it belongs to the router.
- The contents of the GameConfigs push (`broadcastGameConfigs`, `sendGameConfigs`). Every push is one `ConfigsBroadcast` entry in the message log; `AppendConfig` models each game's entry of it.
- The single-recipient `sendGameState` is not modelled: none of the modelled operations calls it.
- Persisting a configuration (`fs.writeFile`, `fs.rename`), removing it (`fs.rm`) and loading configurations at startup (`fs.readdir`, `readFile`). These are foreign I/O with callbacks.
- Console logging, the `requestId` and `playerId` fields of Status replies, and the text of every error message. A refusal is `Status(ws, false)`.
- `Player.send` stamps the player's id into a message that has none. Broadcasts share one message object, so only the first recipient's id lands in it. The model sends snapshots without ids.
- `Math.random` and `Date.getTime` are not called. Their results arrive as the `picks` and `now` parameters; `handDone` takes a second clock value, `resetNow`, for the reset.
- `Card`, `GameInfo`, `PlayerInfo`, `validateGameInfo`, `validatePlayerInfo` and `sortSequence` come from the card module, which is not part of this model.
  - The validators are uninterpreted predicates.
  - `sortSequence` is an insertion sort whose only relied-on property is that it permutes the hand.
- Session.Game.HandDone: requires an active game. The source reads `currentPlayer.id` without checking `active`. On a game that has never started, `currentPlayer` is undefined and that read throws. After a won hand, `resetGameState` keeps `currentPlayer`, so a late HandDone on the idle game gets the player-id or hand-number error, and one that matches both would be applied to the idle game. The model leaves both cases out.
- Session.Game.HandDone: the move is a closed choice, a draw or a reported hand. A message that asks for no draw and carries no hand is not modelled. In the source the Ok has been sent and `updateGameState` has replaced the board and the buckets when `createGameStateMsg` fails on the missing hand (`cardsToStr(player.hand)` and `assert(player.hand)`, lines 161-163).
- Session.Game.DrawCard: requires a non-empty deck, where the source asserts that a card was drawn (line 137). `validateGameInfo` is uninterpreted, so nothing bounds the roster size times `cardsPerHand` by the 108 cards of the deck. A draw from an empty deck is therefore possible in the source and is left out. The members that draw carry the same requirement:
- Session.Game.DealHand, Session.Game.DealCards: require enough cards for the whole deal.
- Session.Game.Deal, Session.Game.Start: require `|playerOrder| * cardsPerHand` cards in the deck.
- Session.Game.Play, Session.Game.PlayIfAllJoined, Session.Game.JoinGame: require `|playerOrder| * cardsPerHand` cards in the deck when the call starts a fresh hand.
- Session.Game.MakeMove, Session.Game.MoveAndStamp, Session.Game.ApplyMove, Session.Game.AcknowledgeMove, Session.Game.PassTurn, Session.Game.TakeTurn: require a non-empty deck when the move is a draw.
- Session.Game.HandDone: requires a non-empty deck when an accepted move is a draw.
- Session.Game.Play: requires every human to be connected, which its only caller, `joinGame`, guarantees. The source does not check it.
- Session.Game.Deal: requires some player to be connected. The source asserts a dealer exists. A dealer left over from an earlier hand would satisfy that assert even with nobody connected, but this never arises from `joinGame`.
- Session.Game.ValidateNewConfig: for an active game the source returns `undefined` rather than `false`. The caller treats it as a refusal, which is how the model returns it.
- Session.Game.ProcessSocketClose: the source sets `paused` inside the loop, once per unbound player. The loop does not change `active`, so the model sets it once after the loop.
- Registry.Server.ProcessConfigGameMsg: split into `CheckConfig` (the checks and the roster loop) and `Install` (the registry update, which hands the old game's check to `Session.Game.TakeOver`). The player-id counter, a module-level variable in the source, is a field of `Server`.
- Session.Game.Play, Session.Game.HandDone: split into helper methods (`Resume`, `Start`, `ChooseDealer`, `Deal`, `Announce`, `MakeMove`, `MoveAndStamp`, `ApplyMove`, `AcknowledgeMove`, `AdvanceTurn`, `WinHand`, `PassTurn`, `TakeTurn`, `PlayIfAllJoined`) along the branches of the source.
- Session.Game.TakeTurn: the source tests the hand length after the move (line 332). The model chooses the branch from the move beforehand. The two agree: `AcknowledgeMove` proves that the hand is empty after the move exactly when the move reports an empty hand. Each branch applies the move first, as the source does.
- Cards.ShuffleDeck: states that the result is a permutation of the input, not which permutation a given sequence of random indices yields.
- Session.Game.LeaveGameAsWritten: does not promise the game invariant, since leaving an active game breaks it (see Findings).
- Session.Game.HandDone, Session.Game.ReceiveStateUpdate, Session.Game.ProcessSocketClose, Session.Game.JoinGame: are not modelled after an as-written leave of an active game. Every `Game` operation requires the invariant, which asks that an active, unpaused game has every human connected. The source keeps serving these messages on the game that the leave left active, unpaused and missing a human; the model does not follow it there.
- Per-game JavaScript property checks, such as `assert(player)` on roster lookups and `assert(player.hand)`, are not modelled. The roster invariant `Roster` makes them hold.

## Findings

| source | as written | input that shows it | evidently intended | confidence | as-written member | corrected member |
|---|---|---|---|---|---|---|
| mserver.js:514-520 | `validateNewConfig` copies each connected player's connection onto the new players. Then `new Game(...)` runs `resetGameState`, which unbinds every connected player (lines 114, 126-131). | reconfigure an idle game "g" in which human "a" is connected, with a roster that keeps "a": after the message "a" is no longer connected in the new game | connected players stay joined in the replacement game | medium, not executed | Registry.Server.ProcessConfigGameMsgAsWritten | Registry.Server.ProcessConfigGameMsg |
| mserver.js:260-273 | `leaveGame` unbinds a player but does not pause an active game | two humans "a" and "b" in play, unpaused; "a" leaves, so the game is active, unpaused and missing a human; "a" rejoins, `joinGame` calls `play()`, and `assert(!this.active \|\| this.paused)` at line 370 throws | leaving pauses an active game, as a closed connection does (line 410-412), so a rejoin resumes it | high, not executed | Session.Game.LeaveGameAsWritten | Session.Game.LeaveGame |
| mserver.js:457-474 | `canDeleteGame()` is called without arguments (line 460) but, for an active game, builds its message from `msg.gameName` (line 230) | a DeleteGame message for a game in play: `msg` is undefined, reading `gameName` raises a TypeError, and no error reply is sent | an active game is refused with an error reply | high, not executed | Registry.Server.ProcessDeleteGameMsgAsWritten | Registry.Server.ProcessDeleteGameMsg |
