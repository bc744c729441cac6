/**
 * The per-game session: players, the Game state machine (idle, connecting,
 * active, paused), dealing, turn advance and update validation.
 */
module Session {
  import opened Wrappers
  import opened Cards
  import opened Protocol

  /** A participant of one game. Name, bot flag and id never change; the hand
      and the connection are updated by the game. */
  class Player {
    const name: string
    const isBot: bool
    const id: nat
    var hand: seq<Card>
    var webSocket: Option<ConnId>

    constructor (name: string, isBot: bool, id: nat)
      ensures this.name == name && this.isBot == isBot && this.id == id
      ensures hand == [] && webSocket == None
    {
      this.name := name;
      this.isBot := isBot;
      this.id := id;
      hand := [];
      webSocket := None;
    }
  }

  /** A roster as configuration builds it: `order` lists distinct names,
      `players` has exactly those keys, and each player carries its own key as name
      (so distinct names are distinct Player objects). */
  ghost predicate Roster(order: seq<string>, players: map<string, Player>)
  {
    && (forall i, j :: 0 <= i < j < |order| ==> order[i] != order[j])
    && (forall n :: n in players <==> n in order)
    && (forall n :: n in players ==> players[n].name == n)
  }

  function StateOf(p: Player): PlayerState
    reads p
  {
    PlayerState(p.name, p.id, p.hand, p.isBot)
  }

  /** The state message a broadcast skipping `skip` sends to `p`: one when `p`
      is connected on another connection, none otherwise. */
  function StateMsgFor(p: Player, skip: Option<ConnId>, snap: Snapshot): seq<Msg>
    reads p`webSocket
  {
    if p.webSocket.Some? && p.webSocket != skip then [GameState(p.webSocket.value, snap)] else []
  }

  /** The turn index after one hand-done: one step forward, wrapping at the player count. */
  function NextIndex(i: nat, n: nat): nat
  {
    if i + 1 == n then 0 else i + 1
  }

  /** The turn index after `steps` hand-done events that did not end the hand. */
  function AdvanceBy(i: nat, n: nat, steps: nat): nat
  {
    if steps == 0 then i else NextIndex(AdvanceBy(i, n, steps - 1), n)
  }

  /** Euclidean division is unique: a quotient and a remainder in range are the ones `/` and `%` give. */
  lemma ModUnique(a: int, n: int, q: int, r: int)
    requires n > 0 && 0 <= r < n && a == q * n + r
    ensures a % n == r
  {
    var d := q - a / n;
    assert d * n == a % n - r;
  }

  lemma NextIndexMod(x: nat, n: nat)
    requires n > 0
    ensures NextIndex(x % n, n) == (x + 1) % n
  {
    var q, r := x / n, x % n;
    if r + 1 == n {
      ModUnique(x + 1, n, q + 1, 0);
    } else {
      ModUnique(x + 1, n, q, r + 1);
    }
  }

  /** Turns advance modulo the player count: after `steps` turns from index `i`
      the turn is at (i + steps) mod n. */
  lemma {:induction false} AdvanceByIsModular(i: nat, n: nat, steps: nat)
    requires i < n
    ensures AdvanceBy(i, n, steps) == (i + steps) % n
  {
    if steps > 0 {
      AdvanceByIsModular(i, n, steps - 1);
      NextIndexMod(i + steps - 1, n);
    }
  }

  /** What the `handDone` reply tells the router. */
  datatype TurnOutcome = Rejected | Advanced | Won

  /** What `canDeleteGame` decides. `Throws` is the TypeError the call raises in the source. */
  datatype DeleteCheck = Deletable | IsActive | PlayersJoined(names: seq<string>) | Throws

  class Game {
    const gameName: string
    const playerOrder: seq<string>
    const playerMap: map<string, Player>
    const cardsPerHand: nat
    var board: Board
    var buckets: Buckets
    var deck: seq<Card>
    var stateVersion: int
    var handNumber: int
    var nextPlayerIndex: nat
    var active: bool
    var paused: bool
    var currentPlayer: Player?
    var dealer: Player?

    ghost function Players(): set<Player>
    {
      playerMap.Values
    }

    predicate Bound(n: string)
      reads Players()
      requires n in playerMap
    {
      playerMap[n].webSocket.Some?
    }

    /** Every human player has a live connection. */
    ghost predicate AllHumansBound()
      reads Players()
    {
      forall n :: n in playerMap && !playerMap[n].isBot ==> playerMap[n].webSocket.Some?
    }

    /** Some player of the roster has a live connection. */
    ghost predicate SomeBound()
      reads Players()
    {
      exists k :: 0 <= k < |playerOrder| && playerOrder[k] in playerMap && playerMap[playerOrder[k]].webSocket.Some?
    }

    /** Index `k` is the first player in `playerOrder` with a live connection. */
    ghost predicate IsFirstBound(k: nat)
      reads Players()
      requires Roster(playerOrder, playerMap)
    {
      && k < |playerOrder|
      && playerMap[playerOrder[k]].webSocket.Some?
      && forall j :: 0 <= j < k ==> playerMap[playerOrder[j]].webSocket.None?
    }

    /** The state flags and the deck agree: paused only while active, and an
        idle game holds the full deck with the turn pointer at 0. */
    ghost predicate Flags()
      reads this`active, this`paused, this`nextPlayerIndex, this`deck
    {
      && (paused ==> active)
      && (!active ==> nextPlayerIndex == 0 && IsFullDeck(deck))
    }

    /** While a hand is in progress the turn pointer names the current player and there is a dealer. */
    ghost predicate TurnOk()
      reads this`active, this`nextPlayerIndex, this`currentPlayer, this`dealer
    {
      active ==>
        && nextPlayerIndex < |playerOrder|
        && playerOrder[nextPlayerIndex] in playerMap
        && currentPlayer == playerMap[playerOrder[nextPlayerIndex]]
        && dealer != null && dealer in Players()
    }

    /** An active game that is not paused has every human connected. */
    ghost predicate Ready()
      reads this`active, this`paused, Players()
    {
      active && !paused ==> AllHumansBound()
    }

    ghost predicate Valid()
      reads this, Players()
    {
      Roster(playerOrder, playerMap) && Flags() && TurnOk() && Ready()
    }

    /** The hands of the players, in roster order. */
    ghost function HandsInOrder(): (r: seq<seq<Card>>)
      reads Players()
      requires Roster(playerOrder, playerMap)
      ensures |r| == |playerOrder|
    {
      seq(|playerOrder|, k reads Players() requires 0 <= k < |playerOrder| => playerMap[playerOrder[k]].hand)
    }

    /** The state `resetGameState` leaves: idle, a full deck, an empty board and
        buckets, version and hand number stamped with the clock, and no player
        connected. */
    ghost predicate IsReset(now: int)
      reads this, Players()
    {
      && !active && !paused && nextPlayerIndex == 0 && IsFullDeck(deck)
      && board == [] && buckets == [[]] && stateVersion == now && handNumber == now
      && forall n :: n in playerMap ==> playerMap[n].webSocket.None?
    }

    constructor (gameName: string, playerOrder: seq<string>, playerMap: map<string, Player>,
                 cardsPerHand: nat, picks: seq<nat>, now: int)
      requires Roster(playerOrder, playerMap)
      requires RandomIndices(picks, DeckSize)
      modifies playerMap.Values
      ensures Valid()
      ensures this.gameName == gameName && this.playerOrder == playerOrder
      ensures this.playerMap == playerMap && this.cardsPerHand == cardsPerHand
      ensures !active && !paused && board == [] && buckets == [[]]
      ensures stateVersion == now && handNumber == now
      ensures forall n :: n in playerMap ==>
                playerMap[n].webSocket == None &&
                playerMap[n].hand == (if old(playerMap[n].webSocket).Some? then [] else old(playerMap[n].hand))
    {
      this.gameName := gameName;
      this.playerOrder := playerOrder;
      this.playerMap := playerMap;
      this.cardsPerHand := cardsPerHand;
      currentPlayer := null;
      dealer := null;
      new;
      ResetGameState(picks, now);
    }

    /** Returns the game to idle with a freshly shuffled deck; unbinds every
        connected player and clears the hands of exactly those players. */
    method ResetGameState(picks: seq<nat>, now: int)
      requires Roster(playerOrder, playerMap)
      requires RandomIndices(picks, DeckSize)
      modifies this, Players()
      ensures Valid() && IsReset(now)
      ensures currentPlayer == old(currentPlayer) && dealer == old(dealer)
      ensures forall n :: n in playerMap ==>
                playerMap[n].hand == (if old(playerMap[n].webSocket).Some? then [] else old(playerMap[n].hand))
    {
      board := [];
      buckets := [[]];
      deck := NewShuffledDeck(picks);
      stateVersion := now;
      handNumber := stateVersion;
      nextPlayerIndex := 0;
      active := false;
      paused := false;
      ReleaseConnections();
    }

    /** The player loop of `resetGameState`: every connected player is unbound
        and its hand cleared; unconnected players keep their hands. */
    method ReleaseConnections()
      requires Roster(playerOrder, playerMap)
      modifies Players()
      ensures forall n :: n in playerMap ==>
                playerMap[n].webSocket == None &&
                playerMap[n].hand == (if old(playerMap[n].webSocket).Some? then [] else old(playerMap[n].hand))
    {
      var i := 0;
      while i < |playerOrder|
        invariant 0 <= i <= |playerOrder|
        invariant forall k :: 0 <= k < |playerOrder| ==>
                    var p := playerMap[playerOrder[k]];
                    if k < i then
                      p.webSocket == None && p.hand == (if old(p.webSocket).Some? then [] else old(p.hand))
                    else
                      p.webSocket == old(p.webSocket) && p.hand == old(p.hand)
      {
        var player := playerMap[playerOrder[i]];
        if player.webSocket.Some? {
          player.webSocket := None;
          player.hand := [];
        }
        i := i + 1;
      }
    }

    /** Moves the front card of the deck into `hand` and re-sorts the hand. */
    method DrawCard(hand: seq<Card>) returns (newHand: seq<Card>, card: Card)
      requires |deck| > 0
      modifies this`deck
      ensures card == old(deck)[0] && deck == old(deck)[1..]
      ensures newHand == SortSequence(hand + [card])
      ensures multiset(newHand) + multiset(deck) == multiset(hand) + multiset(old(deck))
    {
      card := deck[0];
      assert deck == [card] + deck[1..];
      deck := deck[1..];
      newHand := SortSequence(hand + [card]);
    }

    /** The inner loop of `dealCards`: draws `count` cards, one at a time, into a new hand. */
    method DealHand(count: nat) returns (hand: seq<Card>)
      requires count <= |deck|
      modifies this`deck
      ensures |hand| == count
      ensures deck == old(deck)[count..]
      ensures multiset(hand) == multiset(old(deck)[..count])
    {
      hand := [];
      var j := 0;
      while j < count
        invariant 0 <= j <= count
        invariant deck == old(deck)[j..]
        invariant |hand| == j
        invariant multiset(hand) == multiset(old(deck)[..j])
      {
        assert old(deck)[..j + 1] == old(deck)[..j] + [old(deck)[j]];
        var card;
        hand, card := DrawCard(hand);
        j := j + 1;
      }
    }

    /** The first loop of `dealCards`: `n` empty hands. */
    static method EmptyHands(n: nat) returns (hands: seq<seq<Card>>)
      ensures |hands| == n && forall h :: 0 <= h < n ==> hands[h] == []
    {
      hands := [];
      var i := 0;
      while i < n
        invariant 0 <= i <= n
        invariant |hands| == i && forall h :: 0 <= h < i ==> hands[h] == []
      {
        hands := hands + [[]];
        i := i + 1;
      }
    }

    /** Deals `cardsPerHand` cards to each of `numHands` hands, one hand after the
        other, each card drawn from the front of the deck. */
    method DealCards(cardsPerHand: nat, numHands: nat) returns (hands: seq<seq<Card>>)
      requires numHands * cardsPerHand <= |deck|
      modifies this`deck
      ensures |hands| == numHands
      ensures Dealt(old(deck), deck, hands, cardsPerHand)
    {
      hands := EmptyHands(numHands);
      BlockStartIsProduct(numHands, cardsPerHand);
      var i := 0;
      ghost var lo := 0;
      while i < numHands
        invariant 0 <= i <= numHands && |hands| == numHands
        invariant lo == BlockStart(i, cardsPerHand) <= BlockStart(numHands, cardsPerHand)
        invariant deck == old(deck)[lo..]
        invariant forall h :: 0 <= h < i ==> |hands[h]| == cardsPerHand && HoldsBlock(old(deck), hands, h, cardsPerHand)
      {
        BlockStartMono(i + 1, numHands, cardsPerHand);
        SliceBlock(old(deck), lo, cardsPerHand);
        var hand := DealHand(cardsPerHand);
        DealBlockStep(old(deck), hands, i, cardsPerHand, hand, hands[i := hand]);
        hands := hands[i := hand];
        i := i + 1;
        lo := lo + cardsPerHand;
      }
      DealtBlocks(old(deck), hands, cardsPerHand);
      assert old(deck) == old(deck)[..lo] + deck;
    }

    // -----------------------------------------------------------------
    // Snapshots and broadcasts
    // -----------------------------------------------------------------

    /** The entries of a game-state snapshot, one per player in roster order. */
    ghost function PlayerStates(): (r: seq<PlayerState>)
      reads Players()
      requires Roster(playerOrder, playerMap)
      ensures |r| == |playerOrder|
    {
      seq(|playerOrder|, k reads Players() requires 0 <= k < |playerOrder| => StateOf(playerMap[playerOrder[k]]))
    }

    /** The GameStateUpdate payload for the current state. */
    ghost function CurrentSnapshot(): Snapshot
      reads this`stateVersion, this`board, this`buckets, Players()
      requires Roster(playerOrder, playerMap)
    {
      Snapshot(stateVersion, board, buckets, PlayerStates())
    }

    /** The state messages a broadcast skipping `skip` sends, for the first `i` players. */
    ghost function StateMsgsUpTo(i: nat, skip: Option<ConnId>, snap: Snapshot): seq<Msg>
      reads Players()`webSocket
      requires Roster(playerOrder, playerMap) && i <= |playerOrder|
    {
      if i == 0 then [] else StateMsgsUpTo(i - 1, skip, snap) + StateMsgFor(playerMap[playerOrder[i - 1]], skip, snap)
    }

    /** The state messages `broadcastGameState(skip)` sends. */
    ghost function StateMsgs(skip: Option<ConnId>): seq<Msg>
      reads this`stateVersion, this`board, this`buckets, Players()
      requires Roster(playerOrder, playerMap)
    {
      StateMsgsUpTo(|playerOrder|, skip, CurrentSnapshot())
    }

    /** A broadcast reaches exactly the connected players whose connection is not
        `skip`, and every message it sends is the snapshot. */
    lemma {:induction false} StateMsgsReach(i: nat, skip: Option<ConnId>, snap: Snapshot)
      requires Roster(playerOrder, playerMap) && i <= |playerOrder|
      ensures forall m :: m in StateMsgsUpTo(i, skip, snap) ==>
                m.GameState? && m.snapshot == snap && Some(m.to) != skip &&
                exists k :: 0 <= k < i && playerMap[playerOrder[k]].webSocket == Some(m.to)
      ensures forall k :: 0 <= k < i && playerMap[playerOrder[k]].webSocket.Some? && playerMap[playerOrder[k]].webSocket != skip ==>
                GameState(playerMap[playerOrder[k]].webSocket.value, snap) in StateMsgsUpTo(i, skip, snap)
    {
      if i > 0 {
        StateMsgsReach(i - 1, skip, snap);
        var front := StateMsgsUpTo(i - 1, skip, snap);
        var last := StateMsgFor(playerMap[playerOrder[i - 1]], skip, snap);
        assert StateMsgsUpTo(i, skip, snap) == front + last;
        forall k | 0 <= k < i && playerMap[playerOrder[k]].webSocket.Some? && playerMap[playerOrder[k]].webSocket != skip
          ensures GameState(playerMap[playerOrder[k]].webSocket.value, snap) in front + last
        {
          if k == i - 1 {
            assert GameState(playerMap[playerOrder[k]].webSocket.value, snap) in last;
          } else {
            assert GameState(playerMap[playerOrder[k]].webSocket.value, snap) in front;
          }
        }
      }
    }

    /** Builds the snapshot, one player entry per iteration. */
    method CreateGameStateMsg() returns (snap: Snapshot)
      requires Roster(playerOrder, playerMap)
      ensures snap == CurrentSnapshot()
    {
      var infos: seq<PlayerState> := [];
      var i := 0;
      while i < |playerOrder|
        invariant 0 <= i <= |playerOrder|
        invariant infos == PlayerStates()[..i]
      {
        infos := infos + [StateOf(playerMap[playerOrder[i]])];
        i := i + 1;
      }
      assert PlayerStates()[..i] == PlayerStates();
      snap := Snapshot(stateVersion, board, buckets, infos);
    }

    /** Sends the snapshot to every connected player except those on `skip`. */
    method BroadcastGameState(skip: Option<ConnId>) returns (sent: seq<Msg>)
      requires Roster(playerOrder, playerMap)
      ensures sent == StateMsgs(skip)
    {
      var snap := CreateGameStateMsg();
      sent := [];
      var i := 0;
      while i < |playerOrder|
        invariant 0 <= i <= |playerOrder|
        invariant sent == StateMsgsUpTo(i, skip, snap)
      {
        var player := playerMap[playerOrder[i]];
        if player.webSocket.Some? && player.webSocket != skip {
          sent := sent + [GameState(player.webSocket.value, snap)];
        }
        i := i + 1;
      }
    }

    // -----------------------------------------------------------------
    // Turns
    // -----------------------------------------------------------------

    /** The PlayHand message for the current turn: it describes the current player
        and goes to that player's connection, or to the dealer's when the player
        is a bot; nothing is sent when that connection is absent. */
    ghost function TurnMsgs(): (r: seq<Msg>)
      reads this, Players()
      requires Valid() && active
      ensures |r| <= 1
      ensures forall m :: m in r ==>
                m.PlayHand? && m.playerId == currentPlayer.id && m.isBot == currentPlayer.isBot &&
                m.hand == currentPlayer.hand && m.handNumber == handNumber
      ensures forall m :: m in r ==>
                Some(m.to) == (if currentPlayer.isBot then dealer.webSocket else currentPlayer.webSocket)
      ensures r == [] <==> (if currentPlayer.isBot then dealer.webSocket else currentPlayer.webSocket).None?
    {
      var player := currentPlayer;
      var target := if player.isBot then dealer else player;
      if target.webSocket.Some? then [Msg.PlayHand(target.webSocket.value, player.id, player.isBot, player.hand, handNumber)] else []
    }

    method SendPlayHandMsg() returns (sent: seq<Msg>)
      requires Valid() && active
      ensures sent == TurnMsgs()
    {
      var player := currentPlayer;
      var target := if player.isBot then dealer else player;
      sent := [];
      if target.webSocket.Some? {
        sent := [Msg.PlayHand(target.webSocket.value, player.id, player.isBot, player.hand, handNumber)];
      }
    }

    /** Makes the player at the turn pointer current and sends its turn message. */
    method PlayHand() returns (sent: seq<Msg>)
      requires Roster(playerOrder, playerMap) && Flags() && Ready() && active
      requires nextPlayerIndex < |playerOrder| && dealer != null && dealer in Players()
      modifies this`currentPlayer
      ensures Valid()
      ensures currentPlayer == playerMap[playerOrder[nextPlayerIndex]]
      ensures sent == TurnMsgs()
    {
      currentPlayer := playerMap[playerOrder[nextPlayerIndex]];
      sent := SendPlayHandMsg();
    }

    /** Applies a reported board, buckets and current hand (each only when present) and bumps the version. */
    method UpdateGameState(newBoard: Option<Board>, newBuckets: Option<Buckets>, newHand: Option<seq<Card>>, now: int)
      requires Valid() && active
      modifies this`board, this`buckets, this`stateVersion, currentPlayer`hand
      ensures Valid()
      ensures board == (if newBoard.Some? then newBoard.value else old(board))
      ensures buckets == (if newBuckets.Some? then newBuckets.value else old(buckets))
      ensures currentPlayer.hand == (if newHand.Some? then newHand.value else old(currentPlayer.hand))
      ensures stateVersion == now
    {
      if newBoard.Some? {
        board := newBoard.value;
      }
      if newBuckets.Some? {
        buckets := newBuckets.value;
      }
      if newHand.Some? {
        currentPlayer.hand := newHand.value;
      }
      stateVersion := now;
    }

    // -----------------------------------------------------------------
    // Starting and resuming play
    // -----------------------------------------------------------------

    /** The `forEach` of `play()`: hand `k` goes to the `k`-th player of the roster. */
    method AssignHands(hands: seq<seq<Card>>)
      requires Roster(playerOrder, playerMap) && |hands| == |playerOrder|
      modifies Players()
      ensures HandsInOrder() == hands && unchanged(this)
      ensures forall n :: n in playerMap ==> playerMap[n].webSocket == old(playerMap[n].webSocket)
    {
      var i := 0;
      while i < |playerOrder|
        invariant 0 <= i <= |playerOrder|
        invariant forall j :: 0 <= j < i ==> playerMap[playerOrder[j]].hand == hands[j]
        invariant forall n :: n in playerMap ==> playerMap[n].webSocket == old(playerMap[n].webSocket)
      {
        playerMap[playerOrder[i]].hand := hands[i];
        i := i + 1;
      }
    }

    /** The `some` of `play()`: the index of the first connected player in roster order. */
    method FindDealer() returns (k: nat)
      requires Roster(playerOrder, playerMap) && SomeBound()
      ensures IsFirstBound(k)
    {
      k := 0;
      while k < |playerOrder| && playerMap[playerOrder[k]].webSocket.None?
        invariant 0 <= k <= |playerOrder|
        invariant forall j :: 0 <= j < k ==> playerMap[playerOrder[j]].webSocket.None?
      {
        k := k + 1;
      }
    }

    /** The resume branch of `play()`: clears `paused`, re-sends state and turn. */
    method Resume() returns (sent: seq<Msg>)
      requires Valid() && paused && AllHumansBound()
      modifies this`paused
      ensures Valid() && active && !paused
      ensures sent == StateMsgs(None) + TurnMsgs()
    {
      paused := false;
      var broadcast := BroadcastGameState(None);
      var turn := SendPlayHandMsg();
      sent := broadcast + turn;
    }

    /** The dealing part of the fresh-start branch of `play()`: the first connected
        player becomes dealer and first to play, and every player gets the next
        `cardsPerHand` cards of the deck. */
    method Deal() returns (hands: seq<seq<Card>>)
      requires Roster(playerOrder, playerMap) && !active && !paused && SomeBound()
      requires |playerOrder| * cardsPerHand <= |deck|
      modifies this`active, this`dealer, this`nextPlayerIndex, this`deck, Players()
      ensures active && IsFirstBound(nextPlayerIndex)
      ensures dealer == playerMap[playerOrder[nextPlayerIndex]]
      ensures forall n :: n in playerMap ==> playerMap[n].webSocket == old(playerMap[n].webSocket)
      ensures HandsInOrder() == hands && Dealt(old(deck), deck, hands, cardsPerHand)
    {
      ChooseDealer();
      hands := DealCards(cardsPerHand, |playerOrder|);
      ghost var rest := deck;
      AssignHands(hands);
      assert deck == rest;
    }

    /** The first steps of the fresh start: the game becomes active and the
        first connected player becomes dealer and first to play. */
    method ChooseDealer()
      requires Roster(playerOrder, playerMap) && SomeBound()
      modifies this`active, this`dealer, this`nextPlayerIndex
      ensures active && IsFirstBound(nextPlayerIndex)
      ensures dealer == playerMap[playerOrder[nextPlayerIndex]]
    {
      active := true;
      var k := FindDealer();
      dealer := playerMap[playerOrder[k]];
      nextPlayerIndex := k;
    }

    /** The end of both branches of `play()`: broadcasts the state, then makes
        the player at the turn pointer current and sends it its turn. */
    method Announce() returns (sent: seq<Msg>)
      requires Roster(playerOrder, playerMap) && Flags() && Ready() && active
      requires nextPlayerIndex < |playerOrder| && dealer != null && dealer in Players()
      modifies this`currentPlayer
      ensures Valid()
      ensures currentPlayer == playerMap[playerOrder[nextPlayerIndex]]
      ensures sent == StateMsgs(None) + TurnMsgs()
    {
      var broadcast := BroadcastGameState(None);
      var turn := PlayHand();
      sent := broadcast + turn;
    }

    /** The fresh-start branch of `play()`: deals, broadcasts the state and
        starts the dealer's turn. */
    method Start() returns (sent: seq<Msg>)
      requires Roster(playerOrder, playerMap) && !active && !paused && AllHumansBound() && SomeBound()
      requires |playerOrder| * cardsPerHand <= |deck|
      modifies this`active, this`dealer, this`nextPlayerIndex, this`deck, this`currentPlayer, Players()
      ensures Valid() && active
      ensures forall n :: n in playerMap ==> playerMap[n].webSocket == old(playerMap[n].webSocket)
      ensures IsFirstBound(nextPlayerIndex)
      ensures dealer == playerMap[playerOrder[nextPlayerIndex]]
      ensures Dealt(old(deck), deck, HandsInOrder(), cardsPerHand)
      ensures sent == StateMsgs(None) + TurnMsgs()
    {
      var hands := Deal();
      assert AllHumansBound();
      sent := Announce();
    }

    /** `play()`: resumes a paused hand, or starts a fresh one. */
    method Play() returns (sent: seq<Msg>)
      requires Valid()
      requires !active || paused
      requires AllHumansBound()
      requires !active ==> SomeBound() && |playerOrder| * cardsPerHand <= |deck|
      modifies this, Players()
      ensures Valid() && active && !paused
      ensures forall n :: n in playerMap ==> playerMap[n].webSocket == old(playerMap[n].webSocket)
      ensures board == old(board) && buckets == old(buckets)
      ensures stateVersion == old(stateVersion) && handNumber == old(handNumber)
      ensures old(paused) ==>
                && deck == old(deck) && nextPlayerIndex == old(nextPlayerIndex)
                && currentPlayer == old(currentPlayer) && dealer == old(dealer)
                && forall n :: n in playerMap ==> playerMap[n].hand == old(playerMap[n].hand)
      ensures !old(active) ==>
                && IsFirstBound(nextPlayerIndex)
                && dealer == playerMap[playerOrder[nextPlayerIndex]]
                && Dealt(old(deck), deck, HandsInOrder(), cardsPerHand)
      ensures sent == StateMsgs(None) + TurnMsgs()
    {
      if paused {
        sent := Resume();
      } else {
        sent := Start();
      }
    }

    // -----------------------------------------------------------------
    // Joining and leaving
    // -----------------------------------------------------------------

    /** The loop of `joinGame`: whether every human player is connected. */
    method AllHumansJoined() returns (all: bool)
      requires Roster(playerOrder, playerMap)
      ensures all == AllHumansBound()
    {
      var i := 0;
      while i < |playerOrder|
        invariant 0 <= i <= |playerOrder|
        invariant forall j :: 0 <= j < i ==> playerMap[playerOrder[j]].isBot || playerMap[playerOrder[j]].webSocket.Some?
      {
        var player := playerMap[playerOrder[i]];
        if player.webSocket.None? && !player.isBot {
          return false;
        }
        i := i + 1;
      }
      forall n | n in playerMap && !playerMap[n].isBot
        ensures playerMap[n].webSocket.Some?
      {
        var j :| 0 <= j < |playerOrder| && playerOrder[j] == n;
      }
      return true;
    }

    /** `name` may join: a human player of the roster without a connection. */
    ghost predicate CanJoin(name: string)
      reads Players()
    {
      name in playerMap && playerMap[name].webSocket.None? && !playerMap[name].isBot
    }

    /** A successful join of `name` connects the last human still missing. */
    ghost predicate JoinCompletes(name: string)
      reads Players()
    {
      CanJoin(name) &&
      forall n :: n in playerMap && n != name && !playerMap[n].isBot ==> playerMap[n].webSocket.Some?
    }

    /** The checks of `joinGame`: an unknown name, a player that already has a
        connection and a bot are refused; otherwise `ws` becomes the player's
        connection and nothing else changes. */
    method BindPlayer(ws: ConnId, name: string) returns (ok: bool, sent: seq<Msg>)
      requires Valid()
      modifies Players()
      ensures Valid()
      ensures ok == old(CanJoin(name))
      ensures ok ==> SomeBound() && (!active || paused)
      ensures !ok ==> sent == [Status(ws, false)] && unchanged(Players())
      ensures ok ==> sent == [Status(ws, true)] && playerMap[name].webSocket == Some(ws)
      ensures ok ==> (AllHumansBound() <==> old(JoinCompletes(name)))
      ensures forall n :: n in playerMap && n != name ==> playerMap[n].webSocket == old(playerMap[n].webSocket)
      ensures forall n :: n in playerMap ==> playerMap[n].hand == old(playerMap[n].hand)
    {
      if name !in playerMap {
        return false, [Status(ws, false)];
      }
      var player := playerMap[name];
      if player.webSocket.Some? || player.isBot {
        return false, [Status(ws, false)];
      }
      player.webSocket := Some(ws);
      ghost var k :| 0 <= k < |playerOrder| && playerOrder[k] == name;
      return true, [Status(ws, true)];
    }

    /** The end of `joinGame`: once no human is missing, play starts or resumes;
        otherwise nothing happens. */
    method PlayIfAllJoined() returns (sent: seq<Msg>)
      requires Valid() && SomeBound() && (!active || paused)
      requires !active && AllHumansBound() ==> |playerOrder| * cardsPerHand <= |deck|
      modifies this, Players()
      ensures Valid()
      ensures forall n :: n in playerMap ==> playerMap[n].webSocket == old(playerMap[n].webSocket)
      ensures !old(AllHumansBound()) ==> sent == [] && unchanged(this) && unchanged(Players())
      ensures old(AllHumansBound()) ==> active && !paused && sent == StateMsgs(None) + TurnMsgs()
      ensures old(AllHumansBound()) ==>
                && board == old(board) && buckets == old(buckets)
                && stateVersion == old(stateVersion) && handNumber == old(handNumber)
      ensures old(AllHumansBound()) && old(paused) ==>
                && deck == old(deck) && nextPlayerIndex == old(nextPlayerIndex)
                && currentPlayer == old(currentPlayer) && dealer == old(dealer)
                && forall n :: n in playerMap ==> playerMap[n].hand == old(playerMap[n].hand)
      ensures old(AllHumansBound()) && !old(active) ==>
                && IsFirstBound(nextPlayerIndex)
                && dealer == playerMap[playerOrder[nextPlayerIndex]]
                && Dealt(old(deck), deck, HandsInOrder(), cardsPerHand)
    {
      sent := [];
      var all := AllHumansJoined();
      if all {
        sent := Play();
      }
    }

    /** `joinGame`: binds `ws` to a human player that has no connection and
        starts (or resumes) play once no human is missing. */
    method JoinGame(ws: ConnId, name: string) returns (ok: bool, sent: seq<Msg>)
      requires Valid()
      requires !active && JoinCompletes(name) ==> |playerOrder| * cardsPerHand <= |deck|
      modifies this, Players()
      ensures Valid()
      ensures ok == old(CanJoin(name))
      ensures !ok ==> sent == [Status(ws, false)] && unchanged(this) && unchanged(Players())
      ensures ok ==> playerMap[name].webSocket == Some(ws)
      ensures forall n :: n in playerMap && n != name ==> playerMap[n].webSocket == old(playerMap[n].webSocket)
      ensures ok ==> (AllHumansBound() <==> old(JoinCompletes(name)))
      ensures ok && !AllHumansBound() ==>
                && sent == [Status(ws, true)]
                && unchanged(this)
                && forall n :: n in playerMap ==> playerMap[n].hand == old(playerMap[n].hand)
      ensures ok && AllHumansBound() ==>
                && active && !paused
                && sent == [Status(ws, true)] + StateMsgs(None) + TurnMsgs()
                && board == old(board) && buckets == old(buckets)
                && stateVersion == old(stateVersion) && handNumber == old(handNumber)
      ensures ok && AllHumansBound() && old(paused) ==>
                && deck == old(deck) && nextPlayerIndex == old(nextPlayerIndex)
                && currentPlayer == old(currentPlayer) && dealer == old(dealer)
                && forall n :: n in playerMap ==> playerMap[n].hand == old(playerMap[n].hand)
      ensures ok && AllHumansBound() && !old(active) ==>
                && IsFirstBound(nextPlayerIndex)
                && dealer == playerMap[playerOrder[nextPlayerIndex]]
                && Dealt(old(deck), deck, HandsInOrder(), cardsPerHand)
    {
      ok, sent := BindPlayer(ws, name);
      if ok {
        var played := PlayIfAllJoined();
        sent := sent + played;
      }
    }

    /** `leaveGame` as written: a connected human player is unbound, the
        acknowledgement goes to the connection it had and the game summaries are
        pushed; an unknown, unconnected or bot name is refused. The game is not
        paused, so leaving a game in play leaves it running without that player. */
    method LeaveGameAsWritten(ws: ConnId, name: string) returns (ok: bool, sent: seq<Msg>)
      requires Valid()
      modifies Players()
      ensures Roster(playerOrder, playerMap) && Flags() && TurnOk()
      ensures ok == old(name in playerMap && playerMap[name].webSocket.Some? && !playerMap[name].isBot)
      ensures !ok ==> sent == [Status(ws, false)] && unchanged(Players())
      ensures ok ==>
                && sent == [Status(old(playerMap[name].webSocket.value), true), ConfigsBroadcast]
                && playerMap[name].webSocket == None
      ensures forall n :: n in playerMap && n != name ==> playerMap[n].webSocket == old(playerMap[n].webSocket)
      ensures forall n :: n in playerMap ==> playerMap[n].hand == old(playerMap[n].hand)
      ensures ok && active && !paused ==> JoinCompletes(name) && !Ready()
    {
      if name !in playerMap {
        return false, [Status(ws, false)];
      }
      var player := playerMap[name];
      if player.webSocket.None? || player.isBot {
        return false, [Status(ws, false)];
      }
      sent := [Status(player.webSocket.value, true)];
      player.webSocket := None;
      sent := sent + [ConfigsBroadcast];
      ok := true;
    }

    /** `leaveGame` corrected: as written, but an active game is paused, as a
        closed connection pauses it, so that the game invariant holds and a
        rejoin resumes play. */
    method LeaveGame(ws: ConnId, name: string) returns (ok: bool, sent: seq<Msg>)
      requires Valid()
      modifies this`paused, Players()
      ensures Valid()
      ensures ok == old(name in playerMap && playerMap[name].webSocket.Some? && !playerMap[name].isBot)
      ensures !ok ==> sent == [Status(ws, false)] && unchanged(this) && unchanged(Players())
      ensures ok ==>
                && sent == [Status(old(playerMap[name].webSocket.value), true), ConfigsBroadcast]
                && playerMap[name].webSocket == None
                && paused == active
      ensures forall n :: n in playerMap && n != name ==> playerMap[n].webSocket == old(playerMap[n].webSocket)
      ensures forall n :: n in playerMap ==> playerMap[n].hand == old(playerMap[n].hand)
    {
      ok, sent := LeaveGameAsWritten(ws, name);
      if ok && active {
        paused := true;
      }
    }

    /** The connections of the players, in roster order. */
    ghost function Connections(): (r: seq<Option<ConnId>>)
      reads Players()
      requires Roster(playerOrder, playerMap)
      ensures |r| == |playerOrder|
    {
      seq(|playerOrder|, k reads Players() requires 0 <= k < |playerOrder| => playerMap[playerOrder[k]].webSocket)
    }

    /** How many of the first `i` players of the roster are connected on `ws`. */
    ghost function BoundTo(ws: ConnId, i: nat): nat
      reads Players()
      requires Roster(playerOrder, playerMap) && i <= |playerOrder|
    {
      if i == 0 then 0
      else BoundTo(ws, i - 1) + (if playerMap[playerOrder[i - 1]].webSocket == Some(ws) then 1 else 0)
    }

    /** The count is positive exactly when some player below `i` is connected on `ws`. */
    lemma {:induction false} BoundToPositive(ws: ConnId, i: nat)
      requires Roster(playerOrder, playerMap) && i <= |playerOrder|
      ensures BoundTo(ws, i) > 0 <==> exists j :: 0 <= j < i && playerMap[playerOrder[j]].webSocket == Some(ws)
    {
      if i > 0 {
        BoundToPositive(ws, i - 1);
      }
    }

    /** `processSocketClose`: every player bound to the closed connection `ws`
        is unbound, with one summary push each, and an active game is paused
        when that happens; every other player is untouched. The loop does not
        change `active`, so pausing after it is the same as pausing inside it. */
    method ProcessSocketClose(ws: ConnId) returns (sent: seq<Msg>)
      requires Valid()
      modifies this`paused, Players()
      ensures Valid()
      ensures forall n :: n in playerMap ==>
                playerMap[n].webSocket == (if old(playerMap[n].webSocket) == Some(ws) then None else old(playerMap[n].webSocket))
      ensures forall n :: n in playerMap ==> playerMap[n].hand == old(playerMap[n].hand)
      ensures paused == (old(paused) || (active && exists n :: n in playerMap && old(playerMap[n].webSocket) == Some(ws)))
      ensures |sent| == old(BoundTo(ws, |playerOrder|))
      ensures forall m :: m in sent ==> m == ConfigsBroadcast
    {
      BoundToPositive(ws, |playerOrder|);
      ghost var hit := exists n :: n in playerMap && playerMap[n].webSocket == Some(ws);
      assert hit <==> BoundTo(ws, |playerOrder|) > 0 by {
        if hit {
          var n :| n in playerMap && playerMap[n].webSocket == Some(ws);
          var k :| 0 <= k < |playerOrder| && playerOrder[k] == n;
        }
      }
      sent := UnbindConnection(ws);
      if active && |sent| > 0 {
        paused := true;
      }
    }

    /** The loop of `processSocketClose`. */
    method UnbindConnection(ws: ConnId) returns (sent: seq<Msg>)
      requires Roster(playerOrder, playerMap)
      modifies Players()
      ensures forall n :: n in playerMap ==>
                playerMap[n].webSocket == (if old(playerMap[n].webSocket) == Some(ws) then None else old(playerMap[n].webSocket))
      ensures forall n :: n in playerMap ==> playerMap[n].hand == old(playerMap[n].hand)
      ensures |sent| == old(BoundTo(ws, |playerOrder|))
      ensures forall m :: m in sent ==> m == ConfigsBroadcast
    {
      var i := 0;
      sent := [];
      while i < |playerOrder|
        invariant 0 <= i <= |playerOrder|
        invariant forall n :: n in playerMap ==> playerMap[n].hand == old(playerMap[n].hand)
        invariant forall k :: 0 <= k < |playerOrder| ==>
                    playerMap[playerOrder[k]].webSocket ==
                      (if k < i && old(playerMap[playerOrder[k]].webSocket) == Some(ws) then None
                       else old(playerMap[playerOrder[k]].webSocket))
        invariant |sent| == old(BoundTo(ws, i))
        invariant forall m :: m in sent ==> m == ConfigsBroadcast
      {
        var player := playerMap[playerOrder[i]];
        if player.webSocket == Some(ws) {
          player.webSocket := None;
          sent := sent + [ConfigsBroadcast];
        }
        i := i + 1;
      }
    }

    // -----------------------------------------------------------------
    // Reconfiguration, deletion and summaries
    // -----------------------------------------------------------------

    /** The gate of `validateNewConfig`: the game is not in play and every
        connected player is also in the new roster `names`. */
    ghost predicate AcceptsRoster(names: seq<string>)
      reads this`active, Players()
    {
      !active && forall n :: n in playerMap && playerMap[n].webSocket.Some? ==> n in names
    }

    /** The game may be deleted: it is not in play and no player is connected. */
    ghost predicate Idle()
      reads this`active, Players()
    {
      !active && forall n :: n in playerMap ==> playerMap[n].webSocket.None?
    }

    /** `validateNewConfig`: refuses a reconfiguration of an active game or one
        that drops a connected player. Walking the current roster in order, it
        copies each connected player's connection onto the new player of the
        same name, stopping at the first one that is missing. */
    method ValidateNewConfig(ws: ConnId, newOrder: seq<string>, newMap: map<string, Player>)
      returns (ok: bool, sent: seq<Msg>)
      requires Roster(playerOrder, playerMap) && Roster(newOrder, newMap)
      requires newMap.Values !! Players()
      modifies newMap.Values
      ensures ok == old(AcceptsRoster(newOrder))
      ensures ok ==> sent == []
      ensures !ok ==> sent == [Status(ws, false)]
      ensures old(active) ==> unchanged(newMap.Values)
      ensures ok ==> forall n :: n in newMap ==>
                newMap[n].webSocket ==
                  (if n in playerMap && playerMap[n].webSocket.Some? then playerMap[n].webSocket else old(newMap[n].webSocket))
      ensures forall n :: n in newMap ==>
                newMap[n].webSocket == old(newMap[n].webSocket) ||
                (n in playerMap && newMap[n].webSocket == playerMap[n].webSocket)
      ensures forall n :: n in newMap ==> newMap[n].hand == old(newMap[n].hand)
    {
      if active {
        return false, [Status(ws, false)];
      }
      var i := 0;
      while i < |playerOrder|
        invariant 0 <= i <= |playerOrder|
        invariant forall j :: 0 <= j < i && playerMap[playerOrder[j]].webSocket.Some? ==> playerOrder[j] in newMap
        invariant forall n :: n in newMap ==> newMap[n].hand == old(newMap[n].hand)
        invariant forall k :: 0 <= k < i && playerMap[playerOrder[k]].webSocket.Some? ==>
                    newMap[playerOrder[k]].webSocket == playerMap[playerOrder[k]].webSocket
        invariant forall n :: n in newMap ==>
                    newMap[n].webSocket == old(newMap[n].webSocket) ||
                    (n in playerMap && playerMap[n].webSocket.Some? && newMap[n].webSocket == playerMap[n].webSocket)
      {
        var name := playerOrder[i];
        var player := playerMap[name];
        if player.webSocket.Some? {
          if name !in newMap {
            return false, [Status(ws, false)];
          }
          newMap[name].webSocket := player.webSocket;
        }
        i := i + 1;
      }
      forall n | n in playerMap && playerMap[n].webSocket.Some?
        ensures n in newMap
      {
        var j :| 0 <= j < |playerOrder| && playerOrder[j] == n;
      }
      return true, [];
    }

    /** The hand-over of a reconfiguration, run on the freshly reset new game:
        `prev`, the game registered under the same name, gates the new roster
        and copies its connections onto the new players of the same names. */
    method TakeOver(ws: ConnId, prev: Game) returns (ok: bool, sent: seq<Msg>)
      requires Valid() && !active
      requires Roster(prev.playerOrder, prev.playerMap) && Players() !! prev.Players()
      requires forall n :: n in playerMap ==> playerMap[n].webSocket == None
      modifies Players()
      ensures Valid() && !active
      ensures ok == prev.AcceptsRoster(playerOrder)
      ensures ok ==> sent == []
      ensures !ok ==> sent == [Status(ws, false)]
      ensures ok ==> forall n :: n in playerMap ==>
                playerMap[n].webSocket == if n in prev.playerMap then prev.playerMap[n].webSocket else None
      ensures forall n :: n in playerMap ==> playerMap[n].hand == old(playerMap[n].hand)
    {
      ok, sent := prev.ValidateNewConfig(ws, playerOrder, playerMap);
    }

    /** The names of the connected players up to roster position `i`, in roster order. */
    ghost function BoundNamesUpTo(i: nat): seq<string>
      reads Players()
      requires Roster(playerOrder, playerMap) && i <= |playerOrder|
    {
      if i == 0 then []
      else BoundNamesUpTo(i - 1) + (if playerMap[playerOrder[i - 1]].webSocket.Some? then [playerOrder[i - 1]] else [])
    }

    /** A name is among the connected names up to `i` exactly when it is a
        connected player at a roster position below `i`. */
    lemma {:induction false} BoundNamesUpToMembers(i: nat, n: string)
      requires Roster(playerOrder, playerMap) && i <= |playerOrder|
      ensures n in BoundNamesUpTo(i) <==>
                exists j :: 0 <= j < i && playerOrder[j] == n && playerMap[n].webSocket.Some?
    {
      if i > 0 {
        BoundNamesUpToMembers(i - 1, n);
        if playerOrder[i - 1] == n && playerMap[n].webSocket.Some? {
          assert n in BoundNamesUpTo(i);
        }
      }
    }

    /** The loop of `canDeleteGame`: the connected players' names, in roster order. */
    method JoinedPlayers() returns (names: seq<string>)
      requires Roster(playerOrder, playerMap)
      ensures names == BoundNamesUpTo(|playerOrder|)
      ensures forall n :: n in names <==> n in playerMap && playerMap[n].webSocket.Some?
    {
      names := [];
      var i := 0;
      while i < |playerOrder|
        invariant 0 <= i <= |playerOrder|
        invariant names == BoundNamesUpTo(i)
      {
        var player := playerMap[playerOrder[i]];
        if player.webSocket.Some? {
          names := names + [player.name];
        }
        i := i + 1;
      }
      forall n
        ensures n in names <==> n in playerMap && playerMap[n].webSocket.Some?
      {
        BoundNamesUpToMembers(|playerOrder|, n);
      }
    }

    /** `canDeleteGame` as written: the router calls it with no arguments, so
        when the game is active building the message reads a property of an
        undefined message and raises a TypeError. */
    method CanDeleteGameAsWritten() returns (r: DeleteCheck)
      requires Roster(playerOrder, playerMap)
      ensures active <==> r == Throws
      ensures !active ==> r.Deletable? || r.PlayersJoined?
      ensures !active ==> (r == Deletable <==> forall n :: n in playerMap ==> playerMap[n].webSocket.None?)
      ensures r.PlayersJoined? ==>
                && |r.names| > 0
                && forall n :: n in r.names <==> n in playerMap && playerMap[n].webSocket.Some?
    {
      if active {
        return Throws;
      }
      r := Joined();
    }

    /** `canDeleteGame` corrected: an active game is refused rather than raising. */
    method CanDeleteGame() returns (r: DeleteCheck)
      requires Roster(playerOrder, playerMap)
      ensures r != Throws
      ensures active <==> r == IsActive
      ensures r == Deletable <==> Idle()
      ensures r.PlayersJoined? ==>
                && |r.names| > 0
                && forall n :: n in r.names <==> n in playerMap && playerMap[n].webSocket.Some?
    {
      if active {
        return IsActive;
      }
      r := Joined();
    }

    /** The idle branch of `canDeleteGame`: deletable when no player is connected,
        otherwise refused with the connected names. */
    method Joined() returns (r: DeleteCheck)
      requires Roster(playerOrder, playerMap)
      ensures r.Deletable? || r.PlayersJoined?
      ensures r == Deletable <==> forall n :: n in playerMap ==> playerMap[n].webSocket.None?
      ensures r.PlayersJoined? ==>
                && |r.names| > 0
                && forall n :: n in r.names <==> n in playerMap && playerMap[n].webSocket.Some?
    {
      var names := JoinedPlayers();
      if |names| > 0 {
        assert names[0] in names;
        r := PlayersJoined(names);
      } else {
        r := Deletable;
        forall n | n in playerMap
          ensures playerMap[n].webSocket.None?
        {
          assert n !in names;
        }
      }
    }

    /** `appendConfig`: this game's entry of the GameConfigs list, one player
        summary per roster position telling whether that player is connected. */
    method AppendConfig() returns (summary: GameSummary)
      requires Roster(playerOrder, playerMap)
      ensures summary.gameName == gameName && summary.cardsPerHand == cardsPerHand
      ensures |summary.players| == |playerOrder|
      ensures forall k :: 0 <= k < |playerOrder| ==>
                && summary.players[k].name == playerOrder[k]
                && summary.players[k].isBot == playerMap[playerOrder[k]].isBot
                && (summary.players[k].connected <==> Connections()[k].Some?)
    {
      var players: seq<PlayerSummary> := [];
      var i := 0;
      while i < |playerOrder|
        invariant 0 <= i <= |playerOrder|
        invariant |players| == i
        invariant forall k :: 0 <= k < i ==>
                    && players[k].name == playerOrder[k]
                    && players[k].isBot == playerMap[playerOrder[k]].isBot
                    && (players[k].connected <==> Connections()[k].Some?)
      {
        var player := playerMap[playerOrder[i]];
        players := players + [PlayerSummary(player.name, player.isBot, player.webSocket.Some?)];
        i := i + 1;
      }
      summary := GameSummary(gameName, cardsPerHand, players);
    }

    // -----------------------------------------------------------------
    // Turns: hand done and state updates
    // -----------------------------------------------------------------

    /** The message matches the turn in progress: it names the current player and hand. */
    ghost predicate IsCurrentTurn(playerId: int, hand: int)
      reads this, currentPlayer
    {
      currentPlayer != null && playerId == currentPlayer.id && hand == handNumber
    }

    /** The hand `mover` holds after a move, computed from the state before it:
        its hand with the deck's front card, re-sorted, or the reported hand. */
    ghost function MovedHand(mover: Player, move: Move): seq<Card>
      reads this`deck, mover`hand
      requires move.DrawFromDeck? ==> |deck| > 0
    {
      if move.DrawFromDeck? then SortSequence(mover.hand + [deck[0]]) else move.hand
    }

    /** The snapshot of the state after `mover`'s move, computed from the state
        before it: stamped `now`, the reported board if any, buckets `[[]]`, and
        every player as before except `mover`, who holds its moved hand. */
    ghost function MovedSnapshot(mover: Player, msg: HandDoneMsg, now: int): Snapshot
      reads this`board, this`deck, Players(), mover`hand
      requires Roster(playerOrder, playerMap)
      requires msg.move.DrawFromDeck? ==> |deck| > 0
    {
      var hand := MovedHand(mover, msg.move);
      Snapshot(now, if msg.board.Some? then msg.board.value else board, [[]],
        seq(|playerOrder|, k reads Players() requires 0 <= k < |playerOrder| =>
          var p := playerMap[playerOrder[k]];
          if p == mover then PlayerState(p.name, p.id, hand, p.isBot) else StateOf(p)))
    }

    /** The broadcast that follows `mover`'s move: the moved snapshot, sent to
        every connected player. */
    ghost function MoveBroadcast(mover: Player, msg: HandDoneMsg, now: int): seq<Msg>
      reads this`board, this`deck, Players(), mover`hand
      requires Roster(playerOrder, playerMap)
      requires msg.move.DrawFromDeck? ==> |deck| > 0
    {
      StateMsgsUpTo(|playerOrder|, None, MovedSnapshot(mover, msg, now))
    }

    /** What a HandDone move did, between the state before it and now: a draw
        moved the deck's front card into `mover`'s re-sorted hand, with hand plus
        deck conserved; a played hand replaced `mover`'s hand and left the deck.
        The board is the reported one if any, the buckets are `[[]]`, the version
        is `now`, and every connection and every other player's hand is as it was. */
    twostate predicate MoveApplied(mover: Player, msg: HandDoneMsg, now: int)
      reads this`deck, this`board, this`buckets, this`stateVersion, Players()`hand, Players()`webSocket, mover`hand
    {
      && (if msg.move.DrawFromDeck? then
            && |old(deck)| > 0 && deck == old(deck)[1..]
            && mover.hand == SortSequence(old(mover.hand) + [old(deck)[0]])
            && multiset(mover.hand) + multiset(deck) == multiset(old(mover.hand)) + multiset(old(deck))
          else
            deck == old(deck) && mover.hand == msg.move.hand)
      && board == (if msg.board.Some? then msg.board.value else old(board))
      && buckets == [[]] && stateVersion == now
      && (forall n :: n in playerMap ==> playerMap[n].webSocket == old(playerMap[n].webSocket))
      && (forall n :: n in playerMap && playerMap[n] != mover ==> playerMap[n].hand == old(playerMap[n].hand))
    }

    /** The move itself: a draw takes the deck's front card into the current
        hand, re-sorted; a played hand replaces the current hand. */
    method MakeMove(move: Move)
      requires Valid() && active
      requires move.DrawFromDeck? ==> |deck| > 0
      modifies this`deck, currentPlayer`hand
      ensures currentPlayer.hand == old(MovedHand(currentPlayer, move))
      ensures move.DrawFromDeck? ==>
                && deck == old(deck)[1..]
                && multiset(currentPlayer.hand) + multiset(deck) == multiset(old(currentPlayer.hand)) + multiset(old(deck))
      ensures move.PlayedHand? ==> deck == old(deck)
    {
      if move.DrawFromDeck? {
        var newHand, card := DrawCard(currentPlayer.hand);
        currentPlayer.hand := newHand;
      } else {
        currentPlayer.hand := move.hand;
      }
    }

    /** The state change of the middle of `handDone`: the move, the reported
        board, empty buckets and the new version. The state it leaves has the
        moved snapshot. */
    method MoveAndStamp(msg: HandDoneMsg, now: int)
      requires Valid() && active
      requires msg.move.DrawFromDeck? ==> |deck| > 0
      modifies this`deck, this`board, this`buckets, this`stateVersion, currentPlayer`hand
      ensures Valid()
      ensures MoveApplied(currentPlayer, msg, now)
      ensures CurrentSnapshot() == old(MovedSnapshot(currentPlayer, msg, now))
    {
      ghost var moved := MovedSnapshot(currentPlayer, msg, now);
      MakeMove(msg.move);
      ghost var hand := currentPlayer.hand;
      ghost var rest := deck;
      UpdateGameState(msg.board, Some([[]]), None, now);
      assert currentPlayer.hand == hand && deck == rest;
      forall k | 0 <= k < |playerOrder|
        ensures PlayerStates()[k] == moved.playerInfo[k]
      {
        assert playerOrder[k] in playerMap;
      }
    }

    /** The middle of `handDone`: applies the move (a draw from the front of the
        deck, or the reported hand), takes the reported board, empties the
        buckets and broadcasts the new state to every connected player. */
    method ApplyMove(msg: HandDoneMsg, now: int) returns (sent: seq<Msg>)
      requires Valid() && active
      requires msg.move.DrawFromDeck? ==> |deck| > 0
      modifies this`deck, this`board, this`buckets, this`stateVersion, currentPlayer`hand
      ensures Valid()
      ensures MoveApplied(currentPlayer, msg, now)
      ensures |currentPlayer.hand| == 0 <==> msg.move == PlayedHand([])
      ensures old(MoveBroadcast(currentPlayer, msg, now)) == StateMsgs(None)
      ensures sent == old(MoveBroadcast(currentPlayer, msg, now))
    {
      MoveAndStamp(msg, now);
      sent := BroadcastGameState(None);
    }

    /** The advance branch of `handDone`: the turn passes to the next player of
        the roster (wrapping round to the first) and the hand number goes up by one. */
    method AdvanceTurn() returns (sent: seq<Msg>)
      requires Valid() && active
      modifies this`nextPlayerIndex, this`handNumber, this`currentPlayer
      ensures Valid() && active && paused == old(paused)
      ensures nextPlayerIndex == NextIndex(old(nextPlayerIndex), |playerOrder|)
      ensures handNumber == old(handNumber) + 1
      ensures currentPlayer == playerMap[playerOrder[nextPlayerIndex]]
      ensures sent == TurnMsgs()
    {
      nextPlayerIndex := NextIndex(nextPlayerIndex, |playerOrder|);
      handNumber := handNumber + 1;
      sent := PlayHand();
    }

    /** `handDone`: rejects a message that does not name the current player and
        hand, with an error and no other effect, and plays any other (`TakeTurn`). */
    method HandDone(ws: ConnId, msg: HandDoneMsg, now: int, picks: seq<nat>, resetNow: int)
      returns (outcome: TurnOutcome, sent: seq<Msg>)
      requires Valid() && active
      requires IsCurrentTurn(msg.playerId, msg.handNumber) && msg.move.DrawFromDeck? ==> |deck| > 0
      requires RandomIndices(picks, DeckSize)
      modifies this, Players()
      ensures Valid()
      ensures outcome == Rejected <==> !old(IsCurrentTurn(msg.playerId, msg.handNumber))
      ensures outcome == Rejected ==> sent == [Status(ws, false)] && unchanged(this) && unchanged(Players())
      ensures outcome == Won <==> old(IsCurrentTurn(msg.playerId, msg.handNumber)) && msg.move == PlayedHand([])
      ensures outcome == Advanced ==>
                && MoveApplied(old(currentPlayer), msg, now)
                && active && paused == old(paused)
                && nextPlayerIndex == (old(nextPlayerIndex) + 1) % |playerOrder|
                && handNumber == old(handNumber) + 1
                && currentPlayer == playerMap[playerOrder[nextPlayerIndex]]
                && dealer == old(dealer)
                && sent == [Status(ws, true)] + old(MoveBroadcast(currentPlayer, msg, now)) + TurnMsgs()
      ensures outcome == Won ==>
                && IsReset(resetNow)
                && currentPlayer == old(currentPlayer) && dealer == old(dealer)
                && (forall n :: n in playerMap ==>
                      playerMap[n].hand == (if old(playerMap[n].webSocket).Some? || playerMap[n] == old(currentPlayer) then [] else old(playerMap[n].hand)))
                && sent == [Status(ws, true)] + old(MoveBroadcast(currentPlayer, msg, now)) + [ConfigsBroadcast]
    {
      if msg.playerId != currentPlayer.id || msg.handNumber != handNumber {
        return Rejected, [Status(ws, false)];
      }
      ghost var turn := nextPlayerIndex;
      ModUnique(turn, |playerOrder|, 0, turn);
      NextIndexMod(turn, |playerOrder|);
      outcome, sent := TakeTurn(ws, msg, now, picks, resetNow);
    }

    /** The accepted path of `handDone`: a move that leaves the player without
        cards wins the hand (`WinHand`), any other passes the turn on
        (`PassTurn`). The hand is empty after the move exactly when the move
        reports an empty hand (`AcknowledgeMove`), so the branch is decided from
        the move before it is applied. */
    method TakeTurn(ws: ConnId, msg: HandDoneMsg, now: int, picks: seq<nat>, resetNow: int)
      returns (outcome: TurnOutcome, sent: seq<Msg>)
      requires Valid() && active
      requires msg.move.DrawFromDeck? ==> |deck| > 0
      requires RandomIndices(picks, DeckSize)
      modifies this, Players()
      ensures Valid() && outcome != Rejected
      ensures outcome == Won <==> msg.move == PlayedHand([])
      ensures outcome == Advanced ==>
                && MoveApplied(old(currentPlayer), msg, now)
                && active && paused == old(paused)
                && nextPlayerIndex == NextIndex(old(nextPlayerIndex), |playerOrder|)
                && handNumber == old(handNumber) + 1
                && currentPlayer == playerMap[playerOrder[nextPlayerIndex]]
                && dealer == old(dealer)
                && sent == [Status(ws, true)] + old(MoveBroadcast(currentPlayer, msg, now)) + TurnMsgs()
      ensures outcome == Won ==>
                && IsReset(resetNow)
                && currentPlayer == old(currentPlayer) && dealer == old(dealer)
                && (forall n :: n in playerMap ==>
                      playerMap[n].hand == (if old(playerMap[n].webSocket).Some? || playerMap[n] == old(currentPlayer) then [] else old(playerMap[n].hand)))
                && sent == [Status(ws, true)] + old(MoveBroadcast(currentPlayer, msg, now)) + [ConfigsBroadcast]
    {
      if msg.move == PlayedHand([]) {
        sent := WinHand(ws, msg, now, picks, resetNow);
        outcome := Won;
      } else {
        sent := PassTurn(ws, msg, now);
        outcome := Advanced;
      }
    }

    /** The won branch of `handDone`: the move is acknowledged, applied and
        broadcast, then the game is reset and the game summaries pushed. */
    method WinHand(ws: ConnId, msg: HandDoneMsg, now: int, picks: seq<nat>, resetNow: int) returns (sent: seq<Msg>)
      requires Valid() && active
      requires msg.move == PlayedHand([])
      requires RandomIndices(picks, DeckSize)
      modifies this, Players()
      ensures Valid() && buckets == [[]]
      ensures IsReset(resetNow)
      ensures currentPlayer == old(currentPlayer) && dealer == old(dealer)
      ensures forall n :: n in playerMap ==>
                playerMap[n].hand == (if old(playerMap[n].webSocket).Some? || playerMap[n] == old(currentPlayer) then [] else old(playerMap[n].hand))
      ensures sent == [Status(ws, true)] + old(MoveBroadcast(currentPlayer, msg, now)) + [ConfigsBroadcast]
    {
      var accepted := AcknowledgeMove(ws, msg, now);
      ResetGameState(picks, resetNow);
      sent := accepted + [ConfigsBroadcast];
    }

    /** The advance branch of `handDone`: the move is acknowledged, applied and
        broadcast, then the turn passes to the next player of the roster. */
    method PassTurn(ws: ConnId, msg: HandDoneMsg, now: int) returns (sent: seq<Msg>)
      requires Valid() && active
      requires msg.move.DrawFromDeck? ==> |deck| > 0
      requires msg.move != PlayedHand([])
      modifies this`deck, this`board, this`buckets, this`stateVersion, currentPlayer`hand
      modifies this`nextPlayerIndex, this`handNumber, this`currentPlayer
      ensures Valid() && buckets == [[]]
      ensures MoveApplied(old(currentPlayer), msg, now)
      ensures active && paused == old(paused)
      ensures nextPlayerIndex == NextIndex(old(nextPlayerIndex), |playerOrder|)
      ensures handNumber == old(handNumber) + 1
      ensures currentPlayer == playerMap[playerOrder[nextPlayerIndex]]
      ensures sent == [Status(ws, true)] + old(MoveBroadcast(currentPlayer, msg, now)) + TurnMsgs()
    {
      var accepted := AcknowledgeMove(ws, msg, now);
      var turn := AdvanceTurn();
      sent := accepted + turn;
    }

    /** The first half of the accepted path: the sender is acknowledged, then the
        move is applied and the new state broadcast (`ApplyMove`); the turn is
        not touched. */
    method AcknowledgeMove(ws: ConnId, msg: HandDoneMsg, now: int) returns (sent: seq<Msg>)
      requires Valid() && active
      requires msg.move.DrawFromDeck? ==> |deck| > 0
      modifies this`deck, this`board, this`buckets, this`stateVersion, currentPlayer`hand
      ensures Valid() && active && paused == old(paused)
      ensures MoveApplied(currentPlayer, msg, now)
      ensures |currentPlayer.hand| == 0 <==> msg.move == PlayedHand([])
      ensures sent == [Status(ws, true)] + old(MoveBroadcast(currentPlayer, msg, now))
    {
      var broadcast := ApplyMove(msg, now);
      sent := [Status(ws, true)] + broadcast;
    }

    /** `receiveStateUpdate`: an update on an inactive game is refused. Any other
        update is acknowledged, but only one naming the current player and hand
        is applied and re-broadcast to everyone except the sender. */
    method ReceiveStateUpdate(ws: ConnId, msg: StateUpdateMsg, now: int) returns (sent: seq<Msg>)
      requires Valid()
      modifies this`board, this`buckets, this`stateVersion, Players()`hand
      ensures Valid()
      ensures !old(active) ==> sent == [Status(ws, false)] && unchanged(this) && unchanged(Players())
      ensures old(active) && !old(IsCurrentTurn(msg.playerId, msg.handNumber)) ==>
                sent == [Status(ws, true)] && unchanged(this) && unchanged(Players())
      ensures old(active) && old(IsCurrentTurn(msg.playerId, msg.handNumber)) ==>
                && board == (if msg.board.Some? then msg.board.value else old(board))
                && buckets == (if msg.buckets.Some? then msg.buckets.value else old(buckets))
                && currentPlayer.hand == (if msg.hand.Some? then msg.hand.value else old(currentPlayer.hand))
                && stateVersion == now
                && (forall n :: n in playerMap ==> playerMap[n].webSocket == old(playerMap[n].webSocket))
                && (forall n :: n in playerMap && playerMap[n] != currentPlayer ==> playerMap[n].hand == old(playerMap[n].hand))
                && sent == [Status(ws, true)] + StateMsgs(Some(ws))
    {
      if !active {
        return [Status(ws, false)];
      }
      sent := [Status(ws, true)];
      if msg.handNumber == handNumber && msg.playerId == currentPlayer.id {
        UpdateGameState(msg.board, msg.buckets, msg.hand, now);
        var broadcast := BroadcastGameState(Some(ws));
        sent := sent + broadcast;
      }
    }
  }
}
