/**
 * The registry of games: lookup by name, installing a new or replacement
 * configuration, and deleting an idle game.
 */
module Registry {
  import opened Wrappers
  import opened Cards
  import opened Protocol
  import opened Session

  /** Why a ConfigGame message is refused before any game is consulted. The
      index names the first offending roster entry. */
  datatype ConfigError =
    | MissingConfig
    | TooFewPlayers
    | BadGameInfo
    | BadPlayerInfo(index: nat)
    | EmptyName(index: nat)
    | DuplicateName(index: nat)
    | NoHuman

  /** The player ids handed out start here. */
  const FirstPlayerId: nat := 1000

  /** The names of a roster, in order. */
  function Names(players: seq<PlayerInfo>): seq<string>
  {
    seq(|players|, k requires 0 <= k < |players| => players[k].name)
  }

  /** Some entry below `i` carries `name`. */
  function Seen(players: seq<PlayerInfo>, name: string, i: nat): bool
    requires i <= |players|
  {
    i > 0 && (Seen(players, name, i - 1) || players[i - 1].name == name)
  }

  lemma {:induction false} SeenExists(players: seq<PlayerInfo>, name: string, i: nat)
    requires i <= |players|
    ensures Seen(players, name, i) <==> exists k :: 0 <= k < i && players[k].name == name
  {
    if i > 0 {
      SeenExists(players, name, i - 1);
    }
  }

  /** The first failure among the first `i` roster entries, checked in order:
      the player validator, an empty name, a name used by an earlier entry. */
  function RosterError(players: seq<PlayerInfo>, validPlayer: PlayerInfo -> bool, i: nat): Option<ConfigError>
    requires i <= |players|
  {
    if i == 0 then None
    else if RosterError(players, validPlayer, i - 1).Some? then RosterError(players, validPlayer, i - 1)
    else if !validPlayer(players[i - 1]) then Some(BadPlayerInfo(i - 1))
    else if |players[i - 1].name| == 0 then Some(EmptyName(i - 1))
    else if Seen(players, players[i - 1].name, i - 1) then Some(DuplicateName(i - 1))
    else None
  }

  /** Once a prefix of the roster has failed, every longer prefix fails the same way. */
  lemma {:induction false} RosterErrorSticks(players: seq<PlayerInfo>, validPlayer: PlayerInfo -> bool, j: nat, n: nat)
    requires j <= n <= |players| && RosterError(players, validPlayer, j).Some?
    ensures RosterError(players, validPlayer, n) == RosterError(players, validPlayer, j)
  {
    if n > j {
      RosterErrorSticks(players, validPlayer, j, n - 1);
    }
  }

  /** The message-level checks of `processConfigGameMsg`, in the order it makes them. */
  function ConfigCheck(config: Option<GameInfo>, validGame: GameInfo -> bool, validPlayer: PlayerInfo -> bool)
    : Option<ConfigError>
  {
    if config.None? then Some(MissingConfig)
    else if |config.value.players| < 2 then Some(TooFewPlayers)
    else if !validGame(config.value) then Some(BadGameInfo)
    else if RosterError(config.value.players, validPlayer, |config.value.players|).Some? then
      RosterError(config.value.players, validPlayer, |config.value.players|)
    else if forall k :: 0 <= k < |config.value.players| ==> config.value.players[k].isBot then Some(NoHuman)
    else None
  }

  /** Every entry below `i` passes the validator, has a non-empty name, and no
      two entries below `i` share a name. */
  ghost predicate GoodRoster(players: seq<PlayerInfo>, validPlayer: PlayerInfo -> bool, i: nat)
    requires i <= |players|
  {
    && (forall k :: 0 <= k < i ==> validPlayer(players[k]) && |players[k].name| > 0)
    && (forall j, k :: 0 <= j < k < i ==> players[j].name != players[k].name)
  }

  lemma {:induction false} RosterErrorNone(players: seq<PlayerInfo>, validPlayer: PlayerInfo -> bool, i: nat)
    requires i <= |players|
    ensures RosterError(players, validPlayer, i).None? <==> GoodRoster(players, validPlayer, i)
  {
    if i > 0 {
      RosterErrorNone(players, validPlayer, i - 1);
      SeenExists(players, players[i - 1].name, i - 1);
    }
  }

  /** A configuration passes the message-level checks exactly when it is
      present, names at least two players, passes both validators, has
      non-empty distinct names, and has at least one human. */
  lemma ConfigCheckNone(config: Option<GameInfo>, validGame: GameInfo -> bool, validPlayer: PlayerInfo -> bool)
    ensures ConfigCheck(config, validGame, validPlayer).None? <==>
              && config.Some?
              && |config.value.players| >= 2
              && validGame(config.value)
              && GoodRoster(config.value.players, validPlayer, |config.value.players|)
              && exists k :: 0 <= k < |config.value.players| && !config.value.players[k].isBot
  {
    if config.Some? {
      RosterErrorNone(config.value.players, validPlayer, |config.value.players|);
    }
  }

  /** Some entry below `i` is a human player. */
  function SomeHuman(players: seq<PlayerInfo>, i: nat): bool
    requires i <= |players|
  {
    i > 0 && (SomeHuman(players, i - 1) || !players[i - 1].isBot)
  }

  lemma {:induction false} SomeHumanExists(players: seq<PlayerInfo>, i: nat)
    requires i <= |players|
    ensures SomeHuman(players, i) <==> exists k :: 0 <= k < i && !players[k].isBot
  {
    if i > 0 {
      SomeHumanExists(players, i - 1);
    }
  }

  /** Adding a new name with its own player keeps a roster well-formed. */
  lemma RosterAdd(order: seq<string>, players: map<string, Player>, name: string, p: Player)
    requires Roster(order, players) && name !in players && p.name == name
    ensures Roster(order + [name], players[name := p])
  {
    forall i, j | 0 <= i < j < |order| + 1
      ensures (order + [name])[i] != (order + [name])[j]
    {
      if j == |order| {
        assert order[i] in players;
      }
    }
  }

  /** `order` and `playerMap` hold the first `i` roster entries: their names
      in order, one Player per name with the entry's bot flag, and ids handed
      out consecutively from `first`. */
  ghost predicate Built(players: seq<PlayerInfo>, i: nat, order: seq<string>, playerMap: map<string, Player>, first: nat)
    requires i <= |players|
  {
    && |order| == i
    && Roster(order, playerMap)
    && forall k :: 0 <= k < i ==>
         && order[k] == players[k].name
         && playerMap[order[k]].isBot == players[k].isBot && playerMap[order[k]].id == first + k
  }

  /** Every player of `playerMap` is as the Player constructor leaves it: no
      cards and no connection. */
  ghost predicate Unbound(playerMap: map<string, Player>)
    reads playerMap.Values
  {
    forall n :: n in playerMap ==> playerMap[n].hand == [] && playerMap[n].webSocket == None
  }

  lemma BuiltStep(players: seq<PlayerInfo>, i: nat, order: seq<string>, playerMap: map<string, Player>,
                  first: nat, p: Player)
    requires i < |players| && Built(players, i, order, playerMap, first)
    requires players[i].name !in playerMap
    requires p.name == players[i].name && p.isBot == players[i].isBot && p.id == first + i
    ensures Built(players, i + 1, order + [players[i].name], playerMap[players[i].name := p], first)
  {
    RosterAdd(order, playerMap, players[i].name, p);
    forall k | 0 <= k < i
      ensures (order + [players[i].name])[k] in playerMap
    {
      assert order[k] in order;
    }
  }

  /** The check of entry `i`, once the entries before it have passed and are
      registered in `playerMap`. */
  lemma RosterErrorNext(players: seq<PlayerInfo>, validPlayer: PlayerInfo -> bool, i: nat,
                        order: seq<string>, playerMap: map<string, Player>, first: nat)
    requires i < |players| && RosterError(players, validPlayer, i).None?
    requires Built(players, i, order, playerMap, first)
    ensures RosterError(players, validPlayer, i + 1) ==
              if !validPlayer(players[i]) then Some(BadPlayerInfo(i))
              else if |players[i].name| == 0 then Some(EmptyName(i))
              else if players[i].name in playerMap then Some(DuplicateName(i))
              else None
  {
    SeenExists(players, players[i].name, i);
    if players[i].name in playerMap {
      var k :| 0 <= k < |order| && order[k] == players[i].name;
    }
  }

  class Server {
    var gameMap: map<string, Game>
    var nextPlayerId: nat

    /** Every installed game is filed under its own name and has a well-formed roster. */
    ghost predicate Valid()
      reads this
    {
      forall n :: n in gameMap ==> gameMap[n].gameName == n && Roster(gameMap[n].playerOrder, gameMap[n].playerMap)
    }

    constructor ()
      ensures Valid() && gameMap == map[] && nextPlayerId == FirstPlayerId
    {
      gameMap := map[];
      nextPlayerId := FirstPlayerId;
    }

    /** `lookupGame`: the game filed under `name`, or an error to the requester. */
    method LookupGame(ws: ConnId, name: string) returns (game: Game?, sent: seq<Msg>)
      ensures name in gameMap ==> game == gameMap[name] && sent == []
      ensures name !in gameMap ==> game == null && sent == [Status(ws, false)]
    {
      if name in gameMap {
        return gameMap[name], [];
      }
      return null, [Status(ws, false)];
    }

    /** The roster loop of `processConfigGameMsg`: validates each entry in
        order and creates its Player with the next id, stopping at the first
        bad entry. Ids are consumed by every Player created, even when a
        later entry is then refused. */
    method BuildRoster(players: seq<PlayerInfo>, validPlayer: PlayerInfo -> bool)
      returns (err: Option<ConfigError>, order: seq<string>, playerMap: map<string, Player>, human: bool)
      modifies this`nextPlayerId
      ensures err == RosterError(players, validPlayer, |players|)
      ensures nextPlayerId >= old(nextPlayerId)
      ensures err.None? ==>
                && Built(players, |players|, order, playerMap, old(nextPlayerId))
                && nextPlayerId == old(nextPlayerId) + |players|
                && (human <==> exists k :: 0 <= k < |players| && !players[k].isBot)
      ensures err.None? ==> Unbound(playerMap) && forall n :: n in playerMap ==> fresh(playerMap[n])
    {
      err := None;
      order := [];
      playerMap := map[];
      human := false;
      ghost var first := nextPlayerId;
      var i := 0;
      while i < |players|
        invariant 0 <= i <= |players|
        invariant RosterError(players, validPlayer, i).None?
        invariant Built(players, i, order, playerMap, first)
        invariant nextPlayerId == first + i
        invariant human == SomeHuman(players, i)
        invariant Unbound(playerMap)
        invariant forall n :: n in playerMap ==> fresh(playerMap[n])
      {
        var info := players[i];
        RosterErrorNext(players, validPlayer, i, order, playerMap, first);
        if !validPlayer(info) || |info.name| == 0 || info.name in playerMap {
          err := if !validPlayer(info) then Some(BadPlayerInfo(i))
                 else if |info.name| == 0 then Some(EmptyName(i))
                 else Some(DuplicateName(i));
          RosterErrorSticks(players, validPlayer, i + 1, |players|);
          return;
        }
        // The entry passed; the new player leaves that verdict as it was.
        ghost var passed := RosterError(players, validPlayer, i + 1);
        assert passed.None?;
        order, playerMap, human := AddPlayer(players, i, order, playerMap, human, first);
        assert RosterError(players, validPlayer, i + 1) == passed;
        i := i + 1;
      }
      SomeHumanExists(players, i);
    }

    /** One pass of the roster loop that passed the checks: registers entry
        `i` under its name as a new, unconnected player with the next id, and
        notes whether it is a human. */
    method AddPlayer(players: seq<PlayerInfo>, i: nat, order: seq<string>, playerMap: map<string, Player>,
                     human: bool, ghost first: nat)
      returns (order': seq<string>, playerMap': map<string, Player>, human': bool)
      requires i < |players| && Built(players, i, order, playerMap, first)
      requires players[i].name !in playerMap && nextPlayerId == first + i
      requires human == SomeHuman(players, i) && Unbound(playerMap)
      modifies this`nextPlayerId
      ensures Built(players, i + 1, order', playerMap', first) && nextPlayerId == first + i + 1
      ensures human' == SomeHuman(players, i + 1)
      ensures players[i].name in playerMap' && playerMap' == playerMap[players[i].name := playerMap'[players[i].name]]
      ensures fresh(playerMap'[players[i].name])
      ensures Unbound(playerMap')
    {
      var info := players[i];
      var player := new Player(info.name, info.isBot, nextPlayerId);
      BuiltStep(players, i, order, playerMap, first, player);
      nextPlayerId := nextPlayerId + 1;
      playerMap' := playerMap[info.name := player];
      human' := human || !info.isBot;
      order' := order + [info.name];
    }

    /** The configuration `msg` installs, when every check passes: the
        message-level checks, then, for a name already in use, the existing
        game's gate. */
    ghost predicate Accepted(msg: ConfigGameMsg, validGame: GameInfo -> bool, validPlayer: PlayerInfo -> bool)
      reads this, set n | n in gameMap :: gameMap[n], set n, p | n in gameMap && p in gameMap[n].Players() :: p
    {
      && ConfigCheck(msg.config, validGame, validPlayer).None?
      && (msg.config.value.gameName in gameMap ==>
            gameMap[msg.config.value.gameName].AcceptsRoster(Names(msg.config.value.players)))
    }

    /** `processConfigGameMsg` as written: after the checks, the existing game
        copies its connections onto the new players, but constructing the new
        Game resets it, which unbinds every connected player, so the copies are
        lost and the new game starts with nobody joined. */
    method ProcessConfigGameMsgAsWritten(ws: ConnId, msg: ConfigGameMsg, validGame: GameInfo -> bool,
                                          validPlayer: PlayerInfo -> bool, picks: seq<nat>, now: int)
      returns (sent: seq<Msg>)
      requires Valid() && RandomIndices(picks, DeckSize)
      modifies this
      ensures Valid() && nextPlayerId >= old(nextPlayerId)
      ensures !old(Accepted(msg, validGame, validPlayer)) ==> sent == [Status(ws, false)] && gameMap == old(gameMap)
      ensures old(Accepted(msg, validGame, validPlayer)) ==>
                var name := msg.config.value.gameName;
                && sent == [Status(ws, true), ConfigsBroadcast]
                && name in gameMap && fresh(gameMap[name])
                && gameMap == old(gameMap)[name := gameMap[name]]
                && gameMap[name].Valid() && !gameMap[name].active
                && gameMap[name].playerOrder == Names(msg.config.value.players)
                && gameMap[name].cardsPerHand == msg.config.value.cardsPerHand
                && nextPlayerId == old(nextPlayerId) + |msg.config.value.players|
                && !gameMap[name].paused && gameMap[name].board == [] && gameMap[name].buckets == [[]]
                && gameMap[name].stateVersion == now && gameMap[name].handNumber == now
                && (forall n :: n in gameMap[name].playerMap ==> gameMap[name].playerMap[n].hand == [])
                && Built(msg.config.value.players, |msg.config.value.players|,
                         gameMap[name].playerOrder, gameMap[name].playerMap, old(nextPlayerId))
                && forall n :: n in gameMap[name].playerMap ==> gameMap[name].playerMap[n].webSocket == None
    {
      var ok, order, playerMap, cardsPerHand;
      ok, order, playerMap, cardsPerHand, sent := CheckConfig(ws, msg, validGame, validPlayer);
      if !ok {
        return;
      }
      var name := msg.config.value.gameName;
      if name in gameMap {
        var accepted, refusal := gameMap[name].ValidateNewConfig(ws, order, playerMap);
        if !accepted {
          return refusal;
        }
      }
      var game := new Game(name, order, playerMap, cardsPerHand, picks, now);
      gameMap := gameMap[name := game];
      sent := [Status(ws, true), ConfigsBroadcast];
    }

    /** `processConfigGameMsg` corrected: the new Game is constructed first and
        the existing game's check and copy run on its players afterwards, so
        the connected players stay joined in the new configuration. */
    method ProcessConfigGameMsg(ws: ConnId, msg: ConfigGameMsg, validGame: GameInfo -> bool,
                                validPlayer: PlayerInfo -> bool, picks: seq<nat>, now: int)
      returns (sent: seq<Msg>)
      requires Valid() && RandomIndices(picks, DeckSize)
      modifies this
      ensures Valid() && nextPlayerId >= old(nextPlayerId)
      ensures !old(Accepted(msg, validGame, validPlayer)) ==> sent == [Status(ws, false)] && gameMap == old(gameMap)
      ensures old(Accepted(msg, validGame, validPlayer)) ==>
                var name := msg.config.value.gameName;
                && sent == [Status(ws, true), ConfigsBroadcast]
                && name in gameMap && fresh(gameMap[name])
                && gameMap == old(gameMap)[name := gameMap[name]]
                && gameMap[name].Valid() && !gameMap[name].active
                && gameMap[name].playerOrder == Names(msg.config.value.players)
                && gameMap[name].cardsPerHand == msg.config.value.cardsPerHand
                && nextPlayerId == old(nextPlayerId) + |msg.config.value.players|
                && !gameMap[name].paused && gameMap[name].board == [] && gameMap[name].buckets == [[]]
                && gameMap[name].stateVersion == now && gameMap[name].handNumber == now
                && (forall n :: n in gameMap[name].playerMap ==> gameMap[name].playerMap[n].hand == [])
                && Built(msg.config.value.players, |msg.config.value.players|,
                         gameMap[name].playerOrder, gameMap[name].playerMap, old(nextPlayerId))
                && forall n :: n in gameMap[name].playerMap ==>
                     gameMap[name].playerMap[n].webSocket ==
                       if name in old(gameMap) && n in old(gameMap[name].playerMap)
                       then old(gameMap[name].playerMap[n].webSocket)
                       else None
    {
      var ok, order, playerMap, cardsPerHand;
      ok, order, playerMap, cardsPerHand, sent := CheckConfig(ws, msg, validGame, validPlayer);
      if !ok {
        return;
      }
      sent := Install(ws, msg.config.value.gameName, order, playerMap, cardsPerHand, picks, now);
    }

    /** The registry update of the corrected `processConfigGameMsg`, for a
        roster of newly created players: the new Game is constructed, then a
        game already registered under `name` gates it and hands over its
        connections. */
    method Install(ws: ConnId, name: string, order: seq<string>, playerMap: map<string, Player>,
                   cardsPerHand: nat, picks: seq<nat>, now: int)
      returns (sent: seq<Msg>)
      requires Valid() && RandomIndices(picks, DeckSize) && Roster(order, playerMap)
      requires forall g :: g in gameMap.Values ==> playerMap.Values !! g.Players()
      modifies this, playerMap.Values
      ensures Valid() && nextPlayerId == old(nextPlayerId)
      ensures name in old(gameMap) && !old(gameMap[name].AcceptsRoster(order)) ==>
                sent == [Status(ws, false)] && gameMap == old(gameMap)
      ensures !(name in old(gameMap) && !old(gameMap[name].AcceptsRoster(order))) ==>
                && sent == [Status(ws, true), ConfigsBroadcast]
                && name in gameMap && fresh(gameMap[name])
                && gameMap == old(gameMap)[name := gameMap[name]]
                && gameMap[name].Valid() && !gameMap[name].active
                && gameMap[name].playerOrder == order && gameMap[name].playerMap == playerMap
                && gameMap[name].cardsPerHand == cardsPerHand
                && !gameMap[name].paused && gameMap[name].board == [] && gameMap[name].buckets == [[]]
                && gameMap[name].stateVersion == now && gameMap[name].handNumber == now
                && (forall n :: n in playerMap ==>
                      playerMap[n].hand == if old(playerMap[n].webSocket).Some? then [] else old(playerMap[n].hand))
                && forall n :: n in playerMap ==>
                     playerMap[n].webSocket ==
                       if name in old(gameMap) && n in old(gameMap)[name].playerMap
                       then old(gameMap)[name].playerMap[n].webSocket
                       else None
    {
      var game := new Game(name, order, playerMap, cardsPerHand, picks, now);
      if name in gameMap {
        var accepted, refusal := game.TakeOver(ws, gameMap[name]);
        if !accepted {
          return refusal;
        }
      }
      gameMap := gameMap[name := game];
      sent := [Status(ws, true), ConfigsBroadcast];
    }

    /** The message-level part of `processConfigGameMsg`: the checks in order,
        with the roster built along the way. */
    method CheckConfig(ws: ConnId, msg: ConfigGameMsg, validGame: GameInfo -> bool, validPlayer: PlayerInfo -> bool)
      returns (ok: bool, order: seq<string>, playerMap: map<string, Player>, cardsPerHand: nat, sent: seq<Msg>)
      modifies this`nextPlayerId
      ensures ok == ConfigCheck(msg.config, validGame, validPlayer).None?
      ensures nextPlayerId >= old(nextPlayerId)
      ensures !ok ==> sent == [Status(ws, false)]
      ensures ok ==>
                && order == Names(msg.config.value.players)
                && Built(msg.config.value.players, |msg.config.value.players|, order, playerMap, old(nextPlayerId))
                && nextPlayerId == old(nextPlayerId) + |msg.config.value.players|
                && cardsPerHand == msg.config.value.cardsPerHand
                && Unbound(playerMap)
                && forall n :: n in playerMap ==> fresh(playerMap[n])
    {
      sent := [Status(ws, false)];
      order, playerMap, cardsPerHand := [], map[], 0;
      if msg.config.None? {
        return false, order, playerMap, cardsPerHand, sent;
      }
      var config := msg.config.value;
      if |config.players| < 2 || !validGame(config) {
        return false, order, playerMap, cardsPerHand, sent;
      }
      var err, human;
      err, order, playerMap, human := BuildRoster(config.players, validPlayer);
      if err.Some? || !human {
        return false, order, playerMap, cardsPerHand, sent;
      }
      return true, order, playerMap, config.cardsPerHand, [];
    }

    /** `processDeleteGameMsg` as written: the check is called without the
        message, so for an active game it raises instead of refusing; nothing
        is sent and the registry is unchanged. */
    method ProcessDeleteGameMsgAsWritten(ws: ConnId, name: string) returns (thrown: bool, sent: seq<Msg>)
      requires Valid()
      modifies this`gameMap
      ensures Valid()
      ensures thrown <==> name in old(gameMap) && old(gameMap[name].active)
      ensures thrown ==> sent == [] && gameMap == old(gameMap)
      ensures name !in old(gameMap) ==> sent == [Status(ws, false)] && gameMap == old(gameMap)
      ensures name in old(gameMap) && !thrown ==>
                if old(gameMap[name].Idle())
                then sent == [ConfigsBroadcast] && gameMap == old(gameMap) - {name}
                else sent == [Status(ws, false)] && gameMap == old(gameMap)
    {
      var game;
      game, sent := LookupGame(ws, name);
      if game == null {
        return false, sent;
      }
      var check := game.CanDeleteGameAsWritten();
      if check == Throws {
        return true, [];
      }
      thrown := false;
      if check != Deletable {
        return false, [Status(ws, false)];
      }
      gameMap := gameMap - {name};
      sent := [ConfigsBroadcast];
    }

    /** `processDeleteGameMsg` corrected: a game that is in play or has a
        connected player is refused with an error; an idle one is removed and
        the game summaries are pushed. */
    method ProcessDeleteGameMsg(ws: ConnId, name: string) returns (sent: seq<Msg>)
      requires Valid()
      modifies this`gameMap
      ensures Valid()
      ensures name in old(gameMap) && old(gameMap[name].Idle()) ==>
                sent == [ConfigsBroadcast] && gameMap == old(gameMap) - {name}
      ensures !(name in old(gameMap) && old(gameMap[name].Idle())) ==>
                sent == [Status(ws, false)] && gameMap == old(gameMap)
    {
      var game;
      game, sent := LookupGame(ws, name);
      if game == null {
        return;
      }
      var check := game.CanDeleteGame();
      if check != Deletable {
        return [Status(ws, false)];
      }
      gameMap := gameMap - {name};
      sent := [ConfigsBroadcast];
    }
  }
}
