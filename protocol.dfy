/**
 * The values that cross the connection boundary: connection identities,
 * the inbound messages the session and registry act on (already decoded),
 * and the outbound messages they send.
 */
module Protocol {
  import opened Wrappers
  import opened Cards

  /** Identity of one client connection; only compared, never inspected. */
  datatype ConnId = ConnId(n: nat)

  /** The board is client-structured: a sequence of card piles. */
  type Board = seq<seq<Card>>
  type Buckets = seq<seq<Card>>

  // ---- inbound ----------------------------------------------------------

  /** What a HandDone message asks for: draw one card from the deck, or
      replace the hand with the one the client reports. */
  datatype Move = DrawFromDeck | PlayedHand(hand: seq<Card>)

  datatype HandDoneMsg = HandDoneMsg(playerId: int, handNumber: int, board: Option<Board>, move: Move)

  datatype StateUpdateMsg = StateUpdateMsg(
    playerId: int, handNumber: int,
    board: Option<Board>, buckets: Option<Buckets>, hand: Option<seq<Card>>)

  /** One roster entry of a ConfigGame message. */
  datatype PlayerInfo = PlayerInfo(name: string, isBot: bool)

  /** The `config` property of a ConfigGame message. */
  datatype GameInfo = GameInfo(gameName: string, cardsPerHand: nat, players: seq<PlayerInfo>)

  /** A ConfigGame message; its `config` property may be missing. */
  datatype ConfigGameMsg = ConfigGameMsg(config: Option<GameInfo>)

  // ---- outbound ---------------------------------------------------------

  /** One player's entry of a game-state snapshot. */
  datatype PlayerState = PlayerState(name: string, id: nat, hand: seq<Card>, isBot: bool)

  /** The GameStateUpdate payload. */
  datatype Snapshot = Snapshot(version: int, board: Board, buckets: Buckets, playerInfo: seq<PlayerState>)

  /** One player's entry of a game summary. */
  datatype PlayerSummary = PlayerSummary(name: string, isBot: bool, connected: bool)

  /** One game's entry of the GameConfigs list. */
  datatype GameSummary = GameSummary(gameName: string, cardsPerHand: nat, players: seq<PlayerSummary>)

  /** A message sent on a connection. `ConfigsBroadcast` stands for one push of
      the full game-summary list to every open connection. */
  datatype Msg =
    | Status(to: ConnId, ok: bool)
    | GameState(to: ConnId, snapshot: Snapshot)
    | PlayHand(to: ConnId, playerId: nat, isBot: bool, hand: seq<Card>, handNumber: int)
    | ConfigsBroadcast
}
