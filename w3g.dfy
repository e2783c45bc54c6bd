/** The decoded replay stream as the replay-decoding library delivers it. The
    container format itself is not part of this model: these values are the
    interpreter's input. */
module W3g {
  import opened Wrappers

  /** One decoded player action. `id` is the opcode; the other fields are
      filled for the opcodes that carry them. Game object ids arrive as arrays
      of numbers: four character codes, or a pair whose second element is the
      packed id. */
  datatype Action = Action(
    id: int,
    orderId: Option<seq<int>>,
    orderId1: Option<seq<int>>,
    target: Option<seq<int>>,
    itemId: seq<int>,
    cacheKey: Option<string>)

  /** The actions one player issued in one time slot. */
  datatype CommandBlock = CommandBlock(playerId: int, actions: seq<Action>)

  /** A game-data block: time slots (ids 30 and 31) carry a time increment in
      milliseconds and command blocks; a leave block (id 0x17) names the player
      who left. */
  datatype GameDataBlock = GameDataBlock(
    id: int,
    timeIncrement: nat,
    commandBlocks: seq<CommandBlock>,
    playerId: int)

  /** A roster entry from the replay metadata. */
  datatype PlayerRecord = PlayerRecord(playerId: int, playerName: string)
}
