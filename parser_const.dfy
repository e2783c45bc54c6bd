/** The interpreter's tuning constants: the leaver threshold and the
    same-event lag table used by event deduplication. */
module ParserConst {

  /** The semantic event types a player can accumulate. */
  datatype PlayerEvent =
    | INITIAL_RACE | BAN_RACE | REPICK_RACE | HERO_BUY | BASE_UPGRADE | TOWER_UPGRADE
    | UP_FORT2 | UP_FORT3 | UP_BARRACK2 | UP_BARRACK3 | UP_BARRACK4
    | USE_ULTIMATE | UNIT_BUY | CANCEL_UPGRADE | BONUS_UPGRADE

  /** A player whose time alive is below this many milliseconds (18 minutes)
      counts as a leaver. */
  const TIME_TO_COUNT_PLAYER_AS_LEAVER: int := 18 * 60 * 1000

  /** A dedup window in milliseconds, or the source's `Infinity`. */
  datatype Lag = Finite(ms: nat) | Unbounded

  const DEFAULT_LAG: nat := 1500

  /** `SAME_EVENT_LAG[eventType] ?? SAME_EVENT_LAG.default`. */
  function SameEventLag(t: PlayerEvent): (lag: Lag)
    ensures lag.Unbounded? <==> t == UP_FORT2 || t == UP_FORT3
    ensures lag.Finite? ==> lag.ms >= DEFAULT_LAG
    ensures lag.Finite? && lag.ms != DEFAULT_LAG ==> t == BASE_UPGRADE || t == TOWER_UPGRADE
    ensures t == BASE_UPGRADE ==> lag == Finite(18000)
    ensures t == TOWER_UPGRADE ==> lag == Finite(75000)
  {
    match t
    case BASE_UPGRADE => Finite(18 * 1000)
    case TOWER_UPGRADE => Finite(75 * 1000)
    case UP_FORT2 => Unbounded
    case UP_FORT3 => Unbounded
    case _ => Finite(DEFAULT_LAG)
  }

  /** `time - lag < prevTime`; with an infinite lag the left side is minus
      infinity, so any earlier time suppresses. */
  predicate Suppresses(lag: Lag, time: int, prevTime: int) {
    match lag
    case Unbounded => true
    case Finite(ms) => time - ms < prevTime
  }
}
