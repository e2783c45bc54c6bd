/** The replay interpreter of `ReplayParser` as pure functions: the effect of
    each action on one player's record and the shared dedup clock, the effect
    of each block on the parser state, and the final ranking. The class in
    `replay_parser.dfy` performs the same steps in place and is proved to
    agree with these functions. */
module Interpreter {
  import opened Wrappers
  import opened Js
  import opened W3g
  import opened Guards
  import opened ParserConst
  import opened GameData
  import opened GameIds
  import opened Lookup

  /** The map family: the interpreter has rules for `og` and `oz` maps. */
  datatype MapType = OG | OZ | OtherMap

  /** An event as the interpreter records it; `cancelled` is the optional flag
      that cancel actions set. */
  datatype Event = Event(eventType: PlayerEvent, eventId: string, time: nat, cancelled: bool)

  /** A player's record. An empty `race` means "not known yet". */
  datatype PlayerState = PlayerState(
    playerId: int,
    playerName: string,
    race: string,
    raceFinalized: bool,
    bonus: Option<string>,
    ultimate: Option<string>,
    aura: Option<string>,
    events: seq<Event>,
    time: nat,
    place: nat,
    leaved: bool)

  /** The dedup clock `lastEventTime`: the last accepted time of each event id,
      shared by all players. */
  type Clock = map<string, nat>

  /** One player's record together with the shared clock: what the per-player
      helpers of the source read and write. */
  datatype Slot = Slot(p: PlayerState, clock: Clock)

  /** The parser's immutable inputs for one replay. */
  datatype Config = Config(gameData: WikiDataMapping, mapType: MapType, lookup: Lookup)

  /** The inputs the parser works with: the lookup is built from the game data. */
  function ConfigFor(g: WikiDataMapping, mapType: MapType): Config {
    Config(g, mapType, BuildLookup(g))
  }

  /** The parser state: elapsed time, the player records keyed by player id
      (`order` is the map's insertion order), and the dedup clock. */
  datatype State = State(duration: nat, players: map<int, PlayerState>, order: seq<int>, clock: Clock)

  /** An exception escaping an action handler; it rejects the whole parse. */
  datatype Fault = TypeError

  // ---------------------------------------------------------------------------
  // Events and the dedup clock

  /** `insertEvent`. */
  function InsertEvent(s: Slot, e: Event): Slot {
    if e.eventId in s.clock && Suppresses(SameEventLag(e.eventType), e.time, s.clock[e.eventId]) then s
    else Slot(s.p.(events := s.p.events + [e]), s.clock[e.eventId := e.time])
  }

  /** An event of the given type and id, as the handlers create it. */
  function NewEvent(t: PlayerEvent, id: string, time: nat): Event {
    Event(t, id, time, false)
  }

  function InsertIf(b: bool, s: Slot, e: Event): Slot {
    if b then InsertEvent(s, e) else s
  }

  // ---------------------------------------------------------------------------
  // Race, bonus, ultimate and aura rules

  /** `processRacePick`: a race picker sets the race; the first race gives an
      initial-race event, a different one a repick event and finalizes. */
  function RacePick(c: Config, pickerId: string, s: Slot, duration: nat): Slot {
    var raceId := if pickerId in c.lookup.raceByPicker then c.lookup.raceByPicker[pickerId] else "";
    if pickerId == "" || raceId == "" then s
    else
      var prev := s.p.race;
      var s1 := Slot(s.p.(race := raceId), s.clock);
      var s2 := InsertIf(prev == "", s1, NewEvent(INITIAL_RACE, raceId, 0));
      if prev != "" && prev != raceId then
        InsertEvent(Slot(s2.p.(raceFinalized := true), s2.clock), NewEvent(REPICK_RACE, prev, duration))
      else s2
  }

  /** `processBonusPick`: a bonus is taken only when the player's race lists it. */
  function BonusPick(c: Config, id: string, s: Slot): Slot {
    if id == "" || s.p.race == "" then s
    else match Get(c.gameData.raceData, s.p.race)
      case None => s
      case Some(r) => if id in r.bonuses then Slot(s.p.(bonus := Some(id)), s.clock) else s
  }

  /** Array.prototype and Object.prototype property names of a current
      JavaScript runtime (besides `length`): reading any of them from an array
      gives a function or an object, which is truthy. */
  const PROTOTYPE_NAMES: set<string> := {
    "at", "concat", "constructor", "copyWithin", "entries", "every", "fill", "filter",
    "find", "findIndex", "findLast", "findLastIndex", "flat", "flatMap", "forEach",
    "includes", "indexOf", "join", "keys", "lastIndexOf", "map", "pop", "push", "reduce",
    "reduceRight", "reverse", "shift", "slice", "some", "sort", "splice", "toLocaleString",
    "toReversed", "toSorted", "toSpliced", "toString", "unshift", "values", "with",
    "__defineGetter__", "__defineSetter__", "__lookupGetter__", "__lookupSetter__",
    "__proto__", "hasOwnProperty", "isPrototypeOf", "propertyIsEnumerable", "valueOf"}

  predicate IsDigit(c: char) {
    '0' <= c <= '9'
  }

  /** The value of a string of decimal digits. */
  function DecimalValue(s: string): (n: nat)
    requires forall i :: 0 <= i < |s| ==> IsDigit(s[i])
  {
    if s == [] then 0
    else
      assert IsDigit(s[|s| - 1]);
      DecimalValue(s[..|s| - 1]) * 10 + (s[|s| - 1] as int - '0' as int)
  }

  /** A canonical array index: `0`, or digits without a leading zero. */
  predicate IsCanonicalIndex(s: string) {
    s != [] && (forall i :: 0 <= i < |s| ==> IsDigit(s[i])) && (s[0] == '0' ==> |s| == 1)
  }

  /** Whether `races[name]` is truthy for the string array `races`: an element
      under a canonical index, the length of a non-empty array, or an inherited
      method. */
  predicate ArrayEntryTruthy(races: seq<string>, name: string) {
    (IsCanonicalIndex(name) && DecimalValue(name) < |races| && races[DecimalValue(name)] != "")
    || (name == "length" && |races| > 0)
    || name in PROTOTYPE_NAMES
  }

  /** `processMMDtypeOZ`. The guard reads the race list `races` by the race id;
      when it passes, the value is a string, a number or a function, so reading
      `.auras` or `.bonuses` from it gives undefined and calling `.includes`
      throws as soon as the key is a known aura or bonus. */
  function MmdOz(c: Config, a: Action, s: Slot, duration: nat): Result<Slot, Fault> {
    if a.id != 0x6b || a.cacheKey.None? then Ok(s)
    else
      var key := Last(Trim(a.cacheKey.value), 4);
      if |key| != 4 || !ArrayEntryTruthy(c.gameData.races, s.p.race) then Ok(s)
      else
        var s1 := UseUltimate(c, key, s, duration);
        if key in c.lookup.auras || key in c.lookup.bonuses then Err(TypeError) else Ok(s1)
  }

  /** A cast of an ultimate member sets the player's ultimate and records its
      use; casting the canonical key itself records nothing. */
  function UseUltimate(c: Config, key: string, s: Slot, duration: nat): Slot {
    if key in c.lookup.ultimates then
      var ultiKey := c.lookup.ultimates[key];
      InsertIf(key != ultiKey, Slot(s.p.(ultimate := Some(ultiKey)), s.clock),
        NewEvent(USE_ULTIMATE, ultiKey, duration))
    else s
  }

  /** `processTypeSpecificId`: on `og` maps a race id bans the race; on `oz`
      maps it sets and finalizes the race. */
  function TypeSpecific(c: Config, itemId: string, s: Slot, duration: nat): Slot {
    if c.mapType == OG && itemId in c.gameData.races then
      InsertEvent(s, NewEvent(BAN_RACE, itemId, duration))
    else if c.mapType == OZ && itemId in c.gameData.races then
      InsertEvent(Slot(s.p.(race := itemId, raceFinalized := true), s.clock), NewEvent(INITIAL_RACE, itemId, 0))
    else s
  }

  /** `processRaceByUnitId`: buying a unit of a race. */
  function RaceByUnit(raceId: string, s: Slot, duration: nat): Slot {
    if s.p.race == "" then
      InsertEvent(Slot(s.p.(race := raceId), s.clock), NewEvent(INITIAL_RACE, raceId, 0))
    else if s.p.race == raceId then
      if duration > 7 * 60 * 1000 then Slot(s.p.(raceFinalized := true), s.clock) else s
    else
      var s1 := InsertEvent(s, NewEvent(REPICK_RACE, s.p.race, duration));
      Slot(s1.p.(race := raceId, raceFinalized := true), s1.clock)
  }

  /** Taking a bonus from an item: only while the player has no bonus, and only
      a bonus the player's race lists. */
  function BonusByItem(c: Config, id: string, s: Slot): Slot {
    if TruthyStr(s.p.bonus) || id !in c.lookup.bonusByUnit then s
    else
      var bonus := c.lookup.bonusByUnit[id];
      match Get(c.gameData.raceData, s.p.race)
      case Some(r) => if bonus in r.bonuses then Slot(s.p.(bonus := Some(bonus)), s.clock) else s
      case None => s
  }

  /** An event whose type a tier map gives, when the id is in it. */
  function InsertTier(tiers: map<string, PlayerEvent>, id: string, s: Slot, duration: nat): Slot {
    if id in tiers then InsertEvent(s, NewEvent(tiers[id], id, duration)) else s
  }

  /** The race and bonus part of the item loop body. */
  function ItemRace(c: Config, id: string, s: Slot, duration: nat): Slot {
    var s1 := TypeSpecific(c, id, s, duration);
    var s2 := if !s1.p.raceFinalized && id in c.lookup.raceByUnit then RaceByUnit(c.lookup.raceByUnit[id], s1, duration) else s1;
    BonusByItem(c, id, s2)
  }

  /** The event part of the item loop body: hero purchases, barrack, base,
      tower and fortress upgrades. */
  function ItemEvents(c: Config, id: string, s: Slot, duration: nat): Slot {
    var L := c.lookup;
    var s1 := InsertIf(id in L.heroes, s, NewEvent(HERO_BUY, id, duration));
    var s2 := InsertTier(L.barrack, id, s1, duration);
    var s3 := InsertIf(id in L.baseUpgrades, s2, NewEvent(BASE_UPGRADE, id, duration));
    var s4 := InsertIf(id in L.towerUpgrades, s3, NewEvent(TOWER_UPGRADE, id, duration));
    InsertTier(L.fort, id, s4, duration)
  }

  /** The aura and ultimate part of the item loop body: both are set without
      an event. */
  function ItemMarkers(c: Config, id: string, s: Slot): Slot {
    var s1 := if id in c.lookup.auras then Slot(s.p.(aura := Some(id)), s.clock) else s;
    if id in c.lookup.ultimates && c.lookup.ultimates[id] != "" then
      Slot(s1.p.(ultimate := Some(c.lookup.ultimates[id])), s1.clock)
    else s1
  }

  /** The body of the item loop of `processAction` for one object id. */
  function ItemRule(c: Config, id: string, s: Slot, duration: nat): Slot {
    ItemMarkers(c, id, ItemEvents(c, id, ItemRace(c, id, s, duration), duration))
  }

  /** The item loop: `ItemRule` for each id in order. */
  function ItemRules(c: Config, ids: seq<string>, s: Slot, duration: nat): Slot {
    if ids == [] then s
    else ItemRule(c, ids[|ids| - 1], ItemRules(c, ids[..|ids| - 1], s, duration), duration)
  }

  /** `addObject`: the decodable ids among the given optional id arrays. */
  function ObjectIds(ids: seq<Option<seq<int>>>): (r: seq<string>)
    ensures forall i :: 0 <= i < |r| ==> |r[i]| == 4
  {
    if ids == [] then []
    else
      var init := ObjectIds(ids[..|ids| - 1]);
      match ids[|ids| - 1]
      case None => init
      case Some(v) => if GameIdOf(v).Some? then init + [GameIdOf(v).value] else init
  }

  /** The ids the item loop walks for an action: from the order and target of
      the order actions, nothing for the others. */
  function ActionIds(a: Action): seq<string> {
    if a.id == 0x10 || a.id == 0x11 then ObjectIds([a.orderId])
    else if a.id == 0x12 then ObjectIds([a.orderId, a.target])
    else if a.id == 0x15 then ObjectIds([a.orderId1, a.target])
    else []
  }

  /** Action 0x19, selecting a building or unit: a race picker picks a race
      while the race is open, and a bonus id picks that bonus. */
  function SelectAction(c: Config, itemId: seq<int>, s: Slot, duration: nat): Slot {
    match GameIdOf(itemId)
    case None => s
    case Some(id) =>
      var s1 := if id in c.lookup.raceByPicker && !s.p.raceFinalized then RacePick(c, id, s, duration) else s;
      if id in c.lookup.bonuses then BonusPick(c, id, s1) else s1
  }

  /** The index of the last event with the given id. */
  function LastWithId(events: seq<Event>, id: string): (k: Option<nat>)
    ensures k.Some? ==> (k.value < |events| && events[k.value].eventId == id
                         && forall j :: k.value < j < |events| ==> events[j].eventId != id)
    ensures k.None? ==> forall j :: 0 <= j < |events| ==> events[j].eventId != id
  {
    if events == [] then None
    else if events[|events| - 1].eventId == id then Some(|events| - 1)
    else LastWithId(events[..|events| - 1], id)
  }

  /** The time of the last event with the given id that is not cancelled. */
  function LastLiveTime(events: seq<Event>, id: string): (t: Option<nat>)
    ensures t.Some? ==> (exists k :: 0 <= k < |events| && events[k].eventId == id && !events[k].cancelled
                                   && events[k].time == t.value
                                   && forall j :: k < j < |events| ==> events[j].eventId != id || events[j].cancelled)
    ensures t.None? ==> forall j :: 0 <= j < |events| ==> events[j].eventId != id || events[j].cancelled
  {
    if events == [] then None
    else
      var e := events[|events| - 1];
      if e.eventId == id && !e.cancelled then Some(e.time)
      else LastLiveTime(events[..|events| - 1], id)
  }

  /** Actions 0x1e and 0x1f, cancelling a build or train order: the last event
      with the id is marked cancelled and the clock goes back to the last live
      event with that id, or forgets the id. */
  function Cancel(id: string, s: Slot): Slot {
    match LastWithId(s.p.events, id)
    case None => s
    case Some(k) =>
      var events := s.p.events[k := s.p.events[k].(cancelled := true)];
      var last := LastLiveTime(events, id);
      var clock := if last.Some? && last.value != 0 then s.clock[id := last.value] else s.clock - {id};
      Slot(s.p.(events := events), clock)
  }

  /** What an action does to the acting player's record and the clock. */
  function ActionEffect(c: Config, a: Action, s: Slot, duration: nat): Result<Slot, Fault> {
    if a.id == 0x19 then Ok(SelectAction(c, a.itemId, s, duration))
    else if a.id == 0x6b then (if c.mapType == OZ then MmdOz(c, a, s, duration) else Ok(s))
    else if a.id == 0x1e || a.id == 0x1f then
      Ok(match GameIdOf(a.itemId) case None => s case Some(id) => Cancel(id, s))
    else Ok(ItemRules(c, ActionIds(a), s, duration))
  }

  /** `processAction`: unknown and departed players are ignored; the acting
      player's time becomes the current duration. */
  function ActionStep(c: Config, st: State, a: Action, playerId: int): Result<State, Fault> {
    if playerId !in st.players || st.players[playerId].leaved then Ok(st)
    else
      var s := Slot(st.players[playerId].(time := st.duration), st.clock);
      match ActionEffect(c, a, s, st.duration)
      case Err(f) => Err(f)
      case Ok(s1) => Ok(st.(players := st.players[playerId := s1.p], clock := s1.clock))
  }

  /** The actions of one command block, in order. */
  function ActionsStep(c: Config, st: State, actions: seq<Action>, playerId: int): Result<State, Fault> {
    if actions == [] then Ok(st)
    else match ActionsStep(c, st, actions[..|actions| - 1], playerId)
      case Err(f) => Err(f)
      case Ok(st1) => ActionStep(c, st1, actions[|actions| - 1], playerId)
  }

  /** The command blocks of one time slot, in order. */
  function CommandsStep(c: Config, st: State, cmds: seq<CommandBlock>): Result<State, Fault> {
    if cmds == [] then Ok(st)
    else match CommandsStep(c, st, cmds[..|cmds| - 1])
      case Err(f) => Err(f)
      case Ok(st1) => ActionsStep(c, st1, cmds[|cmds| - 1].actions, cmds[|cmds| - 1].playerId)
  }

  /** `order` without the given id. */
  function Without(order: seq<int>, id: int): (r: seq<int>)
    ensures forall x :: x in r <==> x in order && x != id
    ensures |r| <= |order|
  {
    if order == [] then []
    else if order[0] == id then Without(order[1..], id)
    else [order[0]] + Without(order[1..], id)
  }

  /** The leave block: a known player who leaves without a race is dropped. */
  function LeaveStep(st: State, playerId: int): State {
    if playerId in st.players && st.players[playerId].race == "" then
      st.(players := st.players - {playerId}, order := Without(st.order, playerId))
    else st
  }

  /** One game-data block: a time slot advances the duration and runs its
      command blocks; a leave block applies the leave rule. */
  function BlockStep(c: Config, st: State, b: GameDataBlock): Result<State, Fault> {
    if IsTimeslotBlock(b) then CommandsStep(c, st.(duration := st.duration + b.timeIncrement), b.commandBlocks)
    else if IsLeaveGameBlock(b) then Ok(LeaveStep(st, b.playerId))
    else Ok(st)
  }

  /** The whole block stream; the first fault rejects the parse. */
  function Run(c: Config, st: State, blocks: seq<GameDataBlock>): Result<State, Fault> {
    if blocks == [] then Ok(st)
    else match Run(c, st, blocks[..|blocks| - 1])
      case Err(f) => Err(f)
      case Ok(st1) => BlockStep(c, st1, blocks[|blocks| - 1])
  }

  // ---------------------------------------------------------------------------
  // Initial state and result

  /** A player's record before any block. */
  function FreshPlayer(r: PlayerRecord): PlayerState {
    PlayerState(r.playerId, r.playerName, "", false, None, None, None, [], 0, 0, false)
  }

  /** The records from the metadata roster; a repeated player id replaces the
      record but keeps its first position. */
  function InitialState(records: seq<PlayerRecord>): State {
    if records == [] then State(0, map[], [], map[])
    else
      var st := InitialState(records[..|records| - 1]);
      var r := records[|records| - 1];
      st.(players := st.players[r.playerId := FreshPlayer(r)],
          order := if r.playerId in st.players then st.order else st.order + [r.playerId])
  }

  /** The records in the map's insertion order. */
  function PlayerList(st: State): seq<PlayerState> {
    seq(|st.order|, i requires 0 <= i < |st.order| =>
      if st.order[i] in st.players then st.players[st.order[i]] else FreshPlayer(PlayerRecord(st.order[i], "")))
  }

  /** The records with a race, in insertion order. */
  function WithRace(ps: seq<PlayerState>): (r: seq<PlayerState>)
    ensures |r| <= |ps|
  {
    if ps == [] then []
    else
      var init := WithRace(ps[..|ps| - 1]);
      var last := ps[|ps| - 1];
      if last.race != "" then init + [last] else init
  }

  /** Inserts a record into a list ordered by descending time, after every
      record whose time is not smaller. */
  function InsertByTime(x: PlayerState, sorted: seq<PlayerState>): (r: seq<PlayerState>)
    ensures |r| == |sorted| + 1
  {
    if sorted == [] || sorted[|sorted| - 1].time >= x.time then sorted + [x]
    else InsertByTime(x, sorted[..|sorted| - 1]) + [sorted[|sorted| - 1]]
  }

  /** `sort((a, b) => b.time - a.time)`: a stable sort by descending time. */
  function SortByTime(ps: seq<PlayerState>): (r: seq<PlayerState>)
    ensures |r| == |ps|
  {
    if ps == [] then [] else InsertByTime(ps[|ps| - 1], SortByTime(ps[..|ps| - 1]))
  }

  /** The events that were not cancelled. */
  function LiveEvents(events: seq<Event>): seq<Event> {
    if events == [] then []
    else
      var init := LiveEvents(events[..|events| - 1]);
      var last := events[|events| - 1];
      if last.cancelled then init else init + [last]
  }

  /** Places 1..N in list order; cancelled events are dropped. */
  function Ranked(ps: seq<PlayerState>): (r: seq<PlayerState>)
    ensures |r| == |ps|
  {
    seq(|ps|, i requires 0 <= i < |ps| => ps[i].(place := i + 1, events := LiveEvents(ps[i].events)))
  }

  /** The largest time among the records. */
  function MaxTime(ps: seq<PlayerState>): (m: nat)
    requires ps != []
    ensures exists i :: 0 <= i < |ps| && ps[i].time == m
    ensures forall i :: 0 <= i < |ps| ==> ps[i].time <= m
  {
    if |ps| == 1 then ps[0].time
    else
      var m := MaxTime(ps[..|ps| - 1]);
      if ps[|ps| - 1].time > m then ps[|ps| - 1].time else m
  }

  datatype ReplayResult = ReplayResult(players: seq<PlayerState>, duration: nat, mapName: string)

  /** The interpreter's errors: an escaped exception, or too few ranked players. */
  datatype ParseError = Crashed(fault: Fault) | NotEnoughPlayers(count: nat)

  /** `resultData`. */
  function ResultData(st: State, mapName: string): Result<ReplayResult, ParseError> {
    var ranked := Ranked(SortByTime(WithRace(PlayerList(st))));
    if |ranked| < 2 then Err(NotEnoughPlayers(|ranked|))
    else Ok(ReplayResult(ranked, MaxTime(PlayerList(st)), BaseName(mapName)))
  }

  /** `parse`, from the decoded roster and block stream. */
  function Parse(c: Config, records: seq<PlayerRecord>, blocks: seq<GameDataBlock>, mapName: string)
    : Result<ReplayResult, ParseError>
  {
    match Run(c, InitialState(records), blocks)
    case Err(f) => Err(Crashed(f))
    case Ok(st) => ResultData(st, mapName)
  }
}
