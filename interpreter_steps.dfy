/** Properties of whole actions, blocks and runs of the replay interpreter:
    what an action may change, what a run keeps invariant, and which inputs
    make a parse fail. */
module InterpreterSteps {
  import opened Wrappers
  import opened Js
  import opened W3g
  import opened Guards
  import opened ParserConst
  import opened GameIds
  import opened Lookup
  import opened Interpreter

  /** The lookup's tier maps hold tier events only, as `BuildLookup` makes them. */
  predicate TiersWellFormed(c: Config) {
    (forall x :: x in c.lookup.barrack ==> c.lookup.barrack[x] in BARRACK_TIERS)
    && (forall x :: x in c.lookup.fort ==> c.lookup.fort[x] in FORT_TIERS)
  }

  lemma ConfigForWellFormed(g: GameData.WikiDataMapping, m: MapType)
    ensures TiersWellFormed(ConfigFor(g, m))
  {
    BarrackTiersOf(GameData.Races(g));
    FortTiersOf(GameData.Races(g));
  }

  /** `after` is `before` with events appended, where earlier events may at
      most have gained the cancelled flag. */
  predicate Extends(before: seq<Event>, after: seq<Event>) {
    |before| <= |after|
    && forall j :: 0 <= j < |before| ==> after[j].(cancelled := before[j].cancelled) == before[j]
  }

  /** `after` is `before` followed by live events other than ultimate uses. */
  predicate GrowsWithoutUltimates(before: seq<Event>, after: seq<Event>) {
    |before| <= |after| && after[..|before|] == before
    && forall j :: |before| <= j < |after| ==> after[j].eventType != USE_ULTIMATE && !after[j].cancelled
  }

  /** How one player's record may evolve under actions: its identity, place
      and departure flag never change, its events are append-only up to the
      cancelled flag, a finalized race stays finalized and, except on `oz`
      maps, keeps its value. */
  predicate PlayerFollows(c: Config, p0: PlayerState, p1: PlayerState) {
    p1.playerId == p0.playerId && p1.playerName == p0.playerName
    && p1.place == p0.place && p1.leaved == p0.leaved
    && Extends(p0.events, p1.events)
    && (p0.raceFinalized ==> p1.raceFinalized)
    && (c.mapType != OZ && p0.raceFinalized ==> p1.race == p0.race)
  }

  lemma PlayerFollowsTrans(c: Config, p0: PlayerState, p1: PlayerState, p2: PlayerState)
    requires PlayerFollows(c, p0, p1) && PlayerFollows(c, p1, p2)
    ensures PlayerFollows(c, p0, p2)
  {
    forall j | 0 <= j < |p0.events|
      ensures p2.events[j].(cancelled := p0.events[j].cancelled) == p0.events[j]
    {
      assert p1.events[j].(cancelled := p0.events[j].cancelled) == p0.events[j];
      assert p2.events[j].(cancelled := p1.events[j].cancelled) == p1.events[j];
    }
  }

  /** What a rule may do to a record besides appending events: identity,
      time, place and departure flag stay, a finalized race stays finalized
      and, except on `oz` maps, keeps its value. */
  predicate Evolves(c: Config, p0: PlayerState, p1: PlayerState) {
    p1.playerId == p0.playerId && p1.playerName == p0.playerName
    && p1.place == p0.place && p1.leaved == p0.leaved && p1.time == p0.time
    && GrowsWithoutUltimates(p0.events, p1.events)
    && (p0.raceFinalized ==> p1.raceFinalized)
    && (c.mapType != OZ && p0.raceFinalized ==> p1.race == p0.race)
  }

  lemma GrowsTrans(a: seq<Event>, b: seq<Event>, c: seq<Event>)
    requires GrowsWithoutUltimates(a, b) && GrowsWithoutUltimates(b, c)
    ensures GrowsWithoutUltimates(a, c)
  {
    assert c[..|a|] == c[..|b|][..|a|];
  }

  lemma EvolvesTrans(c: Config, p0: PlayerState, p1: PlayerState, p2: PlayerState)
    requires Evolves(c, p0, p1) && Evolves(c, p1, p2)
    ensures Evolves(c, p0, p2)
  {
    GrowsTrans(p0.events, p1.events, p2.events);
  }

  lemma EvolvesFollows(c: Config, p0: PlayerState, p1: PlayerState)
    requires Evolves(c, p0, p1)
    ensures PlayerFollows(c, p0, p1)
  {
    forall j | 0 <= j < |p0.events|
      ensures p1.events[j].(cancelled := p0.events[j].cancelled) == p0.events[j]
    {
      assert p1.events[j] == p1.events[..|p0.events|][j];
    }
  }

  lemma InsertEvolves(c: Config, s: Slot, e: Event)
    requires e.eventType != USE_ULTIMATE && !e.cancelled
    ensures Evolves(c, s.p, InsertEvent(s, e).p)
  {
  }

  lemma InsertIfEvolves(c: Config, b: bool, s: Slot, e: Event)
    requires e.eventType != USE_ULTIMATE && !e.cancelled
    ensures Evolves(c, s.p, InsertIf(b, s, e).p)
  {
  }

  lemma InsertTierEvolves(c: Config, tiers: map<string, PlayerEvent>, id: string, s: Slot, d: nat)
    requires forall x :: x in tiers ==> tiers[x] != USE_ULTIMATE
    ensures Evolves(c, s.p, InsertTier(tiers, id, s, d).p)
  {
  }

  lemma TypeSpecificEvolves(c: Config, id: string, s: Slot, d: nat)
    ensures Evolves(c, s.p, TypeSpecific(c, id, s, d).p)
  {
    if c.mapType == OG && id in c.gameData.races {
      InsertEvolves(c, s, NewEvent(BAN_RACE, id, d));
    } else if c.mapType == OZ && id in c.gameData.races {
      var t := Slot(s.p.(race := id, raceFinalized := true), s.clock);
      InsertEvolves(c, t, NewEvent(INITIAL_RACE, id, 0));
      assert Evolves(c, s.p, t.p);
      EvolvesTrans(c, s.p, t.p, TypeSpecific(c, id, s, d).p);
    }
  }

  lemma RaceByUnitEvolves(c: Config, raceId: string, s: Slot, d: nat)
    requires !s.p.raceFinalized
    ensures Evolves(c, s.p, RaceByUnit(raceId, s, d).p)
  {
    if s.p.race == "" {
      InsertEvolves(c, Slot(s.p.(race := raceId), s.clock), NewEvent(INITIAL_RACE, raceId, 0));
    } else if s.p.race != raceId {
      var t := InsertEvent(s, NewEvent(REPICK_RACE, s.p.race, d));
      InsertEvolves(c, s, NewEvent(REPICK_RACE, s.p.race, d));
      assert Evolves(c, t.p, RaceByUnit(raceId, s, d).p);
      EvolvesTrans(c, s.p, t.p, RaceByUnit(raceId, s, d).p);
    }
  }

  lemma ItemRaceEvolves(c: Config, id: string, s: Slot, d: nat)
    ensures Evolves(c, s.p, ItemRace(c, id, s, d).p)
  {
    var s1 := TypeSpecific(c, id, s, d);
    TypeSpecificEvolves(c, id, s, d);
    var s2 := if !s1.p.raceFinalized && id in c.lookup.raceByUnit then RaceByUnit(c.lookup.raceByUnit[id], s1, d) else s1;
    if !s1.p.raceFinalized && id in c.lookup.raceByUnit {
      RaceByUnitEvolves(c, c.lookup.raceByUnit[id], s1, d);
      EvolvesTrans(c, s.p, s1.p, s2.p);
    }
    assert Evolves(c, s2.p, BonusByItem(c, id, s2).p);
    EvolvesTrans(c, s.p, s2.p, ItemRace(c, id, s, d).p);
  }

  lemma ItemEventsEvolve(c: Config, id: string, s: Slot, d: nat)
    requires TiersWellFormed(c)
    ensures Evolves(c, s.p, ItemEvents(c, id, s, d).p)
  {
    var L := c.lookup;
    var s1 := InsertIf(id in L.heroes, s, NewEvent(HERO_BUY, id, d));
    InsertIfEvolves(c, id in L.heroes, s, NewEvent(HERO_BUY, id, d));
    var s2 := InsertTier(L.barrack, id, s1, d);
    InsertTierEvolves(c, L.barrack, id, s1, d);
    EvolvesTrans(c, s.p, s1.p, s2.p);
    var s3 := InsertIf(id in L.baseUpgrades, s2, NewEvent(BASE_UPGRADE, id, d));
    InsertIfEvolves(c, id in L.baseUpgrades, s2, NewEvent(BASE_UPGRADE, id, d));
    EvolvesTrans(c, s.p, s2.p, s3.p);
    var s4 := InsertIf(id in L.towerUpgrades, s3, NewEvent(TOWER_UPGRADE, id, d));
    InsertIfEvolves(c, id in L.towerUpgrades, s3, NewEvent(TOWER_UPGRADE, id, d));
    EvolvesTrans(c, s.p, s3.p, s4.p);
    InsertTierEvolves(c, L.fort, id, s4, d);
    assert ItemEvents(c, id, s, d) == InsertTier(L.fort, id, s4, d);
    EvolvesTrans(c, s.p, s4.p, ItemEvents(c, id, s, d).p);
  }

  lemma MarkersEvolve(c: Config, id: string, s: Slot)
    ensures Evolves(c, s.p, ItemMarkers(c, id, s).p)
  {
    assert s.p.events[..|s.p.events|] == s.p.events;
  }

  /** One id of the item loop: the record evolves as `Evolves` allows; in
      particular no ultimate use is recorded. */
  lemma ItemRuleEvolves(c: Config, id: string, s: Slot, d: nat)
    requires TiersWellFormed(c)
    ensures Evolves(c, s.p, ItemRule(c, id, s, d).p)
  {
    var s1 := ItemRace(c, id, s, d);
    ItemRaceEvolves(c, id, s, d);
    var s2 := ItemEvents(c, id, s1, d);
    ItemEventsEvolve(c, id, s1, d);
    EvolvesTrans(c, s.p, s1.p, s2.p);
    MarkersEvolve(c, id, s2);
    EvolvesTrans(c, s.p, s2.p, ItemRule(c, id, s, d).p);
  }

  /** The item loop: the same over a sequence of ids. */
  lemma {:induction false} ItemRulesEvolve(c: Config, ids: seq<string>, s: Slot, d: nat)
    requires TiersWellFormed(c)
    ensures Evolves(c, s.p, ItemRules(c, ids, s, d).p)
  {
    if ids != [] {
      var mid := ItemRules(c, ids[..|ids| - 1], s, d);
      ItemRulesEvolve(c, ids[..|ids| - 1], s, d);
      ItemRuleEvolves(c, ids[|ids| - 1], mid, d);
      EvolvesTrans(c, s.p, mid.p, ItemRules(c, ids, s, d).p);
    } else {
      assert s.p.events[..|s.p.events|] == s.p.events;
    }
  }

  /** Ordinary purchases set the ultimate without recording its use: the id's
      ultimate is taken and the new events hold no ultimate use. */
  lemma ItemSetsUltimateSilently(c: Config, id: string, s: Slot, d: nat)
    requires TiersWellFormed(c)
    requires id in c.lookup.ultimates && c.lookup.ultimates[id] != ""
    ensures ItemRule(c, id, s, d).p.ultimate == Some(c.lookup.ultimates[id])
    ensures forall e :: e in ItemRule(c, id, s, d).p.events && e !in s.p.events ==> e.eventType != USE_ULTIMATE
  {
    ItemRuleEvolves(c, id, s, d);
    var r := ItemRule(c, id, s, d).p.events;
    forall e | e in r && e !in s.p.events
      ensures e.eventType != USE_ULTIMATE
    {
      var j :| 0 <= j < |r| && r[j] == e;
      assert r[..|s.p.events|] == s.p.events;
    }
  }

  lemma RacePickEvolves(c: Config, id: string, s: Slot, d: nat)
    requires !s.p.raceFinalized
    ensures Evolves(c, s.p, RacePick(c, id, s, d).p)
  {
    var raceId := if id in c.lookup.raceByPicker then c.lookup.raceByPicker[id] else "";
    if id != "" && raceId != "" {
      var t1 := Slot(s.p.(race := raceId), s.clock);
      var t2 := InsertIf(s.p.race == "", t1, NewEvent(INITIAL_RACE, raceId, 0));
      InsertIfEvolves(c, s.p.race == "", t1, NewEvent(INITIAL_RACE, raceId, 0));
      assert Evolves(c, s.p, t1.p);
      EvolvesTrans(c, s.p, t1.p, t2.p);
      if s.p.race != "" && s.p.race != raceId {
        var t3 := Slot(t2.p.(raceFinalized := true), t2.clock);
        InsertEvolves(c, t3, NewEvent(REPICK_RACE, s.p.race, d));
        EvolvesTrans(c, s.p, t3.p, RacePick(c, id, s, d).p);
      }
    }
  }

  lemma SelectEvolves(c: Config, itemId: seq<int>, s: Slot, d: nat)
    ensures Evolves(c, s.p, SelectAction(c, itemId, s, d).p)
  {
    match GameIdOf(itemId)
    case None =>
      assert s.p.events[..|s.p.events|] == s.p.events;
    case Some(id) =>
      var s1 := if id in c.lookup.raceByPicker && !s.p.raceFinalized then RacePick(c, id, s, d) else s;
      if id in c.lookup.raceByPicker && !s.p.raceFinalized {
        RacePickEvolves(c, id, s, d);
      } else {
        assert s.p.events[..|s.p.events|] == s.p.events;
      }
      assert Evolves(c, s1.p, SelectAction(c, itemId, s, d).p);
      EvolvesTrans(c, s.p, s1.p, SelectAction(c, itemId, s, d).p);
  }

  lemma InsertIfFollows(c: Config, b: bool, s: Slot, e: Event)
    requires !e.cancelled
    ensures PlayerFollows(c, s.p, InsertIf(b, s, e).p)
    ensures InsertIf(b, s, e).p.time == s.p.time
  {
  }

  lemma UseUltimateFollows(c: Config, key: string, s: Slot, d: nat)
    ensures PlayerFollows(c, s.p, UseUltimate(c, key, s, d).p)
    ensures UseUltimate(c, key, s, d).p.time == s.p.time
  {
    if key in c.lookup.ultimates {
      var ultiKey := c.lookup.ultimates[key];
      var t := Slot(s.p.(ultimate := Some(ultiKey)), s.clock);
      InsertIfFollows(c, key != ultiKey, t, NewEvent(USE_ULTIMATE, ultiKey, d));
      assert PlayerFollows(c, s.p, t.p);
      PlayerFollowsTrans(c, s.p, t.p, UseUltimate(c, key, s, d).p);
    }
  }

  lemma MmdOzFollows(c: Config, a: Action, s: Slot, d: nat)
    ensures MmdOz(c, a, s, d).Ok? ==> PlayerFollows(c, s.p, MmdOz(c, a, s, d).value.p)
    ensures MmdOz(c, a, s, d).Ok? ==> MmdOz(c, a, s, d).value.p.time == s.p.time
  {
    if a.id == 0x6b && a.cacheKey.Some? {
      UseUltimateFollows(c, Last(Trim(a.cacheKey.value), 4), s, d);
    }
  }

  lemma CancelFollows(c: Config, id: string, s: Slot)
    ensures PlayerFollows(c, s.p, Cancel(id, s).p)
    ensures Cancel(id, s).p.time == s.p.time
  {
  }

  /** The effect of any action on the acting player follows `PlayerFollows`
      and keeps its time; away from `oz` maps it never faults. */
  lemma EffectFollows(c: Config, a: Action, s: Slot, d: nat)
    requires TiersWellFormed(c)
    ensures c.mapType != OZ ==> ActionEffect(c, a, s, d).Ok?
    ensures ActionEffect(c, a, s, d).Ok? ==>
      PlayerFollows(c, s.p, ActionEffect(c, a, s, d).value.p) && ActionEffect(c, a, s, d).value.p.time == s.p.time
  {
    if a.id == 0x19 {
      SelectEvolves(c, a.itemId, s, d);
      EvolvesFollows(c, s.p, ActionEffect(c, a, s, d).value.p);
    } else if a.id == 0x6b {
      MmdOzFollows(c, a, s, d);
    } else if a.id == 0x1e || a.id == 0x1f {
      match GameIdOf(a.itemId)
      case None =>
      case Some(id) => CancelFollows(c, id, s);
    } else {
      ItemRulesEvolve(c, ActionIds(a), s, d);
      EvolvesFollows(c, s.p, ActionEffect(c, a, s, d).value.p);
    }
  }

  /** How the parser state may evolve: no player appears, the duration never
      decreases, and every remaining player evolves as `PlayerFollows`
      allows. */
  predicate Follows(c: Config, st0: State, st1: State) {
    st0.duration <= st1.duration
    && (forall q :: q in st1.players ==> q in st0.players)
    && (forall q :: q in st1.players ==> PlayerFollows(c, st0.players[q], st1.players[q]))
  }

  lemma FollowsTrans(c: Config, st0: State, st1: State, st2: State)
    requires Follows(c, st0, st1) && Follows(c, st1, st2)
    ensures Follows(c, st0, st2)
  {
    forall q | q in st2.players
      ensures PlayerFollows(c, st0.players[q], st2.players[q])
    {
      PlayerFollowsTrans(c, st0.players[q], st1.players[q], st2.players[q]);
    }
  }

  /** `processAction`: actions of unknown or departed players change nothing;
      otherwise only the acting player's record and the clock change, and its
      time becomes the current duration. */
  lemma ActionStepFrame(c: Config, st: State, a: Action, pid: int)
    requires TiersWellFormed(c)
    ensures pid !in st.players || st.players[pid].leaved ==> ActionStep(c, st, a, pid) == Ok(st)
    ensures ActionStep(c, st, a, pid).Ok? ==>
      var st1 := ActionStep(c, st, a, pid).value;
      && st1.duration == st.duration && st1.order == st.order
      && st1.players.Keys == st.players.Keys
      && (forall q :: q in st.players && q != pid ==> st1.players[q] == st.players[q])
      && (pid in st.players && !st.players[pid].leaved ==> st1.players[pid].time == st.duration)
      && Follows(c, st, st1)
    ensures c.mapType != OZ ==> ActionStep(c, st, a, pid).Ok?
  {
    if pid in st.players && !st.players[pid].leaved {
      var s := Slot(st.players[pid].(time := st.duration), st.clock);
      EffectFollows(c, a, s, st.duration);
    }
  }

  lemma {:induction false} ActionsFollow(c: Config, st: State, actions: seq<Action>, pid: int)
    requires TiersWellFormed(c)
    ensures ActionsStep(c, st, actions, pid).Ok? ==>
      var st1 := ActionsStep(c, st, actions, pid).value;
      Follows(c, st, st1) && st1.order == st.order && st1.players.Keys == st.players.Keys
    ensures c.mapType != OZ ==> ActionsStep(c, st, actions, pid).Ok?
  {
    if actions != [] {
      ActionsFollow(c, st, actions[..|actions| - 1], pid);
      var mid := ActionsStep(c, st, actions[..|actions| - 1], pid);
      if mid.Ok? {
        ActionStepFrame(c, mid.value, actions[|actions| - 1], pid);
        if ActionsStep(c, st, actions, pid).Ok? {
          FollowsTrans(c, st, mid.value, ActionsStep(c, st, actions, pid).value);
        }
      }
    }
  }

  lemma {:induction false} CommandsFollow(c: Config, st: State, cmds: seq<CommandBlock>)
    requires TiersWellFormed(c)
    ensures CommandsStep(c, st, cmds).Ok? ==>
      var st1 := CommandsStep(c, st, cmds).value;
      Follows(c, st, st1) && st1.order == st.order && st1.players.Keys == st.players.Keys
    ensures c.mapType != OZ ==> CommandsStep(c, st, cmds).Ok?
  {
    if cmds != [] {
      CommandsFollow(c, st, cmds[..|cmds| - 1]);
      var mid := CommandsStep(c, st, cmds[..|cmds| - 1]);
      if mid.Ok? {
        var last := cmds[|cmds| - 1];
        ActionsFollow(c, mid.value, last.actions, last.playerId);
        if CommandsStep(c, st, cmds).Ok? {
          FollowsTrans(c, st, mid.value, CommandsStep(c, st, cmds).value);
        }
      }
    }
  }

  /** The actions of a command block never move the replay clock. */
  lemma {:induction false} ActionsKeepDuration(c: Config, st: State, actions: seq<Action>, pid: int)
    ensures ActionsStep(c, st, actions, pid).Ok? ==> ActionsStep(c, st, actions, pid).value.duration == st.duration
  {
    if actions != [] {
      ActionsKeepDuration(c, st, actions[..|actions| - 1], pid);
    }
  }

  /** Nor do the command blocks of a time slot. */
  lemma {:induction false} CommandsKeepDuration(c: Config, st: State, cmds: seq<CommandBlock>)
    ensures CommandsStep(c, st, cmds).Ok? ==> CommandsStep(c, st, cmds).value.duration == st.duration
  {
    if cmds != [] {
      CommandsKeepDuration(c, st, cmds[..|cmds| - 1]);
      var mid := CommandsStep(c, st, cmds[..|cmds| - 1]);
      if mid.Ok? {
        var last := cmds[|cmds| - 1];
        ActionsKeepDuration(c, mid.value, last.actions, last.playerId);
      }
    }
  }

  /** The block handler as the source writes it: two independent guards,
      the time-slot one first and the leave one second. */
  function GuardedBlock(c: Config, st: State, b: GameDataBlock): Result<State, Fault> {
    var slotted := if IsTimeslotBlock(b) then CommandsStep(c, st.(duration := st.duration + b.timeIncrement), b.commandBlocks) else Ok(st);
    match slotted
    case Err(f) => Err(f)
    case Ok(st1) => Ok(if IsLeaveGameBlock(b) then LeaveStep(st1, b.playerId) else st1)
  }

  /** Each block reaches exactly one branch of the handler, so the two
      guards in sequence act as the one dispatch `BlockStep`; only a time
      slot advances the clock, by its increment, and a block of any other
      kind changes nothing. */
  lemma BlockDispatch(c: Config, st: State, b: GameDataBlock)
    ensures BlockStep(c, st, b) == GuardedBlock(c, st, b)
    ensures !IsTimeslotBlock(b) ==> BlockStep(c, st, b).Ok?
    ensures !IsTimeslotBlock(b) && !IsLeaveGameBlock(b) ==> BlockStep(c, st, b) == Ok(st)
    ensures BlockStep(c, st, b).Ok? ==>
      BlockStep(c, st, b).value.duration == st.duration + (if IsTimeslotBlock(b) then b.timeIncrement else 0)
  {
    if IsTimeslotBlock(b) {
      CommandsKeepDuration(c, st.(duration := st.duration + b.timeIncrement), b.commandBlocks);
    }
  }

  /** The sum of the time increments of the time-slot blocks. */
  function TimeslotTotal(blocks: seq<GameDataBlock>): nat {
    if blocks == [] then 0
    else
      var b := blocks[|blocks| - 1];
      TimeslotTotal(blocks[..|blocks| - 1]) + (if IsTimeslotBlock(b) then b.timeIncrement else 0)
  }

  /** After a run the replay clock has advanced by exactly the increments of
      its time slots. */
  lemma {:induction false} RunDuration(c: Config, st: State, blocks: seq<GameDataBlock>)
    ensures Run(c, st, blocks).Ok? ==> Run(c, st, blocks).value.duration == st.duration + TimeslotTotal(blocks)
  {
    if blocks != [] {
      RunDuration(c, st, blocks[..|blocks| - 1]);
      var mid := Run(c, st, blocks[..|blocks| - 1]);
      if mid.Ok? {
        BlockDispatch(c, mid.value, blocks[|blocks| - 1]);
      }
    }
  }

  /** The leave rule: a leave block removes the player exactly when it is
      known and has no race; everybody else is untouched. */
  lemma LeaveRule(st: State, pid: int)
    ensures var st1 := LeaveStep(st, pid);
      && (pid in st1.players <==> pid in st.players && st.players[pid].race != "")
      && (forall q :: q != pid ==> (q in st1.players <==> q in st.players))
      && (forall q :: q in st1.players ==> st1.players[q] == st.players[q])
      && st1.duration == st.duration && st1.clock == st.clock
  {
  }

  /** The roster order lists each player of the map exactly once. */
  ghost predicate OrderMatches(st: State) {
    (forall q :: q in st.players <==> q in st.order)
    && Distinct(st.order)
  }

  predicate Distinct(s: seq<int>) {
    forall i, j :: 0 <= i < j < |s| ==> s[i] != s[j]
  }

  lemma {:induction false} WithoutKeepsDistinct(order: seq<int>, id: int)
    requires Distinct(order)
    ensures Distinct(Without(order, id))
  {
    if order != [] {
      WithoutKeepsDistinct(order[1..], id);
      var rest := Without(order[1..], id);
      if order[0] != id {
        assert order[0] !in order[1..];
        assert order[0] !in rest;
        var r := [order[0]] + rest;
        forall i, j | 0 <= i < j < |r|
          ensures r[i] != r[j]
        {
          if i == 0 {
            assert r[j] == rest[j - 1] && rest[j - 1] in rest;
          } else {
            assert r[i] == rest[i - 1] && r[j] == rest[j - 1];
            assert rest[i - 1] != rest[j - 1];
          }
        }
        assert Without(order, id) == r;
      }
    }
  }

  lemma LeaveKeepsOrder(st: State, pid: int)
    requires OrderMatches(st)
    ensures OrderMatches(LeaveStep(st, pid))
  {
    WithoutKeepsDistinct(st.order, pid);
  }

  lemma {:induction false} InitialOrder(records: seq<PlayerRecord>)
    ensures OrderMatches(InitialState(records))
    ensures forall q :: q in InitialState(records).players ==>
      !InitialState(records).players[q].leaved && !InitialState(records).players[q].raceFinalized
  {
    if records != [] {
      InitialOrder(records[..|records| - 1]);
      var st := InitialState(records[..|records| - 1]);
      var r := records[|records| - 1];
      if r.playerId !in st.players {
        assert r.playerId !in st.order;
        var order := st.order + [r.playerId];
        forall i, j | 0 <= i < j < |order|
          ensures order[i] != order[j]
        {
          if j == |st.order| {
            assert order[i] == st.order[i];
          } else {
            assert order[i] == st.order[i] && order[j] == st.order[j];
          }
        }
      }
    }
  }

  /** A whole run: players only disappear, each remaining one evolves as
      `PlayerFollows` allows, the roster order stays exact, and away from
      `oz` maps no parse faults. */
  lemma {:induction false} RunFollows(c: Config, st: State, blocks: seq<GameDataBlock>)
    requires TiersWellFormed(c) && OrderMatches(st)
    ensures Run(c, st, blocks).Ok? ==> Follows(c, st, Run(c, st, blocks).value) && OrderMatches(Run(c, st, blocks).value)
    ensures c.mapType != OZ ==> Run(c, st, blocks).Ok?
  {
    if blocks != [] {
      RunFollows(c, st, blocks[..|blocks| - 1]);
      var mid := Run(c, st, blocks[..|blocks| - 1]);
      if mid.Ok? {
        var b := blocks[|blocks| - 1];
        var m := mid.value;
        if IsTimeslotBlock(b) {
          var m1 := m.(duration := m.duration + b.timeIncrement);
          CommandsFollow(c, m1, b.commandBlocks);
          if CommandsStep(c, m1, b.commandBlocks).Ok? {
            FollowsTrans(c, m, m1, CommandsStep(c, m1, b.commandBlocks).value);
          }
        } else if IsLeaveGameBlock(b) {
          LeaveKeepsOrder(m, b.playerId);
        }
        if Run(c, st, blocks).Ok? {
          FollowsTrans(c, st, m, Run(c, st, blocks).value);
        }
      }
    }
  }

  /** Away from `oz` maps, once a player's race is finalized it never changes
      for the rest of the replay. */
  lemma FinalizedRaceStable(c: Config, records: seq<PlayerRecord>, blocks: seq<GameDataBlock>, k: nat, pid: int)
    requires TiersWellFormed(c) && c.mapType != OZ && k <= |blocks|
    requires Run(c, InitialState(records), blocks[..k]).Ok?
    requires var st := Run(c, InitialState(records), blocks[..k]).value;
      pid in st.players && st.players[pid].raceFinalized
    ensures Run(c, InitialState(records), blocks).Ok?
    ensures var st := Run(c, InitialState(records), blocks[..k]).value;
      var fin := Run(c, InitialState(records), blocks).value;
      pid in fin.players ==> fin.players[pid].race == st.players[pid].race && fin.players[pid].raceFinalized
  {
    InitialOrder(records);
    var st := Run(c, InitialState(records), blocks[..k]).value;
    RunFollows(c, InitialState(records), blocks[..k]);
    RunSplit(c, InitialState(records), blocks, k);
    RunFollows(c, st, blocks[k..]);
  }

  lemma {:induction false} RunSplit(c: Config, st: State, blocks: seq<GameDataBlock>, k: nat)
    requires k <= |blocks|
    ensures Run(c, st, blocks) ==
      match Run(c, st, blocks[..k])
      case Err(f) => Err(f)
      case Ok(m) => Run(c, m, blocks[k..])
    decreases |blocks|
  {
    if k < |blocks| {
      RunSplit(c, st, blocks[..|blocks| - 1], k);
      assert blocks[..|blocks| - 1][..k] == blocks[..k];
      assert blocks[k..][..|blocks[k..]| - 1] == blocks[..|blocks| - 1][k..];
      assert blocks[k..][|blocks[k..]| - 1] == blocks[|blocks| - 1];
    } else {
      assert blocks[..k] == blocks;
      assert blocks[k..] == [];
    }
  }

  /** No player in the map is ever marked as departed. */
  lemma NoPlayerMarkedLeft(c: Config, records: seq<PlayerRecord>, blocks: seq<GameDataBlock>)
    requires TiersWellFormed(c)
    ensures Run(c, InitialState(records), blocks).Ok? ==>
      var st := Run(c, InitialState(records), blocks).value;
      forall q :: q in st.players ==> !st.players[q].leaved
  {
    InitialOrder(records);
    RunFollows(c, InitialState(records), blocks);
  }
}
