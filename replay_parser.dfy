/** `ReplayParser` as a class: the duration counter, the player map (with its
    insertion order) and the dedup clock are fields that the methods update in
    place. Every method is proved to perform exactly the step that the
    interpreter functions of module `Interpreter` describe, so the properties
    proved about those functions hold for the class. */
module ReplayParserClass {
  import opened Wrappers
  import opened Js
  import opened W3g
  import opened Guards
  import opened ParserConst
  import opened GameIds
  import opened Lookup
  import opened Interpreter

  class ReplayParser {
    /** Game data, map family and the lookup built from them. */
    const config: Config
    /** The metadata roster the player map was created from. */
    ghost const roster: seq<PlayerRecord>

    var duration: nat
    var playersMap: map<int, PlayerState>
    /** Insertion order of `playersMap`, as its iteration yields it. */
    var order: seq<int>
    var lastEventTime: Clock

    /** The parser state as a value. */
    function Snapshot(): State
      reads this
    {
      State(duration, playersMap, order, lastEventTime)
    }

    /** Only the dedup clock may have changed. */
    twostate predicate OnlyClock()
      reads this
    {
      duration == old(duration) && playersMap == old(playersMap) && order == old(order)
    }

    /** `parseMetadata`: one fresh record per roster entry. */
    constructor(config: Config, records: seq<PlayerRecord>)
      ensures this.config == config && roster == records
      ensures Snapshot() == InitialState(records)
    {
      var m: map<int, PlayerState> := map[];
      var ord: seq<int> := [];
      for i := 0 to |records|
        invariant State(0, m, ord, map[]) == InitialState(records[..i])
      {
        var r := records[i];
        assert records[..i + 1][..i] == records[..i];
        if r.playerId !in m {
          ord := ord + [r.playerId];
        }
        m := m[r.playerId := FreshPlayer(r)];
      }
      assert records[..|records|] == records;
      this.config := config;
      roster := records;
      duration := 0;
      playersMap := m;
      order := ord;
      lastEventTime := map[];
    }

    /** `insertEvent`. */
    method InsertEvent(p: PlayerState, e: Event) returns (q: PlayerState)
      modifies this
      ensures Slot(q, lastEventTime) == Interpreter.InsertEvent(Slot(p, old(lastEventTime)), e)
      ensures OnlyClock()
    {
      q := p;
      if e.eventId in lastEventTime {
        var prevTime := lastEventTime[e.eventId];
        var lag := SameEventLag(e.eventType);
        if Suppresses(lag, e.time, prevTime) {
          return;
        }
      }
      lastEventTime := lastEventTime[e.eventId := e.time];
      q := q.(events := q.events + [e]);
    }

    /** `processRacePick`. */
    method ProcessRacePick(pickerId: string, p: PlayerState) returns (q: PlayerState)
      modifies this
      ensures Slot(q, lastEventTime) == RacePick(config, pickerId, Slot(p, old(lastEventTime)), duration)
      ensures OnlyClock()
    {
      q := p;
      if pickerId == "" {
        return;
      }
      var raceId := if pickerId in config.lookup.raceByPicker then config.lookup.raceByPicker[pickerId] else "";
      if raceId == "" {
        return;
      }
      var prevRace := q.race;
      q := q.(race := raceId);
      if prevRace == "" {
        q := InsertEvent(q, NewEvent(INITIAL_RACE, raceId, 0));
      }
      if prevRace != "" && prevRace != raceId {
        q := q.(raceFinalized := true);
        q := InsertEvent(q, NewEvent(REPICK_RACE, prevRace, duration));
      }
    }

    /** `processBonusPick`. */
    method ProcessBonusPick(id: string, p: PlayerState) returns (q: PlayerState)
      ensures q == BonusPick(config, id, Slot(p, lastEventTime)).p
    {
      q := p;
      if id == "" || q.race == "" {
        return;
      }
      var race := Get(config.gameData.raceData, q.race);
      if race.None? || id !in race.value.bonuses {
        return;
      }
      q := q.(bonus := Some(id));
    }

    /** `processMMDtypeOZ`; a fault stands for the exception it throws. */
    method ProcessMmdTypeOz(a: Action, p: PlayerState) returns (r: Result<PlayerState, Fault>)
      modifies this
      ensures r.Ok? ==> MmdOz(config, a, Slot(p, old(lastEventTime)), duration) == Ok(Slot(r.value, lastEventTime))
      ensures r.Err? ==> MmdOz(config, a, Slot(p, old(lastEventTime)), duration) == Err(r.error)
      ensures OnlyClock()
    {
      if a.id != 0x6b || a.cacheKey.None? {
        return Ok(p);
      }
      var key := Last(Trim(a.cacheKey.value), 4);
      if |key| != 4 || !ArrayEntryTruthy(config.gameData.races, p.race) {
        return Ok(p);
      }
      var q := p;
      if key in config.lookup.ultimates {
        var ultiKey := config.lookup.ultimates[key];
        q := q.(ultimate := Some(ultiKey));
        if key != ultiKey {
          q := InsertEvent(q, NewEvent(USE_ULTIMATE, ultiKey, duration));
        }
      }
      if key in config.lookup.auras || key in config.lookup.bonuses {
        return Err(TypeError);
      }
      return Ok(q);
    }

    /** `processTypeSpecificId`. */
    method ProcessTypeSpecificId(itemId: string, p: PlayerState) returns (q: PlayerState)
      modifies this
      ensures Slot(q, lastEventTime) == TypeSpecific(config, itemId, Slot(p, old(lastEventTime)), duration)
      ensures OnlyClock()
    {
      q := p;
      if config.mapType == OG && itemId in config.gameData.races {
        q := InsertEvent(q, NewEvent(BAN_RACE, itemId, duration));
      }
      if config.mapType == OZ && itemId in config.gameData.races {
        q := q.(race := itemId, raceFinalized := true);
        q := InsertEvent(q, NewEvent(INITIAL_RACE, itemId, 0));
      }
    }

    /** `processRaceByUnitId`. */
    method ProcessRaceByUnitId(raceId: string, p: PlayerState) returns (q: PlayerState)
      modifies this
      ensures Slot(q, lastEventTime) == RaceByUnit(raceId, Slot(p, old(lastEventTime)), duration)
      ensures OnlyClock()
    {
      q := p;
      if q.race == "" {
        q := q.(race := raceId);
        q := InsertEvent(q, NewEvent(INITIAL_RACE, raceId, 0));
        return;
      }
      if q.race == raceId {
        if duration > 7 * 60 * 1000 {
          q := q.(raceFinalized := true);
        }
        return;
      }
      q := InsertEvent(q, NewEvent(REPICK_RACE, q.race, duration));
      q := q.(race := raceId, raceFinalized := true);
    }

    /** The race and bonus steps of the item loop body. */
    method ProcessItemRace(id: string, p: PlayerState) returns (q: PlayerState)
      modifies this
      ensures Slot(q, lastEventTime) == ItemRace(config, id, Slot(p, old(lastEventTime)), duration)
      ensures OnlyClock()
    {
      q := ProcessTypeSpecificId(id, p);
      if !q.raceFinalized && id in config.lookup.raceByUnit {
        var newRace := config.lookup.raceByUnit[id];
        q := ProcessRaceByUnitId(newRace, q);
      }
      if !TruthyStr(q.bonus) && id in config.lookup.bonusByUnit {
        var bonus := config.lookup.bonusByUnit[id];
        var race := Get(config.gameData.raceData, q.race);
        if race.Some? && bonus in race.value.bonuses {
          q := q.(bonus := Some(bonus));
        }
      }
    }

    /** The event steps of the item loop body. */
    method ProcessItemEvents(id: string, p: PlayerState) returns (q: PlayerState)
      modifies this
      ensures Slot(q, lastEventTime) == ItemEvents(config, id, Slot(p, old(lastEventTime)), duration)
      ensures OnlyClock()
    {
      q := p;
      if id in config.lookup.heroes {
        q := InsertEvent(q, NewEvent(HERO_BUY, id, duration));
      }
      if id in config.lookup.barrack {
        q := InsertEvent(q, NewEvent(config.lookup.barrack[id], id, duration));
      }
      if id in config.lookup.baseUpgrades {
        q := InsertEvent(q, NewEvent(BASE_UPGRADE, id, duration));
      }
      if id in config.lookup.towerUpgrades {
        q := InsertEvent(q, NewEvent(TOWER_UPGRADE, id, duration));
      }
      if id in config.lookup.fort {
        q := InsertEvent(q, NewEvent(config.lookup.fort[id], id, duration));
      }
    }

    /** The item loop of `processAction`. */
    method ProcessItems(ids: seq<string>, p: PlayerState) returns (q: PlayerState)
      modifies this
      ensures Slot(q, lastEventTime) == ItemRules(config, ids, Slot(p, old(lastEventTime)), duration)
      ensures OnlyClock()
    {
      q := p;
      for i := 0 to |ids|
        invariant Slot(q, lastEventTime) == ItemRules(config, ids[..i], Slot(p, old(lastEventTime)), duration)
        invariant OnlyClock()
      {
        var id := ids[i];
        assert ids[..i + 1][..i] == ids[..i];
        q := ProcessItemRace(id, q);
        q := ProcessItemEvents(id, q);
        if id in config.lookup.auras {
          q := q.(aura := Some(id));
        }
        if id in config.lookup.ultimates && config.lookup.ultimates[id] != "" {
          q := q.(ultimate := Some(config.lookup.ultimates[id]));
        }
      }
      assert ids[..|ids|] == ids;
    }

    /** `addObject`: collects the decodable ids. */
    static method AddObject(ids: seq<Option<seq<int>>>) returns (itemIds: seq<string>)
      ensures itemIds == ObjectIds(ids)
    {
      itemIds := [];
      for i := 0 to |ids|
        invariant itemIds == ObjectIds(ids[..i])
      {
        assert ids[..i + 1][..i] == ids[..i];
        if ids[i].Some? {
          var gid := ToGameId(ids[i].value);
          if gid.Some? {
            itemIds := itemIds + [gid.value];
          }
        }
      }
      assert ids[..|ids|] == ids;
    }

    /** The index of the last event with the id, scanning from the end. */
    static method FindLast(events: seq<Event>, id: string) returns (k: Option<nat>)
      ensures k == LastWithId(events, id)
    {
      var i := |events|;
      while i > 0
        invariant 0 <= i <= |events|
        invariant forall j :: i <= j < |events| ==> events[j].eventId != id
      {
        i := i - 1;
        if events[i].eventId == id {
          return Some(i);
        }
      }
      return None;
    }

    /** The time of the last live event with the id, scanning from the end. */
    static method FindLastLiveTime(events: seq<Event>, id: string) returns (t: Option<nat>)
      ensures t == LastLiveTime(events, id)
    {
      var i := |events|;
      while i > 0
        invariant 0 <= i <= |events|
        invariant LastLiveTime(events, id) == LastLiveTime(events[..i], id)
      {
        assert events[..i][..i - 1] == events[..i - 1];
        assert events[..i][i - 1] == events[i - 1];
        i := i - 1;
        if events[i].eventId == id && !events[i].cancelled {
          return Some(events[i].time);
        }
      }
      assert events[..0] == [];
      return None;
    }

    /** Actions 0x1e and 0x1f. */
    method ProcessCancel(id: string, p: PlayerState) returns (q: PlayerState)
      modifies this
      ensures Slot(q, lastEventTime) == Cancel(id, Slot(p, old(lastEventTime)))
      ensures OnlyClock()
    {
      q := p;
      var k := FindLast(q.events, id);
      if k.Some? {
        q := q.(events := q.events[k.value := q.events[k.value].(cancelled := true)]);
        var last := FindLastLiveTime(q.events, id);
        if last.Some? && last.value != 0 {
          lastEventTime := lastEventTime[id := last.value];
        } else {
          lastEventTime := lastEventTime - {id};
        }
      }
    }

    /** Action 0x19. */
    method ProcessSelect(itemId: seq<int>, p: PlayerState) returns (q: PlayerState)
      modifies this
      ensures Slot(q, lastEventTime) == SelectAction(config, itemId, Slot(p, old(lastEventTime)), duration)
      ensures OnlyClock()
    {
      q := p;
      var id := ToGameId(itemId);
      if id.None? {
        return;
      }
      if id.value in config.lookup.raceByPicker && !q.raceFinalized {
        q := ProcessRacePick(id.value, q);
      }
      if id.value in config.lookup.bonuses {
        q := ProcessBonusPick(id.value, q);
      }
    }

    /** What an action does to the acting player's record and the clock. */
    method ProcessEffect(a: Action, p: PlayerState) returns (r: Result<PlayerState, Fault>)
      modifies this
      ensures r.Ok? ==> ActionEffect(config, a, Slot(p, old(lastEventTime)), duration) == Ok(Slot(r.value, lastEventTime))
      ensures r.Err? ==> ActionEffect(config, a, Slot(p, old(lastEventTime)), duration) == Err(r.error)
      ensures OnlyClock()
    {
      if a.id == 0x19 {
        var q := ProcessSelect(a.itemId, p);
        return Ok(q);
      } else if a.id == 0x6b {
        if config.mapType == OZ {
          r := ProcessMmdTypeOz(a, p);
        } else {
          r := Ok(p);
        }
      } else if a.id == 0x1e || a.id == 0x1f {
        var id := ToGameId(a.itemId);
        if id.None? {
          return Ok(p);
        }
        var q := ProcessCancel(id.value, p);
        return Ok(q);
      } else {
        var ids: seq<string> := [];
        if a.id == 0x10 || a.id == 0x11 {
          ids := AddObject([a.orderId]);
        } else if a.id == 0x12 {
          ids := AddObject([a.orderId, a.target]);
        } else if a.id == 0x15 {
          ids := AddObject([a.orderId1, a.target]);
        }
        var q := ProcessItems(ids, p);
        return Ok(q);
      }
    }

    /** `processAction`. */
    method ProcessAction(a: Action, playerId: int) returns (r: Result<(), Fault>)
      modifies this
      ensures r.Ok? ==> ActionStep(config, old(Snapshot()), a, playerId) == Ok(Snapshot())
      ensures r.Err? ==> ActionStep(config, old(Snapshot()), a, playerId) == Err(r.error)
    {
      if playerId !in playersMap || playersMap[playerId].leaved {
        return Ok(());
      }
      var p := playersMap[playerId].(time := duration);
      var e := ProcessEffect(a, p);
      if e.Err? {
        return Err(e.error);
      }
      playersMap := playersMap[playerId := e.value];
      return Ok(());
    }

    /** The actions of one command block, in order. */
    method ProcessCommand(cmd: CommandBlock) returns (r: Result<(), Fault>)
      modifies this
      ensures r.Ok? ==> ActionsStep(config, old(Snapshot()), cmd.actions, cmd.playerId) == Ok(Snapshot())
      ensures r.Err? ==> ActionsStep(config, old(Snapshot()), cmd.actions, cmd.playerId) == Err(r.error)
    {
      for j := 0 to |cmd.actions|
        invariant ActionsStep(config, old(Snapshot()), cmd.actions[..j], cmd.playerId) == Ok(Snapshot())
      {
        assert cmd.actions[..j + 1][..j] == cmd.actions[..j];
        var res := ProcessAction(cmd.actions[j], cmd.playerId);
        if res.Err? {
          ActionsErrStays(config, old(Snapshot()), cmd.actions, j + 1, cmd.playerId, res.error);
          return Err(res.error);
        }
      }
      assert cmd.actions[..|cmd.actions|] == cmd.actions;
      return Ok(());
    }

    /** The command blocks of a time slot. */
    method ProcessCommands(cmds: seq<CommandBlock>) returns (r: Result<(), Fault>)
      modifies this
      ensures r.Ok? ==> CommandsStep(config, old(Snapshot()), cmds) == Ok(Snapshot())
      ensures r.Err? ==> CommandsStep(config, old(Snapshot()), cmds) == Err(r.error)
    {
      for i := 0 to |cmds|
        invariant CommandsStep(config, old(Snapshot()), cmds[..i]) == Ok(Snapshot())
      {
        assert cmds[..i + 1][..i] == cmds[..i];
        var res := ProcessCommand(cmds[i]);
        if res.Err? {
          CommandsErrStays(config, old(Snapshot()), cmds, i + 1, res.error);
          assert cmds[..|cmds|] == cmds;
          return Err(res.error);
        }
      }
      assert cmds[..|cmds|] == cmds;
      return Ok(());
    }

    /** The game-data block loop of `parse`. */
    method ProcessBlocks(blocks: seq<GameDataBlock>) returns (r: Result<(), Fault>)
      modifies this
      ensures r.Ok? ==> Run(config, old(Snapshot()), blocks) == Ok(Snapshot())
      ensures r.Err? ==> Run(config, old(Snapshot()), blocks) == Err(r.error)
    {
      for i := 0 to |blocks|
        invariant Run(config, old(Snapshot()), blocks[..i]) == Ok(Snapshot())
      {
        assert blocks[..i + 1][..i] == blocks[..i];
        var b := blocks[i];
        if IsTimeslotBlock(b) {
          duration := duration + b.timeIncrement;
          var res := ProcessCommands(b.commandBlocks);
          if res.Err? {
            RunErrStays(config, old(Snapshot()), blocks, i + 1, res.error);
            assert blocks[..|blocks|] == blocks;
            return Err(res.error);
          }
        } else if IsLeaveGameBlock(b) {
          if b.playerId in playersMap && playersMap[b.playerId].race == "" {
            playersMap := playersMap - {b.playerId};
            order := Without(order, b.playerId);
          }
        }
      }
      assert blocks[..|blocks|] == blocks;
      return Ok(());
    }

    /** `parse` from the decoded block stream, then `resultData`. */
    method Parse(blocks: seq<GameDataBlock>, mapName: string) returns (r: Result<ReplayResult, ParseError>)
      requires Snapshot() == InitialState(roster)
      modifies this
      ensures r == Interpreter.Parse(config, roster, blocks, mapName)
    {
      var res := ProcessBlocks(blocks);
      if res.Err? {
        return Err(Crashed(res.error));
      }
      r := ResultData(Snapshot(), mapName);
    }
  }

  /** Once a prefix of the actions faults, the whole command block does. */
  lemma {:induction false} ActionsErrStays(c: Config, st: State, actions: seq<Action>, k: nat, pid: int, f: Fault)
    requires k <= |actions| && ActionsStep(c, st, actions[..k], pid) == Err(f)
    ensures ActionsStep(c, st, actions, pid) == Err(f)
    decreases |actions| - k
  {
    if k < |actions| {
      assert actions[..k + 1][..k] == actions[..k];
      ActionsErrStays(c, st, actions, k + 1, pid, f);
    } else {
      assert actions[..k] == actions;
    }
  }

  /** Once a prefix of the command blocks faults, the whole time slot does. */
  lemma {:induction false} CommandsErrStays(c: Config, st: State, cmds: seq<CommandBlock>, k: nat, f: Fault)
    requires 0 < k <= |cmds|
    requires CommandsStep(c, st, cmds[..k - 1]).Ok?
    requires ActionsStep(c, CommandsStep(c, st, cmds[..k - 1]).value, cmds[k - 1].actions, cmds[k - 1].playerId) == Err(f)
    ensures CommandsStep(c, st, cmds) == Err(f)
  {
    assert cmds[..k][..k - 1] == cmds[..k - 1];
    CommandsPrefixErr(c, st, cmds, k, f);
  }

  lemma {:induction false} CommandsPrefixErr(c: Config, st: State, cmds: seq<CommandBlock>, k: nat, f: Fault)
    requires k <= |cmds| && CommandsStep(c, st, cmds[..k]) == Err(f)
    ensures CommandsStep(c, st, cmds) == Err(f)
    decreases |cmds| - k
  {
    if k < |cmds| {
      assert cmds[..k + 1][..k] == cmds[..k];
      CommandsPrefixErr(c, st, cmds, k + 1, f);
    } else {
      assert cmds[..k] == cmds;
    }
  }

  /** Once a prefix of the blocks faults, the whole run does. */
  lemma {:induction false} RunErrStays(c: Config, st: State, blocks: seq<GameDataBlock>, k: nat, f: Fault)
    requires k <= |blocks| && Run(c, st, blocks[..k]) == Err(f)
    ensures Run(c, st, blocks) == Err(f)
    decreases |blocks| - k
  {
    if k < |blocks| {
      assert blocks[..k + 1][..k] == blocks[..k];
      RunErrStays(c, st, blocks, k + 1, f);
    } else {
      assert blocks[..k] == blocks;
    }
  }
}
