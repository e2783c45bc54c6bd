/** Properties of the dedup clock and of the per-player race, bonus and cancel
    rules of the replay interpreter. */
module InterpreterEvents {
  import opened Wrappers
  import opened ParserConst
  import opened GameData
  import opened Js
  import opened Interpreter

  /** An event is dropped exactly when its id is on the clock and the lag of
      its type has not elapsed since the clock's time, and then neither the
      record nor the clock changes; an accepted event is appended and becomes
      the clock's time for its id. */
  lemma InsertEventDedup(s: Slot, e: Event)
    ensures var r := InsertEvent(s, e);
      (r.p.events == s.p.events) <==> (e.eventId in s.clock && Suppresses(SameEventLag(e.eventType), e.time, s.clock[e.eventId]))
    ensures var r := InsertEvent(s, e);
      r.p.events != s.p.events ==> r.p.events == s.p.events + [e] && r.clock == s.clock[e.eventId := e.time]
    ensures InsertEvent(s, e).p == s.p.(events := InsertEvent(s, e).p.events)
    ensures InsertEvent(s, e).p.events == s.p.events ==> InsertEvent(s, e) == s
  {
    var r := InsertEvent(s, e);
    if !(e.eventId in s.clock && Suppresses(SameEventLag(e.eventType), e.time, s.clock[e.eventId])) {
      assert |r.p.events| == |s.p.events| + 1;
    }
  }

  /** Fortress upgrades are recorded at most once per clock entry: while their
      id is on the clock, every later one is dropped, whatever its time. */
  lemma FortDroppedWhileClocked(s: Slot, t: PlayerEvent, id: string, time: nat)
    requires t == UP_FORT2 || t == UP_FORT3
    requires id in s.clock
    ensures InsertEvent(s, NewEvent(t, id, time)) == s
  {
  }

  /** A base upgrade with a clocked id is dropped exactly when it comes less
      than 18 seconds after the clocked time. */
  lemma BaseUpgradeWindow(s: Slot, id: string, time: nat)
    requires id in s.clock
    ensures InsertEvent(s, NewEvent(BASE_UPGRADE, id, time)) == s <==> time < s.clock[id] + 18000
  {
    if time >= s.clock[id] + 18000 {
      assert |InsertEvent(s, NewEvent(BASE_UPGRADE, id, time)).p.events| == |s.p.events| + 1;
    }
  }

  /** A tower upgrade with a clocked id is dropped exactly when it comes less
      than 75 seconds after the clocked time. */
  lemma TowerUpgradeWindow(s: Slot, id: string, time: nat)
    requires id in s.clock
    ensures InsertEvent(s, NewEvent(TOWER_UPGRADE, id, time)) == s <==> time < s.clock[id] + 75000
  {
    if time >= s.clock[id] + 75000 {
      assert |InsertEvent(s, NewEvent(TOWER_UPGRADE, id, time)).p.events| == |s.p.events| + 1;
    }
  }

  /** The clock is shared by all players: once one player's fortress upgrade
      is recorded, another player's upgrade with the same id is dropped. */
  lemma FortClockSharedAcrossPlayers(a: PlayerState, b: PlayerState, clock: Clock, t: PlayerEvent, id: string, t1: nat, t2: nat)
    requires t == UP_FORT2 || t == UP_FORT3
    ensures var sa := InsertEvent(Slot(a, clock), NewEvent(t, id, t1));
      InsertEvent(Slot(b, sa.clock), NewEvent(t, id, t2)).p == b
  {
  }

  /** The same holds for the initial race: when two players start with the
      same race, only the first one gets the initial-race event. */
  lemma InitialRaceSharedAcrossPlayers(c: Config, pickerId: string, a: PlayerState, b: PlayerState, clock: Clock, d1: nat, d2: nat)
    requires a.race == "" && b.race == ""
    ensures var sa := RacePick(c, pickerId, Slot(a, clock), d1);
      RacePick(c, pickerId, Slot(b, sa.clock), d2).p.events == b.events
  {
    var raceId := if pickerId in c.lookup.raceByPicker then c.lookup.raceByPicker[pickerId] else "";
    if pickerId != "" && raceId != "" {
      var sa := RacePick(c, pickerId, Slot(a, clock), d1);
      assert raceId in sa.clock;
    }
  }

  /** A race picker sets the player's race to the picker's race. The first
      race gives an initial-race event at time 0 (unless another player's
      clock entry suppresses it); picking the same race again changes nothing
      else; picking a different race finalizes the race and records a repick
      of the previous one. */
  lemma RacePickRules(c: Config, pickerId: string, s: Slot, d: nat)
    ensures pickerId !in c.lookup.raceByPicker || pickerId == "" || c.lookup.raceByPicker[pickerId] == "" ==>
      RacePick(c, pickerId, s, d) == s
    ensures pickerId in c.lookup.raceByPicker && pickerId != "" && c.lookup.raceByPicker[pickerId] != "" ==>
      var r := RacePick(c, pickerId, s, d);
      var raceId := c.lookup.raceByPicker[pickerId];
      && r.p.race == raceId
      && (s.p.race == "" ==>
            r.p.raceFinalized == s.p.raceFinalized
            && r.p.events in {s.p.events, s.p.events + [NewEvent(INITIAL_RACE, raceId, 0)]})
      && (s.p.race == raceId ==> r == Slot(s.p.(race := raceId), s.clock))
      && (s.p.race != "" && s.p.race != raceId ==>
            r.p.raceFinalized
            && r.p.events in {s.p.events, s.p.events + [NewEvent(REPICK_RACE, s.p.race, d)]})
  {
    if pickerId in c.lookup.raceByPicker && pickerId != "" && c.lookup.raceByPicker[pickerId] != "" {
      var raceId := c.lookup.raceByPicker[pickerId];
      var s1 := Slot(s.p.(race := raceId), s.clock);
      if s.p.race == "" {
        InsertEventDedup(s1, NewEvent(INITIAL_RACE, raceId, 0));
      } else if s.p.race != raceId {
        InsertEventDedup(Slot(s1.p.(raceFinalized := true), s1.clock), NewEvent(REPICK_RACE, s.p.race, d));
      }
    }
  }

  /** A bonus pick sets the bonus exactly when the player has a race whose
      game data lists the bonus; nothing else changes. */
  lemma BonusPickOnlyListed(c: Config, id: string, s: Slot)
    ensures var r := BonusPick(c, id, s);
      r.clock == s.clock && r.p == s.p.(bonus := r.p.bonus)
    ensures var r := BonusPick(c, id, s);
      r.p.bonus == Some(id) || r.p.bonus == s.p.bonus
    ensures (BonusPick(c, id, s).p.bonus == Some(id)) <==>
      (s.p.bonus == Some(id) ||
       (id != "" && s.p.race != "" && Get(c.gameData.raceData, s.p.race).Some?
        && id in Get(c.gameData.raceData, s.p.race).value.bonuses))
  {
  }

  /** Buying a unit of a race always leaves the player with that race. A
      player without a race gets it with an initial-race event; a player with
      another race is finalized with a repick event of the old race; a player
      already of that race is finalized only after seven minutes. */
  lemma RaceByUnitRules(raceId: string, s: Slot, d: nat)
    ensures var r := RaceByUnit(raceId, s, d);
      r.p.race == raceId
      && (s.p.raceFinalized ==> r.p.raceFinalized)
      && (s.p.race != "" && s.p.race != raceId ==>
            r.p.raceFinalized && r.p.events in {s.p.events, s.p.events + [NewEvent(REPICK_RACE, s.p.race, d)]})
      && (s.p.race != "" && s.p.race == raceId ==>
            r.p.events == s.p.events && r.p.raceFinalized == (s.p.raceFinalized || d > 7 * 60 * 1000))
      && (s.p.race == "" ==>
            r.p.raceFinalized == s.p.raceFinalized
            && r.p.events in {s.p.events, s.p.events + [NewEvent(INITIAL_RACE, raceId, 0)]})
  {
    if s.p.race == "" {
      InsertEventDedup(Slot(s.p.(race := raceId), s.clock), NewEvent(INITIAL_RACE, raceId, 0));
    } else if s.p.race != raceId {
      InsertEventDedup(s, NewEvent(REPICK_RACE, s.p.race, d));
    }
  }

  /** `k` is the last live event with the id: it has the id, is not
      cancelled, and every later event with the id is cancelled. */
  predicate LastLiveAt(events: seq<Event>, id: string, k: int) {
    && 0 <= k < |events| && events[k].eventId == id && !events[k].cancelled
    && forall j :: k < j < |events| && events[j].eventId == id ==> events[j].cancelled
  }

  /** `LastLiveTime` finds the time of the one last live event, if any. */
  lemma LastLiveTimeAt(events: seq<Event>, id: string)
    ensures LastLiveTime(events, id).Some? <==> exists k :: LastLiveAt(events, id, k)
    ensures forall k :: LastLiveAt(events, id, k) ==> LastLiveTime(events, id) == Some(events[k].time)
  {
    var t := LastLiveTime(events, id);
    forall k | LastLiveAt(events, id, k)
      ensures t == Some(events[k].time)
    {
      var k' :| 0 <= k' < |events| && events[k'].eventId == id && !events[k'].cancelled && events[k'].time == t.value
        && forall j :: k' < j < |events| ==> events[j].eventId != id || events[j].cancelled;
      assert !(k < k') && !(k' < k);
    }
    if t.Some? {
      var k' :| 0 <= k' < |events| && events[k'].eventId == id && !events[k'].cancelled && events[k'].time == t.value
        && forall j :: k' < j < |events| ==> events[j].eventId != id || events[j].cancelled;
      assert LastLiveAt(events, id, k');
    }
  }

  /** Cancelling marks the most recent event with the id as cancelled and
      changes no other event; afterwards the clock holds the time of the last
      live event with the id, and forgets the id when there is none or its
      time is 0, which the source treats as absent. Other ids keep their
      clock entries. */
  lemma CancelSpec(id: string, s: Slot)
    ensures (forall j :: 0 <= j < |s.p.events| ==> s.p.events[j].eventId != id) ==> Cancel(id, s) == s
    ensures var r := Cancel(id, s);
      && (forall x :: x != id ==> (x in r.clock <==> x in s.clock))
      && (forall x :: x != id && x in r.clock ==> r.clock[x] == s.clock[x])
    ensures (exists j :: 0 <= j < |s.p.events| && s.p.events[j].eventId == id) ==>
      var r := Cancel(id, s);
      && (exists k :: 0 <= k < |s.p.events| && s.p.events[k].eventId == id
            && (forall j :: k < j < |s.p.events| ==> s.p.events[j].eventId != id)
            && r.p == s.p.(events := s.p.events[k := s.p.events[k].(cancelled := true)]))
      && (id in r.clock <==> exists k :: LastLiveAt(r.p.events, id, k) && r.p.events[k].time != 0)
      && (forall k :: LastLiveAt(r.p.events, id, k) && id in r.clock ==> r.clock[id] == r.p.events[k].time)
  {
    var k := LastWithId(s.p.events, id);
    if k.Some? {
      var events := s.p.events[k.value := s.p.events[k.value].(cancelled := true)];
      LastLiveTimeAt(events, id);
    }
  }

  /** The clock does not keep fortress upgrades unique per replay: a player
      who cancels the same id again, after another player has built it, clears
      the shared entry, and the other player's next upgrade with that id is
      recorded a second time. */
  lemma FortRecordedTwiceAfterForeignCancel(a: PlayerState, b: PlayerState, id: string)
    requires a.events == [] && b.events == []
    ensures var s1 := InsertEvent(Slot(b, map[]), NewEvent(UP_FORT2, id, 1000));
      var s2 := Cancel(id, s1);
      var s3 := InsertEvent(Slot(a, s2.clock), NewEvent(UP_FORT2, id, 2000));
      var s4 := Cancel(id, Slot(s2.p, s3.clock));
      var s5 := InsertEvent(Slot(s3.p, s4.clock), NewEvent(UP_FORT2, id, 3000));
      s5.p.events == [NewEvent(UP_FORT2, id, 2000), NewEvent(UP_FORT2, id, 3000)]
  {
    var s1 := InsertEvent(Slot(b, map[]), NewEvent(UP_FORT2, id, 1000));
    assert s1.p.events == [NewEvent(UP_FORT2, id, 1000)];
    var s2 := Cancel(id, s1);
    assert LastWithId(s1.p.events, id) == Some(0);
    assert s2.p.events == [Event(UP_FORT2, id, 1000, true)];
    assert LastLiveTime(s2.p.events, id) == None;
    assert id !in s2.clock;
    var s3 := InsertEvent(Slot(a, s2.clock), NewEvent(UP_FORT2, id, 2000));
    assert s3.p.events == [NewEvent(UP_FORT2, id, 2000)];
    var s4 := Cancel(id, Slot(s2.p, s3.clock));
    assert LastWithId(s2.p.events, id) == Some(0);
    assert s4.p.events == s2.p.events;
    assert id !in s4.clock;
  }
}
