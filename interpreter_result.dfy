/** Properties of the final ranking, of the `oz` ultimate guard and of whole
    parses. */
module InterpreterResult {
  import opened Wrappers
  import opened Js
  import opened W3g
  import opened Interpreter
  import opened InterpreterSteps

  /** Ordered by descending time. */
  predicate ByTimeDesc(ps: seq<PlayerState>) {
    forall i, j :: 0 <= i < j < |ps| ==> ps[i].time >= ps[j].time
  }

  /** The records with the given time, in list order. */
  function AtTime(ps: seq<PlayerState>, t: nat): seq<PlayerState> {
    if ps == [] then []
    else AtTime(ps[..|ps| - 1], t) + (if ps[|ps| - 1].time == t then [ps[|ps| - 1]] else [])
  }

  lemma {:induction false} AtTimeConcat(a: seq<PlayerState>, b: seq<PlayerState>, t: nat)
    ensures AtTime(a + b, t) == AtTime(a, t) + AtTime(b, t)
  {
    if b != [] {
      AtTimeConcat(a, b[..|b| - 1], t);
      assert (a + b)[..|a + b| - 1] == a + b[..|b| - 1];
    } else {
      assert a + b == a;
    }
  }

  lemma {:induction false} InsertPerm(x: PlayerState, s: seq<PlayerState>)
    ensures multiset(InsertByTime(x, s)) == multiset(s) + multiset{x}
  {
    if !(s == [] || s[|s| - 1].time >= x.time) {
      InsertPerm(x, s[..|s| - 1]);
      assert s == s[..|s| - 1] + [s[|s| - 1]];
    }
  }

  lemma {:induction false} InsertSorted(x: PlayerState, s: seq<PlayerState>)
    requires ByTimeDesc(s)
    ensures ByTimeDesc(InsertByTime(x, s))
  {
    if !(s == [] || s[|s| - 1].time >= x.time) {
      var init := s[..|s| - 1];
      var last := s[|s| - 1];
      InsertSorted(x, init);
      InsertBound(x, init, last.time);
      var r := InsertByTime(x, init);
      forall i, j | 0 <= i < j < |r| + 1
        ensures (r + [last])[i].time >= (r + [last])[j].time
      {
        if j == |r| {
          assert (r + [last])[i] == r[i];
        } else {
          assert (r + [last])[i] == r[i] && (r + [last])[j] == r[j];
        }
      }
    }
  }

  /** Inserting keeps every time above a bound that holds for all records. */
  lemma {:induction false} InsertBound(x: PlayerState, s: seq<PlayerState>, bound: int)
    requires x.time >= bound && forall i :: 0 <= i < |s| ==> s[i].time >= bound
    ensures forall i :: 0 <= i < |InsertByTime(x, s)| ==> InsertByTime(x, s)[i].time >= bound
  {
    if !(s == [] || s[|s| - 1].time >= x.time) {
      InsertBound(x, s[..|s| - 1], bound);
    }
  }

  /** Inserting keeps the relative order of the records of each time: the
      inserted record comes after those of its own time. */
  lemma {:induction false} InsertStable(x: PlayerState, s: seq<PlayerState>, t: nat)
    ensures AtTime(InsertByTime(x, s), t) == AtTime(s, t) + (if x.time == t then [x] else [])
  {
    if s == [] || s[|s| - 1].time >= x.time {
      AtTimeConcat(s, [x], t);
    } else {
      var init := s[..|s| - 1];
      var last := s[|s| - 1];
      InsertStable(x, init, t);
      AtTimeConcat(InsertByTime(x, init), [last], t);
      assert AtTime(s, t) == AtTime(init, t) + AtTime([last], t) by {
        assert s == init + [last];
        AtTimeConcat(init, [last], t);
      }
    }
  }

  /** `SortByTime` orders by descending time, is a permutation of its input,
      and is stable: the records of each time keep their input order. */
  lemma {:induction false} SortByTimeSpec(ps: seq<PlayerState>)
    ensures ByTimeDesc(SortByTime(ps))
    ensures multiset(SortByTime(ps)) == multiset(ps)
    ensures forall t :: AtTime(SortByTime(ps), t) == AtTime(ps, t)
  {
    if ps != [] {
      var init := ps[..|ps| - 1];
      var last := ps[|ps| - 1];
      SortByTimeSpec(init);
      InsertSorted(last, SortByTime(init));
      InsertPerm(last, SortByTime(init));
      assert ps == init + [last];
      forall t
        ensures AtTime(SortByTime(ps), t) == AtTime(ps, t)
      {
        InsertStable(last, SortByTime(init), t);
      }
    }
  }

  /** The records kept for the ranking are exactly those with a race. */
  lemma {:induction false} WithRaceMembers(ps: seq<PlayerState>)
    ensures forall x :: x in WithRace(ps) <==> x in ps && x.race != ""
    ensures multiset(WithRace(ps)) <= multiset(ps)
  {
    if ps != [] {
      WithRaceMembers(ps[..|ps| - 1]);
      assert ps == ps[..|ps| - 1] + [ps[|ps| - 1]];
    }
  }

  /** The live events are exactly the events that were not cancelled. */
  lemma {:induction false} LiveEventsMembers(events: seq<Event>)
    ensures forall e :: e in LiveEvents(events) <==> e in events && !e.cancelled
  {
    if events != [] {
      LiveEventsMembers(events[..|events| - 1]);
      assert events == events[..|events| - 1] + [events[|events| - 1]];
    }
  }

  /** `resultData` fails, with the number of ranked players, exactly when
      fewer than two players have a race. */
  lemma ResultDataFails(st: State, mapName: string)
    ensures var raced := WithRace(PlayerList(st));
      ResultData(st, mapName) == Err(NotEnoughPlayers(|raced|)) <==> |raced| < 2
    ensures ResultData(st, mapName).Err? ==> ResultData(st, mapName).error.NotEnoughPlayers?
  {
  }

  /** `ps` holds the records of `raced`, each exactly as often, and the
      records of each time in the order `raced` has them. */
  ghost predicate StableReorder(ps: seq<PlayerState>, raced: seq<PlayerState>) {
    multiset(ps) == multiset(raced) && forall t :: AtTime(ps, t) == AtTime(raced, t)
  }

  /** A ranking of the records `raced`: as many players, by descending time,
      with places 1..N and without cancelled events, each built from a record
      of `raced` that has a race; the records they are built from are all of
      `raced`, reordered stably. */
  ghost predicate IsRanking(players: seq<PlayerState>, raced: seq<PlayerState>) {
    && |players| == |raced|
    && ByTimeDesc(players)
    && (forall i :: 0 <= i < |players| ==> players[i].place == i + 1)
    && (forall i, e :: 0 <= i < |players| && e in players[i].events ==> !e.cancelled)
    && (forall i :: 0 <= i < |players| ==>
          exists q :: q in raced && q.race != "" && players[i] == q.(place := i + 1, events := LiveEvents(q.events)))
    && (exists sorted: seq<PlayerState> :: |sorted| == |players| && StableReorder(sorted, raced)
          && forall i :: 0 <= i < |players| ==>
               players[i] == sorted[i].(place := i + 1, events := LiveEvents(sorted[i].events)))
  }

  /** Otherwise it ranks the players with a race. */
  lemma ResultDataRanking(st: State, mapName: string)
    ensures ResultData(st, mapName).Ok? ==> IsRanking(ResultData(st, mapName).value.players, WithRace(PlayerList(st)))
  {
    var raced := WithRace(PlayerList(st));
    WithRaceMembers(PlayerList(st));
    RankedSpec(raced);
  }

  lemma RankedSpec(raced: seq<PlayerState>)
    requires forall q :: q in raced ==> q.race != ""
    ensures IsRanking(Ranked(SortByTime(raced)), raced)
  {
    var sorted := SortByTime(raced);
    var ranked := Ranked(sorted);
    SortByTimeSpec(raced);
    forall i | 0 <= i < |ranked|
      ensures exists q :: q in raced && q.race != "" && ranked[i] == q.(place := i + 1, events := LiveEvents(q.events))
    {
      var q := sorted[i];
      assert q in multiset(sorted);
      assert q in raced;
      assert ranked[i] == q.(place := i + 1, events := LiveEvents(q.events));
    }
    forall i, e | 0 <= i < |ranked| && e in ranked[i].events
      ensures !e.cancelled
    {
      LiveEventsMembers(sorted[i].events);
    }
    forall i, j | 0 <= i < j < |ranked|
      ensures ranked[i].time >= ranked[j].time
    {
      assert ranked[i].time == sorted[i].time && ranked[j].time == sorted[j].time;
    }
    assert StableReorder(sorted, raced);
  }

  lemma MaxTimeBounds(ps: seq<PlayerState>)
    requires ps != []
    ensures forall q :: q in ps ==> q.time <= MaxTime(ps)
    ensures exists q :: q in ps && q.time == MaxTime(ps)
  {
    forall q | q in ps
      ensures q.time <= MaxTime(ps)
    {
      var i :| 0 <= i < |ps| && ps[i] == q;
    }
    var i :| 0 <= i < |ps| && ps[i].time == MaxTime(ps);
    assert ps[i] in ps;
  }

  /** Its duration is the largest time of all players still in the map, and
      its map is the file name of the map path. */
  lemma ResultDataDuration(st: State, mapName: string)
    ensures ResultData(st, mapName).Ok? ==>
      var r := ResultData(st, mapName).value;
      && (forall q :: q in PlayerList(st) ==> q.time <= r.duration)
      && (exists q :: q in PlayerList(st) && q.time == r.duration)
      && r.mapName == BaseName(mapName)
  {
    var ps := PlayerList(st);
    var res := ResultData(st, mapName);
    if res.Ok? {
      assert |WithRace(ps)| >= 2;
      MaxTimeBounds(ps);
    }
  }

  /** The `oz` ultimate rule reads the race list by the player's race id. For
      a race id that has a non-digit character and is not an inherited
      property name of arrays, the guard fails and the action changes
      nothing; in particular players without a race are never affected. */
  lemma OzGuardMissesRaceIds(c: Config, a: Action, s: Slot, d: nat, k: nat)
    requires (k < |s.p.race| && !IsDigit(s.p.race[k])) || s.p.race == ""
    requires s.p.race != "length" && s.p.race !in PROTOTYPE_NAMES
    ensures MmdOz(c, a, s, d) == Ok(s)
  {
  }

  /** When the guard does pass, a cast whose key is a known aura or bonus
      throws: the parse fails. */
  lemma OzGuardHitThrows(c: Config, a: Action, s: Slot, d: nat)
    requires a.id == 0x6b && a.cacheKey.Some?
    requires var key := Last(Trim(a.cacheKey.value), 4);
      |key| == 4 && (key in c.lookup.auras || key in c.lookup.bonuses)
    requires ArrayEntryTruthy(c.gameData.races, s.p.race)
    ensures MmdOz(c, a, s, d) == Err(TypeError)
  {
  }

  /** Away from `oz` maps a parse never crashes: its only failure is too few
      players with a race. */
  lemma ParseFailsOnlyForFewPlayersOffOz(c: Config, records: seq<PlayerRecord>, blocks: seq<GameDataBlock>, mapName: string)
    requires TiersWellFormed(c) && c.mapType != OZ
    ensures Parse(c, records, blocks, mapName).Err? ==> Parse(c, records, blocks, mapName).error.NotEnoughPlayers?
  {
    InitialOrder(records);
    RunFollows(c, InitialState(records), blocks);
  }
}
