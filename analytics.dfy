/** The in-memory aggregation of `AnalyticRepository`: the per-race statistics
    built from grouped player and event counts, the quantile bucket of a
    match, the per-bonus statistics, and the upgrade heatmap. The grouped
    rows come from the database and are inputs; rates are exact ratios. */
module Analytics {
  import opened Wrappers
  import opened ParserConst

  /** A `groupBy` count (`_count._all`): a group has at least one row. */
  type Count = c: int | c >= 1 witness 1

  // ---------------------------------------------------------------------------
  // getRaceStats

  /** A `player.groupBy({ by: ['raceId', 'place'] })` row. */
  datatype PlayerGroup = PlayerGroup(raceId: string, place: int, count: Count)

  /** A `playerEvent.groupBy({ by: ['eventId', 'eventType'] })` row. */
  datatype EventGroup = EventGroup(eventId: string, eventType: PlayerEvent, count: Count)

  /** One entry of `grouped`. */
  datatype Group = Group(
    totalMatches: nat, picks: nat, wins: nat,
    init: nat, repicks: nat, bans: nat,
    places: map<int, nat>)

  const EMPTY_GROUP: Group := Group(0, 0, 0, 0, 0, 0, map[])

  /** `createEmptyGroup(key)`: an existing group is left as it is. */
  function CreateEmptyGroup(g: map<string, Group>, key: string): (r: map<string, Group>)
    ensures key in r && r[key] == (if key in g then g[key] else EMPTY_GROUP)
    ensures forall k :: k != key ==> (k in r <==> k in g)
    ensures forall k :: k in g ==> r[k] == g[k]
  {
    if key in g then g else g[key := EMPTY_GROUP]
  }

  /** One pass of the players loop. */
  function AddPlayer(g: map<string, Group>, p: PlayerGroup): map<string, Group> {
    var g1 := CreateEmptyGroup(g, p.raceId);
    var o := g1[p.raceId];
    g1[p.raceId := o.(
      totalMatches := o.totalMatches + p.count,
      picks := o.picks + p.count,
      places := o.places[p.place := p.count],
      wins := if p.place == 1 then p.count else o.wins)]
  }

  /** The `switch (r.eventType)` of the events loop: only the three race
      events are counted, each in its own field. */
  function Counted(o: Group, t: PlayerEvent, count: Count): Group {
    match t
    case INITIAL_RACE => o.(init := count)
    case REPICK_RACE => o.(repicks := count)
    case BAN_RACE => o.(bans := count)
    case _ => o
  }

  /** One pass of the events loop. */
  function AddEvent(g: map<string, Group>, e: EventGroup): map<string, Group> {
    var g1 := CreateEmptyGroup(g, e.eventId);
    g1[e.eventId := Counted(g1[e.eventId], e.eventType, e.count)]
  }

  function FoldPlayers(g: map<string, Group>, ps: seq<PlayerGroup>): map<string, Group> {
    if ps == [] then g else AddPlayer(FoldPlayers(g, ps[..|ps| - 1]), ps[|ps| - 1])
  }

  function FoldEvents(g: map<string, Group>, es: seq<EventGroup>): map<string, Group> {
    if es == [] then g else AddEvent(FoldEvents(g, es[..|es| - 1]), es[|es| - 1])
  }

  /** `grouped` after both loops. */
  function Grouped(ps: seq<PlayerGroup>, es: seq<EventGroup>): map<string, Group> {
    FoldEvents(FoldPlayers(map[], ps), es)
  }

  // Reference definitions, row by row.

  predicate PlaysRace(ps: seq<PlayerGroup>, r: string) {
    exists p :: p in ps && p.raceId == r
  }

  predicate EmitsEvent(es: seq<EventGroup>, r: string) {
    exists e :: e in es && e.eventId == r
  }

  /** The sum of the counts of race `r`. */
  function SumFor(ps: seq<PlayerGroup>, r: string): nat {
    if ps == [] then 0
    else SumFor(ps[..|ps| - 1], r) + (if ps[|ps| - 1].raceId == r then ps[|ps| - 1].count else 0)
  }

  /** `players.reduce((a, b) => a + b._count._all, 0)`. */
  function Total(ps: seq<PlayerGroup>): (t: nat)
    ensures t >= |ps|
  {
    if ps == [] then 0 else Total(ps[..|ps| - 1]) + ps[|ps| - 1].count
  }

  /** The count of the last row of race `r` at place `place`. */
  function LastPlace(ps: seq<PlayerGroup>, r: string, place: int): Option<Count> {
    if ps == [] then None
    else if ps[|ps| - 1].raceId == r && ps[|ps| - 1].place == place then Some(ps[|ps| - 1].count)
    else LastPlace(ps[..|ps| - 1], r, place)
  }

  /** The count of the last event row of `r` with type `t`. */
  function LastEvent(es: seq<EventGroup>, r: string, t: PlayerEvent): Option<Count> {
    if es == [] then None
    else if es[|es| - 1].eventId == r && es[|es| - 1].eventType == t then Some(es[|es| - 1].count)
    else LastEvent(es[..|es| - 1], r, t)
  }

  function CountOr(c: Option<Count>, default: nat): nat {
    match c
    case Some(n) => n
    case None => default
  }

  /** Membership in a non-empty sequence is membership in its prefix or
      being its last element. */
  lemma InSnoc<T>(s: seq<T>)
    requires s != []
    ensures forall x :: x in s <==> x in s[..|s| - 1] || x == s[|s| - 1]
  {
    assert s == s[..|s| - 1] + [s[|s| - 1]];
  }

  lemma {:induction false} SumForPositive(ps: seq<PlayerGroup>, r: string)
    ensures PlaysRace(ps, r) <==> SumFor(ps, r) > 0
  {
    if ps != [] {
      SumForPositive(ps[..|ps| - 1], r);
      InSnoc(ps);
    }
  }

  /** After the players loop, a race has a group exactly when it has a row. */
  lemma {:induction false} FoldPlayersKeys(ps: seq<PlayerGroup>, r: string)
    ensures r in FoldPlayers(map[], ps) <==> PlaysRace(ps, r)
  {
    if ps != [] {
      FoldPlayersKeys(ps[..|ps| - 1], r);
      InSnoc(ps);
    }
  }

  /** A group's match and pick totals are the sum of its race's counts, and
      its event counts are still zero. */
  lemma {:induction false} FoldPlayersTotals(ps: seq<PlayerGroup>, r: string)
    ensures var g := FoldPlayers(map[], ps);
      && (r !in g ==> SumFor(ps, r) == 0)
      && (r in g ==>
            && g[r].totalMatches == SumFor(ps, r)
            && g[r].picks == SumFor(ps, r)
            && g[r].init == 0 && g[r].repicks == 0 && g[r].bans == 0)
  {
    if ps != [] {
      FoldPlayersTotals(ps[..|ps| - 1], r);
    }
  }

  /** A group holds a place exactly when a row of its race has that place,
      and holds the count of the last such row. */
  lemma {:induction false} FoldPlayersPlaces(ps: seq<PlayerGroup>, r: string, place: int)
    ensures var g := FoldPlayers(map[], ps);
      && (r !in g ==> LastPlace(ps, r, place).None?)
      && (r in g ==>
            && (place in g[r].places <==> LastPlace(ps, r, place).Some?)
            && (place in g[r].places ==> g[r].places[place] == LastPlace(ps, r, place).value))
  {
    if ps != [] {
      FoldPlayersPlaces(ps[..|ps| - 1], r, place);
    }
  }

  /** `wins` is the count of the race's last place-1 row, or 0. */
  lemma {:induction false} FoldPlayersWins(ps: seq<PlayerGroup>, r: string)
    ensures var g := FoldPlayers(map[], ps);
      r in g ==> g[r].wins == CountOr(LastPlace(ps, r, 1), 0)
  {
    if ps != [] {
      FoldPlayersWins(ps[..|ps| - 1], r);
      FoldPlayersPlaces(ps[..|ps| - 1], r, 1);
    }
  }

  /** The events loop creates a group for every race it meets. */
  lemma {:induction false} FoldEventsKeys(g0: map<string, Group>, es: seq<EventGroup>, r: string)
    ensures r in FoldEvents(g0, es) <==> r in g0 || EmitsEvent(es, r)
  {
    if es != [] {
      FoldEventsKeys(g0, es[..|es| - 1], r);
      InSnoc(es);
    }
  }

  function Base(g0: map<string, Group>, r: string): Group {
    if r in g0 then g0[r] else EMPTY_GROUP
  }

  /** Two groups agree on the player totals. */
  predicate SameTotals(a: Group, b: Group) {
    a.totalMatches == b.totalMatches && a.picks == b.picks && a.wins == b.wins && a.places == b.places
  }

  /** One event never touches the player totals of a group. */
  lemma AddEventKeeps(g: map<string, Group>, e: EventGroup, r: string)
    ensures SameTotals(Base(AddEvent(g, e), r), Base(g, r))
  {
    if r == e.eventId {
      var o := CreateEmptyGroup(g, r)[r];
      assert SameTotals(Counted(o, e.eventType, e.count), o);
    }
  }

  /** The events loop never touches the player totals of a group. */
  lemma {:induction false} FoldEventsKeeps(g0: map<string, Group>, es: seq<EventGroup>, r: string)
    ensures SameTotals(Base(FoldEvents(g0, es), r), Base(g0, r))
  {
    if es != [] {
      var prev := FoldEvents(g0, es[..|es| - 1]);
      FoldEventsKeeps(g0, es[..|es| - 1], r);
      assert FoldEvents(g0, es) == AddEvent(prev, es[|es| - 1]);
      AddEventKeeps(prev, es[|es| - 1], r);
    }
  }

  /** The field an event type is counted in; other types count nowhere. */
  function EventField(o: Group, t: PlayerEvent): nat {
    match t
    case INITIAL_RACE => o.init
    case REPICK_RACE => o.repicks
    case BAN_RACE => o.bans
    case _ => 0
  }

  /** Counting an event keeps the player totals and sets the field of its
      own type only. */
  lemma CountedFields(o: Group, t: PlayerEvent, count: Count, u: PlayerEvent)
    requires u == INITIAL_RACE || u == REPICK_RACE || u == BAN_RACE
    ensures var o2 := Counted(o, t, count);
      && o2.totalMatches == o.totalMatches && o2.picks == o.picks
      && o2.wins == o.wins && o2.places == o.places
      && EventField(o2, u) == (if t == u then count else EventField(o, u))
  {
  }

  /** `init`, `repicks` and `bans` take the count of the race's last event of
      that type, whatever the other event types do. */
  lemma {:induction false} FoldEventsCounts(g0: map<string, Group>, es: seq<EventGroup>, r: string, t: PlayerEvent)
    requires t == INITIAL_RACE || t == REPICK_RACE || t == BAN_RACE
    ensures var g := FoldEvents(g0, es);
      && (r !in g ==> LastEvent(es, r, t).None?)
      && (r in g ==> EventField(g[r], t) == CountOr(LastEvent(es, r, t), EventField(Base(g0, r), t)))
  {
    if es != [] {
      var pre := es[..|es| - 1];
      var e := es[|es| - 1];
      FoldEventsCounts(g0, pre, r, t);
      FoldEventsKeys(g0, pre, r);
      if e.eventId == r {
        var gp := FoldEvents(g0, pre);
        CountedFields(Base(gp, r), e.eventType, e.count, t);
      }
    }
  }

  /** Every group of a race with a place has picks to divide by. */
  lemma GroupedPicks(ps: seq<PlayerGroup>, es: seq<EventGroup>)
    ensures var g := Grouped(ps, es);
      forall r, place :: r in g && place in g[r].places ==> g[r].picks > 0
  {
    var g := Grouped(ps, es);
    forall r, place | r in g && place in g[r].places
      ensures g[r].picks > 0
    {
      FoldEventsKeeps(FoldPlayers(map[], ps), es, r);
      FoldPlayersPlaces(ps, r, place);
      FoldPlayersTotals(ps, r);
      FoldPlayersKeys(ps, r);
      SumForPositive(ps, r);
    }
  }

  /** One element of the result of `getRaceStats`; rates are percentages. */
  datatype RaceStat = RaceStat(
    totalMatches: nat, pickrate: real, winrate: real, repickrate: real, banrate: real,
    places: map<int, real>)

  function Percent(a: nat, b: nat): real
    requires b > 0
  {
    a as real / b as real * 100.0
  }

  /** The final mapping of one group, with its zero guards. */
  function StatOf(o: Group, totalPlayers: nat, totalMatches: nat): (s: RaceStat)
    requires totalPlayers > 0
    requires forall place :: place in o.places ==> o.picks > 0
    ensures s.repickrate == (if o.init == 0 then 0.0 else Percent(o.repicks, o.init))
    ensures s.banrate == (if totalMatches == 0 then 0.0 else Percent(o.bans, totalMatches))
    ensures s.winrate == Percent(o.wins, if o.picks == 0 then 1 else o.picks)
    ensures s.places.Keys == o.places.Keys
  {
    RaceStat(
      o.totalMatches,
      Percent(o.picks, totalPlayers),
      Percent(o.wins, if o.picks == 0 then 1 else o.picks),
      if o.init != 0 then Percent(o.repicks, o.init) else 0.0,
      if totalMatches > 0 then Percent(o.bans, totalMatches) else 0.0,
      map place | place in o.places :: Percent(o.places[place], o.picks))
  }

  /** `getRaceStats` after its queries, keyed by race. */
  function RaceStats(ps: seq<PlayerGroup>, es: seq<EventGroup>, totalMatches: nat): (stats: map<string, RaceStat>)
    ensures ps == [] ==> stats == map[]
    ensures ps != [] ==> stats.Keys == Grouped(ps, es).Keys
  {
    if ps == [] then map[]
    else
      var g := Grouped(ps, es);
      GroupedPicks(ps, es);
      map r | r in g :: StatOf(g[r], Total(ps), totalMatches)
  }

  /** Every race with a player row or a race event gets an entry; its totals,
      places and win count come from its own player rows, its init, repick
      and ban counts from its last event of each type, and each rate keeps
      the source's guard against a zero divisor. */
  lemma RaceStatsSpec(ps: seq<PlayerGroup>, es: seq<EventGroup>, totalMatches: nat, r: string, place: int)
    requires ps != []
    ensures var stats := RaceStats(ps, es, totalMatches);
      var picks := SumFor(ps, r);
      var init := CountOr(LastEvent(es, r, INITIAL_RACE), 0);
      && (r in stats <==> PlaysRace(ps, r) || EmitsEvent(es, r))
      && (r in stats ==>
            && stats[r].totalMatches == picks
            && stats[r].pickrate == Percent(picks, Total(ps))
            && stats[r].winrate == Percent(CountOr(LastPlace(ps, r, 1), 0), if picks == 0 then 1 else picks)
            && stats[r].repickrate == (if init == 0 then 0.0 else Percent(CountOr(LastEvent(es, r, REPICK_RACE), 0), init))
            && stats[r].banrate == (if totalMatches == 0 then 0.0 else Percent(CountOr(LastEvent(es, r, BAN_RACE), 0), totalMatches))
            && (place in stats[r].places <==> LastPlace(ps, r, place).Some?)
            && (place in stats[r].places ==> picks > 0 && stats[r].places[place] == Percent(LastPlace(ps, r, place).value, picks)))
  {
    var g0 := FoldPlayers(map[], ps);
    FoldPlayersKeys(ps, r);
    FoldPlayersTotals(ps, r);
    FoldPlayersPlaces(ps, r, place);
    FoldPlayersPlaces(ps, r, 1);
    FoldPlayersWins(ps, r);
    FoldEventsKeys(g0, es, r);
    FoldEventsKeeps(g0, es, r);
    FoldEventsCounts(g0, es, r, INITIAL_RACE);
    FoldEventsCounts(g0, es, r, REPICK_RACE);
    FoldEventsCounts(g0, es, r, BAN_RACE);
    GroupedPicks(ps, es);
  }

  lemma {:induction false} SumForAtMostTotal(ps: seq<PlayerGroup>, r: string)
    ensures SumFor(ps, r) <= Total(ps)
  {
    if ps != [] {
      SumForAtMostTotal(ps[..|ps| - 1], r);
    }
  }

  lemma {:induction false} LastPlaceAtMostSum(ps: seq<PlayerGroup>, r: string, place: int)
    requires LastPlace(ps, r, place).Some?
    ensures LastPlace(ps, r, place).value <= SumFor(ps, r)
  {
    if !(ps[|ps| - 1].raceId == r && ps[|ps| - 1].place == place) {
      LastPlaceAtMostSum(ps[..|ps| - 1], r, place);
    }
  }

  /** No race is picked by more than all players and no race wins more
      often than it is picked: pick and win rates stay within 0 to 100. */
  lemma RaceRatesBounded(ps: seq<PlayerGroup>, es: seq<EventGroup>, totalMatches: nat, r: string)
    requires ps != []
    requires r in RaceStats(ps, es, totalMatches)
    ensures var s := RaceStats(ps, es, totalMatches)[r];
      0.0 <= s.pickrate <= 100.0 && 0.0 <= s.winrate <= 100.0
  {
    RaceStatsSpec(ps, es, totalMatches, r, 1);
    SumForAtMostTotal(ps, r);
    if LastPlace(ps, r, 1).Some? {
      LastPlaceAtMostSum(ps, r, 1);
    }
    PercentBounded(SumFor(ps, r), Total(ps));
    var picks := SumFor(ps, r);
    PercentBounded(CountOr(LastPlace(ps, r, 1), 0), if picks == 0 then 1 else picks);
  }

  lemma PercentBounded(a: nat, b: nat)
    requires 0 < b && a <= b
    ensures 0.0 <= Percent(a, b) <= 100.0
  {
    assert a as real / b as real <= 1.0;
  }

  /** The players loop after one more row. */
  lemma FoldPlayersSnoc(ps: seq<PlayerGroup>, i: nat)
    requires i < |ps|
    ensures FoldPlayers(map[], ps[..i + 1]) == AddPlayer(FoldPlayers(map[], ps[..i]), ps[i])
  {
    assert ps[..i + 1][..i] == ps[..i];
  }

  /** `AddPlayer` is the group record rebuilt field by field. */
  lemma AddPlayerIs(g: map<string, Group>, p: PlayerGroup, g1: map<string, Group>, obj: Group)
    requires g1 == CreateEmptyGroup(g, p.raceId)
    requires var o := g1[p.raceId];
      obj == o.(
        totalMatches := o.totalMatches + p.count,
        picks := o.picks + p.count,
        places := o.places[p.place := p.count],
        wins := if p.place == 1 then p.count else o.wins)
    ensures AddPlayer(g, p) == g1[p.raceId := obj]
  {
  }

  /** The players loop of `getRaceStats`. */
  method GroupPlayers(players: seq<PlayerGroup>) returns (grouped: map<string, Group>)
    ensures grouped == FoldPlayers(map[], players)
  {
    grouped := map[];
    for i := 0 to |players|
      invariant grouped == FoldPlayers(map[], players[..i])
    {
      var p := players[i];
      FoldPlayersSnoc(players, i);
      ghost var prev := grouped;
      ghost var g1 := CreateEmptyGroup(grouped, p.raceId);
      if p.raceId !in grouped {
        grouped := grouped[p.raceId := EMPTY_GROUP];
      }
      assert grouped == g1;
      var obj := grouped[p.raceId];
      ghost var o := obj;
      obj := obj.(totalMatches := obj.totalMatches + p.count);
      obj := obj.(picks := obj.picks + p.count);
      obj := obj.(places := obj.places[p.place := p.count]);
      if p.place == 1 {
        obj := obj.(wins := p.count);
      }
      assert obj == o.(
        totalMatches := o.totalMatches + p.count,
        picks := o.picks + p.count,
        places := o.places[p.place := p.count],
        wins := if p.place == 1 then p.count else o.wins);
      AddPlayerIs(prev, p, g1, obj);
      grouped := grouped[p.raceId := obj];
    }
    assert players[..|players|] == players;
  }

  /** The events loop of `getRaceStats`, continuing from `grouped`. */
  method CountEvents(grouped0: map<string, Group>, eventCounts: seq<EventGroup>) returns (grouped: map<string, Group>)
    ensures grouped == FoldEvents(grouped0, eventCounts)
  {
    grouped := grouped0;
    for i := 0 to |eventCounts|
      invariant grouped == FoldEvents(grouped0, eventCounts[..i])
    {
      assert eventCounts[..i + 1][..i] == eventCounts[..i];
      var r := eventCounts[i];
      if r.eventId !in grouped {
        grouped := grouped[r.eventId := EMPTY_GROUP];
      }
      var obj := grouped[r.eventId];
      match r.eventType
      case INITIAL_RACE => grouped := grouped[r.eventId := obj.(init := r.count)];
      case REPICK_RACE => grouped := grouped[r.eventId := obj.(repicks := r.count)];
      case BAN_RACE => grouped := grouped[r.eventId := obj.(bans := r.count)];
      case _ =>
    }
    assert eventCounts[..|eventCounts|] == eventCounts;
  }

  method GetRaceStats(players: seq<PlayerGroup>, eventCounts: seq<EventGroup>, totalMatches: nat)
    returns (stats: map<string, RaceStat>)
    ensures stats == RaceStats(players, eventCounts, totalMatches)
  {
    if |players| == 0 {
      return map[];
    }
    var totalPlayers := Total(players);
    var grouped := GroupPlayers(players);
    grouped := CountEvents(grouped, eventCounts);
    GroupedPicks(players, eventCounts);
    stats := map race | race in grouped :: StatOf(grouped[race], totalPlayers, totalMatches);
  }

  // ---------------------------------------------------------------------------
  // getRacesStatsByQuantile

  const QUANTILE_STEPS: seq<int> := [10, 20, 40, 50, 60, 70, 75, 80, 85, 90]

  /** The `CASE WHEN avgQuantile <= steps[i] THEN steps[i - 1] ... ELSE 100`
      chain from position `i`. */
  function Bucket(q: real, i: nat): int
    requires 1 <= i <= |QUANTILE_STEPS|
    decreases |QUANTILE_STEPS| - i
  {
    if i == |QUANTILE_STEPS| then 100
    else if q <= QUANTILE_STEPS[i] as real then QUANTILE_STEPS[i - 1]
    else Bucket(q, i + 1)
  }

  /** The `quantile_group` of a match; a null quantile fails every `<=` and
      lands in the `ELSE`. */
  function QuantileGroup(q: Option<real>): int {
    match q
    case None => 100
    case Some(v) => Bucket(v, 1)
  }

  /** The first step at or above `q`, from position `i`, decides the bucket. */
  lemma {:induction false} BucketSpec(q: real, i: nat)
    requires 1 <= i <= |QUANTILE_STEPS|
    requires i == 1 || q > QUANTILE_STEPS[i - 1] as real
    ensures q > 90.0 ==> Bucket(q, i) == 100
    ensures q <= 90.0 ==> exists j :: (i <= j < |QUANTILE_STEPS| && Bucket(q, i) == QUANTILE_STEPS[j - 1]
      && q <= QUANTILE_STEPS[j] as real && (j == 1 || q > QUANTILE_STEPS[j - 1] as real))
    decreases |QUANTILE_STEPS| - i
  {
    if i < |QUANTILE_STEPS| && q > QUANTILE_STEPS[i] as real {
      BucketSpec(q, i + 1);
    }
  }

  /** A quantile above 90 (or none) is bucket 100; otherwise the bucket is
      the step just below the first step the quantile does not exceed, and a
      quantile up to 20 is bucket 10. */
  lemma QuantileGroupSpec(q: real)
    ensures q > 90.0 ==> QuantileGroup(Some(q)) == 100
    ensures q <= 20.0 ==> QuantileGroup(Some(q)) == 10
    ensures q <= 90.0 ==> exists j :: (1 <= j < |QUANTILE_STEPS| && QuantileGroup(Some(q)) == QUANTILE_STEPS[j - 1]
      && q <= QUANTILE_STEPS[j] as real && (j == 1 || q > QUANTILE_STEPS[j - 1] as real))
  {
    BucketSpec(q, 1);
  }

  /** A higher quantile never lands in a lower bucket. */
  lemma {:induction false} BucketMonotone(a: real, b: real, i: nat)
    requires 1 <= i <= |QUANTILE_STEPS| && a <= b
    ensures Bucket(a, i) <= Bucket(b, i)
    decreases |QUANTILE_STEPS| - i
  {
    if i < |QUANTILE_STEPS| {
      if b <= QUANTILE_STEPS[i] as real {
      } else if a <= QUANTILE_STEPS[i] as real {
        BucketAtLeast(b, i + 1);
      } else {
        BucketMonotone(a, b, i + 1);
      }
    }
  }

  lemma {:induction false} BucketAtLeast(q: real, i: nat)
    requires 2 <= i <= |QUANTILE_STEPS|
    ensures Bucket(q, i) >= QUANTILE_STEPS[i - 1]
    decreases |QUANTILE_STEPS| - i
  {
    if i < |QUANTILE_STEPS| && q > QUANTILE_STEPS[i] as real {
      BucketAtLeast(q, i + 1);
    }
  }

  /** One cell of the per-quantile win rates: null without matches, and null
      as well when the rate shows as `0.00` (the `|| null`). */
  function WinrateCell(wins: nat, total: nat): (r: Option<real>)
    ensures total == 0 || wins == 0 ==> r.None?
    ensures r.Some? ==> r.value == Percent(wins, total) && r.value >= 0.005
  {
    if total == 0 then None
    else if Percent(wins, total) < 0.005 then None
    else Some(Percent(wins, total))
  }

  // ---------------------------------------------------------------------------
  // getBonusStats

  /** A `player.groupBy({ by: ['bonusId', 'place'] })` row (null bonuses are
      filtered out by the query). */
  datatype BonusGroup = BonusGroup(bonusId: string, place: int, count: Count)

  /** The `countByBonus` reduce: an empty id is skipped. */
  function CountByBonus(rows: seq<BonusGroup>): map<string, nat> {
    if rows == [] then map[]
    else
      var acc := CountByBonus(rows[..|rows| - 1]);
      var row := rows[|rows| - 1];
      if row.bonusId == "" then acc
      else acc[row.bonusId := (if row.bonusId in acc then acc[row.bonusId] else 0) + row.count]
  }

  /** The rows of bonus `b`, summed (`filter(...).reduce(...)`). */
  function BonusTotal(rows: seq<BonusGroup>, b: string): nat {
    if rows == [] then 0
    else BonusTotal(rows[..|rows| - 1], b) + (if rows[|rows| - 1].bonusId == b then rows[|rows| - 1].count else 0)
  }

  predicate HasBonus(rows: seq<BonusGroup>, b: string) {
    exists row :: row in rows && row.bonusId == b
  }

  /** The reduce keeps exactly the non-empty bonus ids that have rows. */
  lemma {:induction false} CountByBonusKeys(rows: seq<BonusGroup>, b: string)
    ensures b in CountByBonus(rows) <==> b != "" && HasBonus(rows, b)
  {
    if rows != [] {
      CountByBonusKeys(rows[..|rows| - 1], b);
      InSnoc(rows);
    }
  }

  /** The reduce sums the counts of each non-empty bonus id. */
  lemma {:induction false} CountByBonusSums(rows: seq<BonusGroup>, b: string)
    requires b != ""
    ensures var acc := CountByBonus(rows);
      && (b !in acc ==> BonusTotal(rows, b) == 0)
      && (b in acc ==> acc[b] == BonusTotal(rows, b))
  {
    if rows != [] {
      CountByBonusSums(rows[..|rows| - 1], b);
    }
  }

  /** One entry of `bonusMap` (its `pickrate` is set afterwards). */
  datatype BonusEntry = BonusEntry(places: map<int, real>, count: nat)

  const ZERO_PLACES: map<int, real> := map[1 := 0.0, 2 := 0.0, 3 := 0.0, 4 := 0.0]

  /** `countByBonus[bonusId] ?? 0`. */
  function CountIn(counts: map<string, nat>, b: string): nat {
    if b in counts then counts[b] else 0
  }

  /** One pass of the `bonusMap` loop. */
  function AddBonusRow(m: map<string, BonusEntry>, counts: map<string, nat>, row: BonusGroup): map<string, BonusEntry> {
    var count := CountIn(counts, row.bonusId);
    var m1 := if row.bonusId in m then m else m[row.bonusId := BonusEntry(ZERO_PLACES, count)];
    if count == 0 then m1
    else m1[row.bonusId := m1[row.bonusId].(places := m1[row.bonusId].places[row.place := Percent(row.count, count)])]
  }

  function FoldBonus(counts: map<string, nat>, rows: seq<BonusGroup>): map<string, BonusEntry> {
    if rows == [] then map[] else AddBonusRow(FoldBonus(counts, rows[..|rows| - 1]), counts, rows[|rows| - 1])
  }

  /** The count of the last row of bonus `b` at place `place`. */
  function LastBonusPlace(rows: seq<BonusGroup>, b: string, place: int): Option<Count> {
    if rows == [] then None
    else if rows[|rows| - 1].bonusId == b && rows[|rows| - 1].place == place then Some(rows[|rows| - 1].count)
    else LastBonusPlace(rows[..|rows| - 1], b, place)
  }

  /** After the loop a bonus has an entry exactly when it has a row. */
  lemma {:induction false} FoldBonusKeys(counts: map<string, nat>, rows: seq<BonusGroup>, b: string)
    ensures b in FoldBonus(counts, rows) <==> HasBonus(rows, b)
  {
    if rows != [] {
      FoldBonusKeys(counts, rows[..|rows| - 1], b);
      InSnoc(rows);
    }
  }

  /** An entry's count is its reduced count, or 0, and places 1 to 4 are
      always present. */
  lemma {:induction false} FoldBonusCount(counts: map<string, nat>, rows: seq<BonusGroup>, b: string)
    ensures var m := FoldBonus(counts, rows);
      b in m ==> m[b].count == CountIn(counts, b) && ZERO_PLACES.Keys <= m[b].places.Keys
  {
    if rows != [] {
      FoldBonusCount(counts, rows[..|rows| - 1], b);
    }
  }

  /** A place seen in a row of the bonus holds that row's share of the
      bonus count in percent; the other places stay as created: 0 for places
      1 to 4 and absent otherwise. With a zero count nothing is written. */
  lemma {:induction false} FoldBonusPlaces(counts: map<string, nat>, rows: seq<BonusGroup>, b: string, place: int)
    ensures var m := FoldBonus(counts, rows);
      && (b !in m ==> LastBonusPlace(rows, b, place).None?)
      && (b in m && CountIn(counts, b) > 0 && LastBonusPlace(rows, b, place).Some? ==>
            place in m[b].places
            && m[b].places[place] == Percent(LastBonusPlace(rows, b, place).value, CountIn(counts, b)))
      && (b in m && (CountIn(counts, b) == 0 || LastBonusPlace(rows, b, place).None?) ==>
            (place in m[b].places <==> 1 <= place <= 4)
            && (place in m[b].places ==> m[b].places[place] == 0.0))
  {
    if rows != [] {
      FoldBonusPlaces(counts, rows[..|rows| - 1], b, place);
    }
  }

  /** One element of the result of `getBonusStats`; `pickrate` is `None`
      where the source divides by zero players. */
  datatype BonusStat = BonusStat(matchesCount: nat, pickrate: Option<real>, winrate: real, places: map<int, real>)

  function BonusStatOf(e: BonusEntry, total: nat, totalPlayers: nat): BonusStat
    requires 1 in e.places
  {
    BonusStat(e.count, if totalPlayers == 0 then None else Some(Percent(total, totalPlayers)), e.places[1], e.places)
  }

  /** `getBonusStats` after its queries, keyed by bonus. */
  function BonusStats(rows: seq<BonusGroup>, totalPlayers: nat): (stats: map<string, BonusStat>)
    ensures forall b :: b in stats <==> HasBonus(rows, b)
    ensures forall b :: b in stats ==> 1 in stats[b].places
  {
    var m := FoldBonus(CountByBonus(rows), rows);
    assert forall b :: (b in m <==> HasBonus(rows, b)) && (b in m ==> 1 in m[b].places) by {
      forall b
        ensures (b in m <==> HasBonus(rows, b)) && (b in m ==> 1 in m[b].places)
      {
        FoldBonusKeys(CountByBonus(rows), rows, b);
        FoldBonusCount(CountByBonus(rows), rows, b);
      }
    }
    map b | b in m :: BonusStatOf(m[b], BonusTotal(rows, b), totalPlayers)
  }

  /** A bonus's match count is the sum of its rows and its pick rate is that
      sum over all players; each place seen holds its share of the match
      count, and the win rate is the place-1 share. The empty id is listed
      with a zero count and zero places. */
  lemma BonusStatsSpec(rows: seq<BonusGroup>, totalPlayers: nat, b: string, place: int)
    requires HasBonus(rows, b)
    ensures var s := BonusStats(rows, totalPlayers)[b];
      && s.matchesCount == (if b == "" then 0 else BonusTotal(rows, b))
      && (totalPlayers > 0 ==> s.pickrate == Some(Percent(BonusTotal(rows, b), totalPlayers)))
      && (totalPlayers == 0 ==> s.pickrate.None?)
      && s.winrate == s.places[1]
      && (b != "" && LastBonusPlace(rows, b, place).Some? ==>
            && BonusTotal(rows, b) > 0
            && place in s.places
            && s.places[place] == Percent(LastBonusPlace(rows, b, place).value, BonusTotal(rows, b)))
      && (b == "" || LastBonusPlace(rows, b, place).None? ==>
            && (place in s.places <==> 1 <= place <= 4)
            && (place in s.places ==> s.places[place] == 0.0))
  {
    var counts := CountByBonus(rows);
    CountByBonusKeys(rows, b);
    FoldBonusKeys(counts, rows, b);
    FoldBonusCount(counts, rows, b);
    FoldBonusPlaces(counts, rows, b, place);
    BonusTotalPositive(rows, b);
    if b != "" {
      CountByBonusSums(rows, b);
    }
  }

  lemma {:induction false} BonusTotalPositive(rows: seq<BonusGroup>, b: string)
    requires HasBonus(rows, b)
    ensures BonusTotal(rows, b) > 0
  {
    var last := rows[|rows| - 1];
    if last.bonusId != b {
      assert forall row :: row in rows ==> row in rows[..|rows| - 1] || row == last by {
        assert rows == rows[..|rows| - 1] + [last];
      }
      BonusTotalPositive(rows[..|rows| - 1], b);
    }
  }

  /** The `bonusMap` loop. */
  method BuildBonusMap(playerGroups: seq<BonusGroup>, countByBonus: map<string, nat>)
    returns (bonusMap: map<string, BonusEntry>)
    ensures bonusMap == FoldBonus(countByBonus, playerGroups)
  {
    bonusMap := map[];
    for i := 0 to |playerGroups|
      invariant bonusMap == FoldBonus(countByBonus, playerGroups[..i])
    {
      assert playerGroups[..i + 1][..i] == playerGroups[..i];
      var row := playerGroups[i];
      var count := CountIn(countByBonus, row.bonusId);
      if row.bonusId !in bonusMap {
        bonusMap := bonusMap[row.bonusId := BonusEntry(ZERO_PLACES, count)];
      }
      if count == 0 {
        continue;
      }
      var entry := bonusMap[row.bonusId];
      bonusMap := bonusMap[row.bonusId := entry.(places := entry.places[row.place := Percent(row.count, count)])];
    }
    assert playerGroups[..|playerGroups|] == playerGroups;
  }

  // ---------------------------------------------------------------------------
  // getUpgradeHeatmap

  /** A heatmap query row: the average time of the `level`-th event `eventId`. */
  datatype HeatRow = HeatRow(eventId: string, level: int, avgTime: int)

  function Heatmap(rows: seq<HeatRow>): map<string, map<int, int>> {
    if rows == [] then map[]
    else
      var h := Heatmap(rows[..|rows| - 1]);
      var row := rows[|rows| - 1];
      var inner := if row.eventId in h then h[row.eventId] else map[];
      h[row.eventId := inner[row.level := row.avgTime]]
  }

  function LastHeat(rows: seq<HeatRow>, id: string, level: int): Option<int> {
    if rows == [] then None
    else if rows[|rows| - 1].eventId == id && rows[|rows| - 1].level == level then Some(rows[|rows| - 1].avgTime)
    else LastHeat(rows[..|rows| - 1], id, level)
  }

  /** An event id has an entry exactly when it has a row. */
  lemma {:induction false} HeatmapKeys(rows: seq<HeatRow>, id: string)
    ensures id in Heatmap(rows) <==> exists row :: row in rows && row.eventId == id
  {
    if rows != [] {
      HeatmapKeys(rows[..|rows| - 1], id);
      InSnoc(rows);
    }
  }

  /** Rows nest as event id, then level, then average time; a later row for
      the same event and level overwrites an earlier one. */
  lemma {:induction false} HeatmapValues(rows: seq<HeatRow>, id: string, level: int)
    ensures var h := Heatmap(rows);
      && (id !in h ==> LastHeat(rows, id, level).None?)
      && (id in h ==> (level in h[id] <==> LastHeat(rows, id, level).Some?))
      && (id in h && level in h[id] ==> h[id][level] == LastHeat(rows, id, level).value)
  {
    if rows != [] {
      HeatmapValues(rows[..|rows| - 1], id, level);
    }
  }

  /** The `rawHeatmap.forEach` loop. */
  method BuildHeatmap(rawHeatmap: seq<HeatRow>) returns (heatmap: map<string, map<int, int>>)
    ensures heatmap == Heatmap(rawHeatmap)
  {
    heatmap := map[];
    for i := 0 to |rawHeatmap|
      invariant heatmap == Heatmap(rawHeatmap[..i])
    {
      assert rawHeatmap[..i + 1][..i] == rawHeatmap[..i];
      var row := rawHeatmap[i];
      if row.eventId !in heatmap {
        heatmap := heatmap[row.eventId := map[]];
      }
      heatmap := heatmap[row.eventId := heatmap[row.eventId][row.level := row.avgTime]];
    }
    assert rawHeatmap[..|rawHeatmap|] == rawHeatmap;
  }
}
