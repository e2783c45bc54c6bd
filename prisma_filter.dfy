/** The Prisma `where` builders of the analytics endpoints (`mapFilter`,
    `matchFilter`, `playerFilter`). Each returns a fresh record whose clauses
    depend on which request fields are truthy. Beside each builder, a
    `Satisfies` predicate gives Prisma's meaning of the record over a stored
    match or player, and a lemma ties that meaning to what the request asks
    for. */
module PrismaFilter {
  import opened Wrappers
  import opened Js

  /** `MatchPlatform`: W3Champions is the one value the code tests for. */
  datatype MatchPlatform = W3Champions | OtherPlatform(name: string)

  /** A validated `BaseAnalyticDto`. Dates are epoch milliseconds (a `Date`
      object is always truthy); `withLeavers` is whatever `ToBoolean` and the
      optional validation let through. */
  datatype AnalyticDto = AnalyticDto(
    mapType: string, version: string,
    dateFrom: Option<int>, dateTo: Option<int>,
    durationFrom: Option<int>, durationTo: Option<int>,
    quantileFrom: Option<int>, quantileTo: Option<int>,
    withLeavers: JsValue,
    playerId: Option<int>,
    platform: Option<MatchPlatform>,
    season: Option<string>)

  /** Truthiness of an optional number. */
  predicate NumTruthy(o: Option<int>) {
    o.Some? && o.value != 0
  }

  datatype MapWhere = MapWhere(dataKey: string, ignore: bool)
  datatype Range = Range(gte: Option<int>, lte: Option<int>)
  datatype ProcessWhere = ProcessWhere(platform: MatchPlatform, season: Option<string>)

  /** A `Prisma.MatchWhereInput`; `None` is a clause that is not set. */
  datatype MatchWhere = MatchWhere(
    mapVersion: MapWhere,
    hasLeavers: Option<bool>,
    somePlayer: Option<int>,
    mapProcess: Option<ProcessWhere>,
    endAt: Option<Range>,
    duration: Option<Range>,
    avgQuantile: Option<Range>)

  /** `mapFilter`: the version's data key is `type_version`, and ignored
      versions are excluded. */
  function MapFilter(mapType: string, version: string): (w: MapWhere)
    ensures !w.ignore
    ensures |w.dataKey| == |mapType| + 1 + |version|
    ensures w.dataKey[..|mapType|] == mapType && w.dataKey[|mapType|] == '_'
      && w.dataKey[|mapType| + 1..] == version
  {
    MapWhere(mapType + "_" + version, false)
  }

  /** A numeric bound as the `...(x ? { gte: x } : {})` spread sees it: 0
      counts as not given. A `Date` bound is always truthy. */
  function NumBound(o: Option<int>): (r: Option<int>)
    ensures r.Some? <==> NumTruthy(o)
    ensures r.Some? ==> r == o
  {
    if NumTruthy(o) then o else None
  }

  /** A range clause exists only when one of its (truthy) bounds is given,
      and holds exactly those bounds. */
  function RangeClause(from: Option<int>, to: Option<int>): (r: Option<Range>)
    ensures r.Some? <==> from.Some? || to.Some?
    ensures r.Some? ==> r.value.gte == from && r.value.lte == to
  {
    if from.Some? || to.Some? then Some(Range(from, to)) else None
  }

  /** `matchFilter`. */
  function MatchFilter(dto: AnalyticDto): (w: MatchWhere)
    ensures w.mapVersion == MapFilter(dto.mapType, dto.version)
    ensures w.hasLeavers.Some? <==> !Truthy(dto.withLeavers)
    ensures w.hasLeavers.Some? ==> w.hasLeavers.value == false
    ensures w.somePlayer.Some? <==> NumTruthy(dto.playerId)
    ensures w.somePlayer.Some? ==> w.somePlayer == dto.playerId
    ensures w.mapProcess.Some? <==> dto.platform.Some?
    ensures w.mapProcess.Some? ==>
      && w.mapProcess.value.platform == dto.platform.value
      && (w.mapProcess.value.season.Some? <==> dto.platform.value == W3Champions && TruthyStr(dto.season))
      && (w.mapProcess.value.season.Some? ==> w.mapProcess.value.season == dto.season)
    ensures w.endAt.Some? <==> dto.dateFrom.Some? || dto.dateTo.Some?
    ensures w.duration.Some? <==> NumTruthy(dto.durationFrom) || NumTruthy(dto.durationTo)
    ensures w.avgQuantile.Some? <==> NumTruthy(dto.quantileFrom) || NumTruthy(dto.quantileTo)
  {
    MatchWhere(
      MapFilter(dto.mapType, dto.version),
      if !Truthy(dto.withLeavers) then Some(false) else None,
      if NumTruthy(dto.playerId) then dto.playerId else None,
      match dto.platform
      case Some(p) => Some(ProcessWhere(p, if p == W3Champions && TruthyStr(dto.season) then dto.season else None))
      case None => None,
      RangeClause(dto.dateFrom, dto.dateTo),
      RangeClause(NumBound(dto.durationFrom), NumBound(dto.durationTo)),
      RangeClause(NumBound(dto.quantileFrom), NumBound(dto.quantileTo)))
  }

  // ---------------------------------------------------------------------------
  // What a clause means

  /** The `mapProcess` of a stored match: its platform and the seasons of
      its linked W3Champions matches. */
  datatype ProcessRow = ProcessRow(platform: MatchPlatform, seasons: set<string>)

  /** The columns and relations of a stored `Match` that the filter reads. */
  datatype MatchRow = MatchRow(
    mapDataKey: string, mapIgnore: bool,
    hasLeavers: bool,
    playerIds: set<int>,
    mapProcess: Option<ProcessRow>,
    endAt: int, duration: int,
    avgQuantile: Option<real>)

  predicate InRange(x: int, r: Option<Range>) {
    r.None? || ((r.value.gte.Some? ==> x >= r.value.gte.value) && (r.value.lte.Some? ==> x <= r.value.lte.value))
  }

  /** A null quantile fails every comparison. */
  predicate InRangeQ(x: Option<real>, r: Option<Range>) {
    r.None? || (x.Some?
      && (r.value.gte.Some? ==> x.value >= r.value.gte.value as real)
      && (r.value.lte.Some? ==> x.value <= r.value.lte.value as real))
  }

  /** Prisma's reading of a `MatchWhereInput`: every clause that is set holds. */
  predicate Satisfies(m: MatchRow, w: MatchWhere) {
    && m.mapDataKey == w.mapVersion.dataKey && m.mapIgnore == w.mapVersion.ignore
    && (w.hasLeavers.Some? ==> m.hasLeavers == w.hasLeavers.value)
    && (w.somePlayer.Some? ==> w.somePlayer.value in m.playerIds)
    && (w.mapProcess.Some? ==>
          && m.mapProcess.Some?
          && m.mapProcess.value.platform == w.mapProcess.value.platform
          && (w.mapProcess.value.season.Some? ==> w.mapProcess.value.season.value in m.mapProcess.value.seasons))
    && InRange(m.endAt, w.endAt)
    && InRange(m.duration, w.duration)
    && InRangeQ(m.avgQuantile, w.avgQuantile)
  }

  /** What a request asks of a match, stated on the request's own fields. A
      numeric bound or player id of 0, and an empty season, count as not
      given. */
  predicate Wanted(dto: AnalyticDto, m: MatchRow) {
    && m.mapDataKey == dto.mapType + "_" + dto.version
    && !m.mapIgnore
    && (Truthy(dto.withLeavers) || !m.hasLeavers)
    && (NumTruthy(dto.playerId) ==> dto.playerId.value in m.playerIds)
    && (dto.platform.Some? ==>
          && m.mapProcess.Some?
          && m.mapProcess.value.platform == dto.platform.value
          && (dto.platform.value == W3Champions && TruthyStr(dto.season) ==> dto.season.value in m.mapProcess.value.seasons))
    && (dto.dateFrom.Some? ==> m.endAt >= dto.dateFrom.value)
    && (dto.dateTo.Some? ==> m.endAt <= dto.dateTo.value)
    && (NumTruthy(dto.durationFrom) ==> m.duration >= dto.durationFrom.value)
    && (NumTruthy(dto.durationTo) ==> m.duration <= dto.durationTo.value)
    && (NumTruthy(dto.quantileFrom) || NumTruthy(dto.quantileTo) ==>
          && m.avgQuantile.Some?
          && (NumTruthy(dto.quantileFrom) ==> m.avgQuantile.value >= dto.quantileFrom.value as real)
          && (NumTruthy(dto.quantileTo) ==> m.avgQuantile.value <= dto.quantileTo.value as real))
  }

  /** A stored match passes the built filter exactly when it is what the
      request asks for. */
  lemma MatchFilterMeaning(dto: AnalyticDto, m: MatchRow)
    ensures Satisfies(m, MatchFilter(dto)) <==> Wanted(dto, m)
  {
  }

  /** A leaver-free match is never excluded by the leaver clause, and a
      request with leavers allowed keeps matches with leavers. */
  lemma LeaversClause(dto: AnalyticDto, m: MatchRow)
    requires Wanted(dto, m.(hasLeavers := false))
    ensures Truthy(dto.withLeavers) ==> Satisfies(m.(hasLeavers := true), MatchFilter(dto))
    ensures !Truthy(dto.withLeavers) ==> !Satisfies(m.(hasLeavers := true), MatchFilter(dto))
  {
    MatchFilterMeaning(dto, m.(hasLeavers := true));
  }

  // ---------------------------------------------------------------------------
  // playerFilter

  /** A `Prisma.PlayerWhereInput`: an undefined field sets no condition. */
  datatype PlayerWhere = PlayerWhere(raceId: string, platformPlayerId: Option<int>)

  /** `playerFilter`: the race and the player id, copied as they are. */
  function PlayerFilter(race: string, playerId: Option<int>): PlayerWhere {
    PlayerWhere(race, playerId)
  }

  datatype PlayerRow = PlayerRow(raceId: string, platformPlayerId: int)

  predicate PlayerSatisfies(p: PlayerRow, w: PlayerWhere) {
    p.raceId == w.raceId && (w.platformPlayerId.Some? ==> p.platformPlayerId == w.platformPlayerId.value)
  }

  /** Unlike `matchFilter`, a player id of 0 is a condition here: only an
      absent id sets none. */
  lemma PlayerFilterMeaning(race: string, playerId: Option<int>, p: PlayerRow)
    ensures PlayerSatisfies(p, PlayerFilter(race, playerId)) <==>
      p.raceId == race && (playerId.Some? ==> p.platformPlayerId == playerId.value)
    ensures playerId == Some(0) && p.raceId == race && p.platformPlayerId != 0 ==>
      !PlayerSatisfies(p, PlayerFilter(race, playerId))
  {
  }
}
