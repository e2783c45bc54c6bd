/** The request objects of the analytics endpoints and what their
    class-validator decorators accept. A request field reaches validation
    either absent (the class default stays) or given as a JavaScript value;
    `@IsOptional()` lets `undefined` and `null` through without checking
    the other decorators. Each `Read…` function returns `None` exactly when
    validation fails (a 400 response) and otherwise the typed object. */
module Dto {
  import opened Wrappers
  import opened Js
  import PrismaFilter

  datatype Field = Absent | Given(v: JsValue)

  /** `@IsOptional()`: nothing else is checked. */
  predicate Skipped(f: Field) {
    f.Absent? || f.v == Undefined || f.v == Null
  }

  /** `@IsInt()`. */
  predicate IsInt(v: JsValue) {
    v.Num? && v.n.Floor as real == v.n
  }

  /** `@IsString() @Length(4, 4)`. */
  predicate IsCode(v: JsValue) {
    v.Str? && |v.s| == 4
  }

  /** `@IsNotEmpty() @IsString()`. */
  predicate IsText(v: JsValue) {
    v.Str? && v.s != ""
  }

  // ---------------------------------------------------------------------------
  // ToBoolean

  function Recognized(s: string): string {
    ToLower(Trim(s))
  }

  /** The `ToBoolean()` transform: booleans pass, the strings `true`/`1` and
      `false`/`0` (trimmed, any case) become booleans, and every other value
      passes unchanged. */
  function ToBoolean(v: JsValue): (r: JsValue)
    ensures v.Bool? ==> r == v
    ensures v.Str? && Recognized(v.s) in {"true", "1"} ==> r == Bool(true)
    ensures v.Str? && Recognized(v.s) in {"false", "0"} ==> r == Bool(false)
    ensures !(v.Str? && Recognized(v.s) in {"true", "1", "false", "0"}) ==> r == v
  {
    match v
    case Bool(_) => v
    case Str(s) =>
      var val := Recognized(s);
      if val == "true" then Bool(true)
      else if val == "false" then Bool(false)
      else if val == "1" then Bool(true)
      else if val == "0" then Bool(false)
      else v
    case _ => v
  }

  /** Transforming twice is transforming once, and a boolean comes out only
      from a boolean or a recognised string. */
  lemma ToBooleanSpec(v: JsValue)
    ensures ToBoolean(ToBoolean(v)) == ToBoolean(v)
    ensures ToBoolean(v).Bool? <==> v.Bool? || (v.Str? && Recognized(v.s) in {"true", "1", "false", "0"})
  {
  }

  /** A `@IsOptional() @ToBoolean() @IsBoolean()` flag whose class default is
      `false`: an absent flag is `false`; a given one is transformed, then it
      must be a boolean unless it is `undefined` or `null`. */
  function Flag(f: Field): (r: Option<JsValue>)
    ensures f.Absent? ==> r == Some(Bool(false))
    ensures r.Some? ==> r.value.Bool? || r.value == Undefined || r.value == Null
    ensures f.Given? && f.v.Bool? ==> r == Some(f.v)
  {
    match f
    case Absent => Some(Bool(false))
    case Given(v) =>
      var w := ToBoolean(v);
      if w == Undefined || w == Null || w.Bool? then Some(w) else None
  }

  /** A flag given as text is accepted exactly when it reads as a boolean,
      and then has that value. */
  lemma FlagText(s: string)
    ensures Flag(Given(Str(s))) == Some(Bool(true)) <==> Recognized(s) in {"true", "1"}
    ensures Flag(Given(Str(s))) == Some(Bool(false)) <==> Recognized(s) in {"false", "0"}
    ensures Flag(Given(Str(s))).None? <==> Recognized(s) !in {"true", "1", "false", "0"}
  {
  }

  /** Text with no white space at either end and no capital letter reads as
      itself. */
  lemma {:induction false} RecognizedPlain(s: string)
    requires s != [] && !IsWhitespace(s[0]) && !IsWhitespace(s[|s| - 1])
    requires forall i :: 0 <= i < |s| ==> !('A' <= s[i] <= 'Z')
    ensures Recognized(s) == s
  {
    assert TrimStart(s) == s;
    assert TrimEnd(s) == s;
    LowerPlain(s);
  }

  lemma {:induction false} LowerPlain(s: string)
    requires forall i :: 0 <= i < |s| ==> !('A' <= s[i] <= 'Z')
    ensures ToLower(s) == s
  {
    if s != [] {
      LowerPlain(s[1..]);
    }
  }

  /** `?withLeavers=false` reads as `false`, `?withLeavers=0` as `false`,
      and `?withLeavers=yes` is rejected. */
  lemma FlagFalseText()
    ensures Flag(Given(Str("false"))) == Some(Bool(false))
  {
    RecognizedFalse();
  }

  lemma RecognizedFalse()
    ensures Recognized("false") == "false"
  {
    RecognizedPlain("false");
  }

  lemma FlagZeroText()
    ensures Flag(Given(Str("0"))) == Some(Bool(false))
  {
    RecognizedZero();
  }

  lemma RecognizedZero()
    ensures Recognized("0") == "0"
  {
    RecognizedPlain("0");
  }

  lemma FlagYesText()
    ensures Flag(Given(Str("yes"))).None?
  {
    RecognizedYes();
  }

  lemma RecognizedYes()
    ensures Recognized("yes") == "yes"
  {
    RecognizedPlain("yes");
  }

  // ---------------------------------------------------------------------------
  // MatchPlayerFilter and SearchMatchesDto

  datatype FilterInput = FilterInput(playerId: Field, race: Field, bonus: Field, place: Field)

  predicate ValidFilter(f: FilterInput) {
    && (Skipped(f.playerId) || f.playerId.v.Num?)
    && (Skipped(f.race) || IsCode(f.race.v))
    && (Skipped(f.bonus) || IsCode(f.bonus.v))
    && (Skipped(f.place) || (IsInt(f.place.v) && 1.0 <= f.place.v.n <= 4.0))
  }

  /** A validated `MatchPlayerFilter`; `None` is an unset field. */
  datatype PlayerCriteria = PlayerCriteria(playerId: Option<real>, race: Option<string>, bonus: Option<string>, place: Option<int>)

  function ReadFilter(f: FilterInput): (r: Option<PlayerCriteria>)
    ensures r.Some? <==> ValidFilter(f)
    ensures r.Some? ==>
      && (r.value.race.Some? <==> !Skipped(f.race))
      && (r.value.race.Some? ==> |r.value.race.value| == 4)
      && (r.value.bonus.Some? <==> !Skipped(f.bonus))
      && (r.value.bonus.Some? ==> |r.value.bonus.value| == 4)
      && (r.value.place.Some? <==> !Skipped(f.place))
      && (r.value.place.Some? ==> 1 <= r.value.place.value <= 4)
  {
    if !ValidFilter(f) then None
    else Some(PlayerCriteria(
      if Skipped(f.playerId) then None else Some(f.playerId.v.n),
      if Skipped(f.race) then None else Some(f.race.v.s),
      if Skipped(f.bonus) then None else Some(f.bonus.v.s),
      if Skipped(f.place) then None else Some(f.place.v.n.Floor)))
  }

  /** The query of a match search: the inherited `BaseAnalyticDto` fields in
      `base`, then its own fields. */
  datatype SearchInput = SearchInput(base: AnalyticInput, filters: seq<FilterInput>, page: Field, perPage: Field, events: Field)

  /** A validated `SearchMatchesDto`. `perPage` and `page` are `None` when
      given as `null`; `events` keeps a given `null`. */
  datatype Search = Search(base: Analytic, filters: seq<PlayerCriteria>, page: Option<int>, perPage: Option<int>, events: JsValue)

  predicate ValidPage(f: Field) {
    Skipped(f) || (IsInt(f.v) && f.v.n > 0.0)
  }

  predicate ValidPerPage(f: Field) {
    Skipped(f) || (IsInt(f.v) && 0.0 < f.v.n <= 25.0)
  }

  predicate ValidEvents(f: Field) {
    Skipped(f) || f.v.Bool?
  }

  function ReadSearch(s: SearchInput, others: set<string>): (r: Option<Search>)
    requires "W3Champions" !in others
    ensures r.Some? <==>
      && ValidAnalytic(s.base, others)
      && 1 <= |s.filters| <= 4
      && (forall i :: 0 <= i < |s.filters| ==> ValidFilter(s.filters[i]))
      && ValidPage(s.page) && ValidPerPage(s.perPage) && ValidEvents(s.events)
    ensures r.Some? ==>
      && Some(r.value.base) == ReadAnalytic(s.base, others)
      && |r.value.filters| == |s.filters|
      && (forall i :: 0 <= i < |s.filters| ==> Some(r.value.filters[i]) == ReadFilter(s.filters[i]))
      && (r.value.page.Some? ==> r.value.page.value >= 1)
      && (r.value.perPage.Some? ==> 1 <= r.value.perPage.value <= 25)
      && (s.perPage.Absent? ==> r.value.perPage == Some(10))
      && (s.events.Absent? ==> r.value.events == Bool(false))
  {
    if !ValidAnalytic(s.base, others) || !(1 <= |s.filters| <= 4) || !(forall i :: 0 <= i < |s.filters| ==> ValidFilter(s.filters[i]))
      || !ValidPage(s.page) || !ValidPerPage(s.perPage) || !ValidEvents(s.events)
    then None
    else
      Some(Search(
        ReadAnalytic(s.base, others).value,
        seq(|s.filters|, i requires 0 <= i < |s.filters| => ReadFilter(s.filters[i]).value),
        if Skipped(s.page) then None else Some(s.page.v.n.Floor),
        match s.perPage
        case Absent => Some(10)
        case Given(v) => if Skipped(s.perPage) then None else Some(v.n.Floor),
        match s.events
        case Absent => Bool(false)
        case Given(v) => v))
  }

  // ---------------------------------------------------------------------------
  // SearchMatchByPlatformDto

  datatype LookupPlatform = Internal | Platform(platform: PrismaFilter.MatchPlatform)

  /** `@IsIn(['internal', ...MatchPlatform])` on the route's `platform` and
      `@IsNotEmpty()` on its `id`. The names of the platforms other than
      W3Champions are `others`. */
  function ReadLookup(platform: string, id: string, others: set<string>): (r: Option<(LookupPlatform, string)>)
    requires "internal" !in others && "W3Champions" !in others
    ensures r.Some? <==> (platform == "internal" || platform == "W3Champions" || platform in others) && id != ""
    ensures r.Some? ==> r.value.1 == id
    ensures r.Some? ==> (r.value.0 == Internal <==> platform == "internal")
    ensures r.Some? ==> (r.value.0 == Platform(PrismaFilter.W3Champions) <==> platform == "W3Champions")
  {
    if id == "" then None
    else if platform == "internal" then Some((Internal, id))
    else if platform == "W3Champions" then Some((Platform(PrismaFilter.W3Champions), id))
    else if platform in others then Some((Platform(PrismaFilter.OtherPlatform(platform)), id))
    else None
  }

  // ---------------------------------------------------------------------------
  // BaseAnalyticDto

  /** The query of an analytics request. Dates are given as their time value
      after `@Type(() => Date)`; an invalid date is a non-integer or `NaN`. */
  datatype AnalyticInput = AnalyticInput(
    mapType: Field, version: Field,
    dateFrom: Field, dateTo: Field,
    durationFrom: Field, durationTo: Field,
    quantileFrom: Field, quantileTo: Field,
    withLeavers: Field, rankingPlayers: Field,
    playerId: Field,
    platform: Field, season: Field)

  /** A validated `BaseAnalyticDto`: the filter input and `rankingPlayers`. */
  datatype Analytic = Analytic(filter: PrismaFilter.AnalyticDto, rankingPlayers: JsValue)

  predicate OptionalInt(f: Field) {
    Skipped(f) || IsInt(f.v)
  }

  function IntOf(f: Field): Option<int>
    requires OptionalInt(f)
  {
    if Skipped(f) then None else Some(f.v.n.Floor)
  }

  /** `@IsEnum(MatchPlatform)`. */
  predicate IsPlatform(f: Field, others: set<string>) {
    f.Given? && f.v.Str? && (f.v.s == "W3Champions" || f.v.s in others)
  }

  predicate ValidAnalytic(q: AnalyticInput, others: set<string>) {
    && q.mapType.Given? && IsText(q.mapType.v)
    && q.version.Given? && IsText(q.version.v)
    && OptionalInt(q.dateFrom) && OptionalInt(q.dateTo)
    && OptionalInt(q.durationFrom) && OptionalInt(q.durationTo)
    && OptionalInt(q.quantileFrom) && OptionalInt(q.quantileTo)
    && Flag(q.withLeavers).Some? && Flag(q.rankingPlayers).Some?
    && (Skipped(q.playerId) || IsInt(q.playerId.v))
    && (Skipped(q.platform) || IsPlatform(q.platform, others))
    && (Skipped(q.season) || q.season.v.Str?)
  }

  function ReadAnalytic(q: AnalyticInput, others: set<string>): (r: Option<Analytic>)
    requires "W3Champions" !in others
    ensures r.Some? <==> ValidAnalytic(q, others)
    ensures r.Some? ==>
      && r.value.filter.mapType != "" && r.value.filter.version != ""
      && r.value.filter.withLeavers == Flag(q.withLeavers).value
      && r.value.rankingPlayers == Flag(q.rankingPlayers).value
      && (q.withLeavers.Absent? ==> !Truthy(r.value.filter.withLeavers))
      && (r.value.filter.platform == Some(PrismaFilter.W3Champions) <==> q.platform == Given(Str("W3Champions")))
      && (r.value.filter.durationFrom.Some? <==> !Skipped(q.durationFrom))
  {
    if !ValidAnalytic(q, others) then None
    else
      var platform :=
        if Skipped(q.platform) then None
        else if q.platform.v.s == "W3Champions" then Some(PrismaFilter.W3Champions)
        else Some(PrismaFilter.OtherPlatform(q.platform.v.s));
      Some(Analytic(
        PrismaFilter.AnalyticDto(
          q.mapType.v.s, q.version.v.s,
          IntOf(q.dateFrom), IntOf(q.dateTo),
          IntOf(q.durationFrom), IntOf(q.durationTo),
          IntOf(q.quantileFrom), IntOf(q.quantileTo),
          Flag(q.withLeavers).value,
          IntOf(q.playerId),
          platform,
          if Skipped(q.season) then None else Some(q.season.v.s)),
        Flag(q.rankingPlayers).value))
  }

  /** Leaving `withLeavers` out of a valid request excludes matches with
      leavers. */
  lemma DefaultExcludesLeavers(q: AnalyticInput, others: set<string>, m: PrismaFilter.MatchRow)
    requires "W3Champions" !in others
    requires ReadAnalytic(q, others).Some?
    requires q.withLeavers.Absent? && m.hasLeavers
    ensures !PrismaFilter.Satisfies(m, PrismaFilter.MatchFilter(ReadAnalytic(q, others).value.filter))
  {
  }

  /** Giving `withLeavers` as the text `true` drops the leaver clause. */
  lemma TrueKeepsLeavers(q: AnalyticInput, others: set<string>)
    requires "W3Champions" !in others
    requires ReadAnalytic(q, others).Some?
    requires q.withLeavers == Given(Str("true"))
    ensures PrismaFilter.MatchFilter(ReadAnalytic(q, others).value.filter).hasLeavers.None?
  {
    RecognizedTrue();
  }

  lemma RecognizedTrue()
    ensures Recognized("true") == "true"
  {
    RecognizedPlain("true");
  }
}
