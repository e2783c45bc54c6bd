/** `ParserService`: which replay records get parsed, what a parse attempt does
    to its record, the batch loop of `parseMatches`, and the match-row values
    (`hasLeavers`, the averages) computed from a parsed replay. The database is
    a value: the process table in storage order, the map versions, the
    W3Champions match links and the set of replay files removed. The result of
    parsing each replay file is an input. */
module ParserService {
  import opened Wrappers
  import opened ParserConst
  import opened Interpreter

  datatype ProcessError = BAD_MAP | NO_MAPPING | PARSING_ERROR

  /** A `MapProcess` row. */
  datatype MapProcess = MapProcess(
    id: string,
    mapId: Option<int>,
    filePath: string,
    mappingError: Option<ProcessError>,
    downloadError: Option<int>,
    processed: bool)

  /** The fields of a `MapVersion` row that the selection reads. */
  datatype MapVersion = MapVersion(dataKey: Option<string>, mapVersion: Option<string>, ignore: bool)

  /** The link column of a `W3ChampionsMatch` row. */
  datatype W3cMatch = W3cMatch(id: string, mapProcessId: Option<string>)

  /** `processes` is the `MapProcess` table by id; `order` is its storage
      order, the order in which the database returns rows. */
  datatype Db = Db(
    processes: map<string, MapProcess>,
    order: seq<string>,
    maps: map<int, MapVersion>,
    matches: seq<W3cMatch>,
    removedFiles: set<string>)

  const BATCH_SIZE: nat := 10
  const MAX_PARSED: nat := 1000

  /** The selection of `parseMatches`: a fresh record, or one that lacked a
      mapping whose map has since received a data key and a version and is
      not ignored. */
  predicate Eligible(r: MapProcess, maps: map<int, MapVersion>) {
    || (r.downloadError.None? && r.mappingError.None? && !r.processed)
    || (&& r.mappingError == Some(NO_MAPPING)
        && r.mapId.Some? && r.mapId.value in maps
        && maps[r.mapId.value].dataKey.Some?
        && maps[r.mapId.value].mapVersion.Some?
        && !maps[r.mapId.value].ignore)
  }

  /** The row stored under `k` is eligible. */
  predicate EligibleAt(db: Db, k: string) {
    k in db.processes && Eligible(db.processes[k], db.maps)
  }

  /** Some row in storage is eligible. */
  predicate Pending(db: Db) {
    exists k :: k in db.order && EligibleAt(db, k)
  }

  /** The eligible rows of the ids in `order`, in that order. */
  function EligibleRows(order: seq<string>, db: Db): seq<MapProcess> {
    if order == [] then []
    else
      var k := order[|order| - 1];
      EligibleRows(order[..|order| - 1], db) + (if EligibleAt(db, k) then [db.processes[k]] else [])
  }

  /** `findMany({ where, take: 10 })`, in storage order. */
  function Batch(db: Db): seq<MapProcess> {
    var rows := EligibleRows(db.order, db);
    if |rows| <= BATCH_SIZE then rows else rows[..BATCH_SIZE]
  }

  lemma {:induction false} EligibleRowsMembers(order: seq<string>, db: Db)
    ensures forall x :: x in EligibleRows(order, db) <==> exists k :: k in order && EligibleAt(db, k) && db.processes[k] == x
  {
    if order != [] {
      var init := order[..|order| - 1];
      var k := order[|order| - 1];
      EligibleRowsMembers(init, db);
      assert order == init + [k];
      forall x | x in EligibleRows(order, db)
        ensures exists j :: j in order && EligibleAt(db, j) && db.processes[j] == x
      {
        if x !in EligibleRows(init, db) {
          assert k in order;
        }
      }
    }
  }

  /** A batch holds at most ten stored rows, all eligible, and is empty
      exactly when no stored row is. */
  lemma BatchSpec(db: Db)
    ensures |Batch(db)| <= BATCH_SIZE
    ensures forall x :: x in Batch(db) ==> exists k :: k in db.order && EligibleAt(db, k) && db.processes[k] == x
    ensures Batch(db) == [] <==> !Pending(db)
  {
    EligibleRowsMembers(db.order, db);
    var rows := EligibleRows(db.order, db);
    forall x | x in Batch(db)
      ensures x in rows
    {
      var i :| 0 <= i < |Batch(db)| && Batch(db)[i] == x;
      assert rows[i] == x;
    }
    if rows != [] {
      assert rows[0] in rows;
      assert Batch(db)[0] == rows[0];
    }
    if Pending(db) {
      var k :| k in db.order && EligibleAt(db, k);
      assert db.processes[k] in rows;
    }
  }

  lemma BatchEmpty(db: Db)
    ensures Batch(db) == [] <==> !Pending(db)
  {
    BatchSpec(db);
  }

  /** What parsing one replay file yields. */
  datatype Outcome =
    | FileMissing
    | Parsed
    | BadMap                    // `BadMapError`
    | NoMapping(mapId: int)     // `ReplayMappingError`
    | ParsingFailed             // `ReplayParsingError`
    | Unclassified              // any other exception

  /** The outcome of a replay whose map is known and mapped, from the
      interpreter's result: too few players is a `ReplayParsingError`, a fault
      is an ordinary exception. */
  function OutcomeOf(r: Result<ReplayResult, ParseError>): (o: Outcome)
    ensures o == Parsed <==> r.Ok?
    ensures o == Unclassified <==> r.Err? && r.error.Crashed?
  {
    match r
    case Ok(_) => Parsed
    case Err(NotEnoughPlayers(_)) => ParsingFailed
    case Err(Crashed(_)) => Unclassified
  }

  /** The record updates `parseMap` issues. */
  datatype Change = MarkParsed | MarkFailed(error: ProcessError, mapId: Option<int>)

  function Apply(r: MapProcess, ch: Change): MapProcess {
    match ch
    case MarkParsed => r.(mappingError := None, processed := true)
    case MarkFailed(e, m) => r.(mappingError := Some(e), mapId := if m.Some? then m else r.mapId)
  }

  /** `mapProcess.update({ where: { id } })`. */
  function Update(ps: map<string, MapProcess>, id: string, ch: Change): map<string, MapProcess> {
    if id in ps then ps[id := Apply(ps[id], ch)] else ps
  }

  /** `removeReplayFile`: deletes only in production; a failed removal is
      swallowed, so the removal is all that can change. */
  function RemoveReplayFile(db: Db, path: string, production: bool): Db {
    if production then db.(removedFiles := db.removedFiles + {path}) else db
  }

  /** `handleNonExistingMap`: unlinks the W3Champions matches of the record,
      then deletes the record. */
  function HandleNonExistingMap(db: Db, id: string): Db {
    db.(matches := Unlink(db.matches, id), processes := db.processes - {id})
  }

  /** `w3ChampionsMatch.updateMany({ where: { mapProcessId: id }, data: { mapProcessId: null } })`. */
  function Unlink(ms: seq<W3cMatch>, id: string): seq<W3cMatch> {
    if ms == [] then []
    else
      var m := ms[|ms| - 1];
      Unlink(ms[..|ms| - 1], id) + [if m.mapProcessId == Some(id) then m.(mapProcessId := None) else m]
  }

  lemma {:induction false} UnlinkSpec(ms: seq<W3cMatch>, id: string)
    ensures |Unlink(ms, id)| == |ms|
    ensures forall i :: 0 <= i < |ms| ==>
      Unlink(ms, id)[i] == if ms[i].mapProcessId == Some(id) then ms[i].(mapProcessId := None) else ms[i]
  {
    if ms != [] {
      UnlinkSpec(ms[..|ms| - 1], id);
    }
  }

  /** The record is deleted and no match links to it any more; every other
      record and link stays as it was. */
  lemma HandleNonExistingMapSpec(db: Db, id: string)
    ensures var r := HandleNonExistingMap(db, id);
      && r.processes == db.processes - {id}
      && |r.matches| == |db.matches|
      && (forall i :: 0 <= i < |r.matches| ==> r.matches[i].id == db.matches[i].id && r.matches[i].mapProcessId != Some(id))
      && (forall i :: 0 <= i < |r.matches| && db.matches[i].mapProcessId != Some(id) ==> r.matches[i] == db.matches[i])
      && r.maps == db.maps && r.removedFiles == db.removedFiles
  {
    UnlinkSpec(db.matches, id);
  }

  /** The ReplayMappingError path also clears the map's data key. */
  function ClearDataKey(maps: map<int, MapVersion>, mapId: int): map<int, MapVersion> {
    if mapId in maps then maps[mapId := maps[mapId].(dataKey := None)] else maps
  }

  /** `parseMap`: the new database and whether the parse succeeded. */
  function ParseMap(db: Db, r: MapProcess, o: Outcome, production: bool): (Db, bool) {
    match o
    case FileMissing => (HandleNonExistingMap(db, r.id), false)
    case Parsed =>
      (RemoveReplayFile(db.(processes := Update(db.processes, r.id, MarkParsed)), r.filePath, production), true)
    case BadMap =>
      (RemoveReplayFile(db.(processes := Update(db.processes, r.id, MarkFailed(BAD_MAP, None))), r.filePath, production), false)
    case NoMapping(m) =>
      (db.(processes := Update(db.processes, r.id, MarkFailed(NO_MAPPING, Some(m))), maps := ClearDataKey(db.maps, m)), false)
    case ParsingFailed =>
      (RemoveReplayFile(db.(processes := Update(db.processes, r.id, MarkFailed(PARSING_ERROR, None))), r.filePath, production), false)
    case Unclassified => (db, false)
  }

  /** Only a successful parse reports success, and an unclassified error
      leaves the database exactly as it was. The replay file is removed only
      in production, and only after a success, a bad map or a parsing
      error. */
  lemma ParseMapReports(db: Db, r: MapProcess, o: Outcome, production: bool)
    ensures ParseMap(db, r, o, production).1 <==> o == Parsed
    ensures o == Unclassified ==> ParseMap(db, r, o, production).0 == db
    ensures r.filePath !in db.removedFiles ==>
      (r.filePath in ParseMap(db, r, o, production).0.removedFiles <==> production && o in {Parsed, BadMap, ParsingFailed})
  {
  }

  /** Every other outcome settles the record: it is deleted, or what is left
      under its id is no longer eligible. */
  lemma ParseMapSettles(db: Db, r: MapProcess, o: Outcome, production: bool)
    requires o != Unclassified
    ensures !EligibleAt(ParseMap(db, r, o, production).0, r.id)
  {
  }

  /** The `for` loop over one batch: the database after it and the number of
      successes. */
  function ParseBatch(db: Db, batch: seq<MapProcess>, outcome: string -> Outcome, production: bool): (Db, nat) {
    if batch == [] then (db, 0)
    else
      var prefix := ParseBatch(db, batch[..|batch| - 1], outcome, production);
      var r := batch[|batch| - 1];
      var step := ParseMap(prefix.0, r, outcome(r.id), production);
      (step.0, if step.1 then prefix.1 + 1 else prefix.1)
  }

  /** The number of batch rows whose replay parses. */
  function CountParsed(batch: seq<MapProcess>, outcome: string -> Outcome): nat {
    if batch == [] then 0
    else CountParsed(batch[..|batch| - 1], outcome) + (if outcome(batch[|batch| - 1].id) == Parsed then 1 else 0)
  }

  /** A batch counts exactly its successful parses. */
  lemma {:induction false} ParseBatchCounts(db: Db, batch: seq<MapProcess>, outcome: string -> Outcome, production: bool)
    ensures ParseBatch(db, batch, outcome, production).1 == CountParsed(batch, outcome) <= |batch|
  {
    if batch != [] {
      var init := batch[..|batch| - 1];
      ParseBatchCounts(db, init, outcome, production);
      var d := ParseBatch(db, init, outcome, production).0;
      var r := batch[|batch| - 1];
      ParseMapReports(d, r, outcome(r.id), production);
    }
  }

  /** A batch whose replays all fail with unclassified errors changes nothing. */
  lemma {:induction false} UnclassifiedBatchIsInert(db: Db, batch: seq<MapProcess>, outcome: string -> Outcome, production: bool)
    requires forall x :: x in batch ==> outcome(x.id) == Unclassified
    ensures ParseBatch(db, batch, outcome, production) == (db, 0)
  {
    if batch != [] {
      UnclassifiedBatchIsInert(db, batch[..|batch| - 1], outcome, production);
      assert batch[|batch| - 1] in batch;
    }
  }

  /** The `while` loop of `parseMatches` as written, for at most `fuel`
      rounds: the final database, the success count, and whether the loop
      ended by its own rule rather than by running out of fuel. */
  function Rounds(db: Db, count: nat, outcome: string -> Outcome, production: bool, fuel: nat): (Db, nat, bool)
    decreases fuel
  {
    if count >= MAX_PARSED then (db, count, true)
    else
      var batch := Batch(db);
      if batch == [] then (db, count, true)
      else if fuel == 0 then (db, count, false)
      else
        var step := ParseBatch(db, batch, outcome, production);
        Rounds(step.0, count + step.1, outcome, production, fuel - 1)
  }

  lemma RoundsStep(db: Db, count: nat, outcome: string -> Outcome, production: bool, fuel: nat)
    requires count < MAX_PARSED && Batch(db) != [] && fuel > 0
    ensures var step := ParseBatch(db, Batch(db), outcome, production);
      Rounds(db, count, outcome, production, fuel) == Rounds(step.0, count + step.1, outcome, production, fuel - 1)
  {
    var batch := Batch(db);
    var step := ParseBatch(db, batch, outcome, production);
    assert Rounds(db, count, outcome, production, fuel) == Rounds(step.0, count + step.1, outcome, production, fuel - 1);
  }

  /** One round, with the batch's outcome given as `next` and `parsed`. */
  lemma RoundsAdvance(db: Db, count: nat, outcome: string -> Outcome, production: bool, fuel: nat, next: Db, parsed: nat)
    requires count < MAX_PARSED && Batch(db) != [] && fuel > 0
    requires (next, parsed) == ParseBatch(db, Batch(db), outcome, production)
    ensures Rounds(db, count, outcome, production, fuel) == Rounds(next, count + parsed, outcome, production, fuel - 1)
  {
    RoundsStep(db, count, outcome, production, fuel);
  }

  /** When the loop ends by its own rule, it has counted 1000 successes or no
      row is eligible any more; the count only grows. */
  lemma {:induction false} RoundsStopRule(db: Db, count: nat, outcome: string -> Outcome, production: bool, fuel: nat)
    ensures var r := Rounds(db, count, outcome, production, fuel);
      && count <= r.1
      && (r.2 ==> r.1 >= MAX_PARSED || !Pending(r.0))
    decreases fuel
  {
    var r := Rounds(db, count, outcome, production, fuel);
    if count >= MAX_PARSED {
      assert r == (db, count, true);
    } else if Batch(db) == [] {
      BatchEmpty(db);
      assert r == (db, count, true);
    } else if fuel == 0 {
      assert r == (db, count, false);
    } else {
      var step := ParseBatch(db, Batch(db), outcome, production);
      RoundsAdvance(db, count, outcome, production, fuel, step.0, step.1);
      RoundsStopRule(step.0, count + step.1, outcome, production, fuel - 1);
      var r' := Rounds(step.0, count + step.1, outcome, production, fuel - 1);
      assert r == r';
      assert count <= r'.1;
      assert r'.2 ==> r'.1 >= MAX_PARSED || !Pending(r'.0);
    }
  }

  /** As written, once every eligible record fails with an unclassified error
      the loop never ends by its own rule: it re-selects the same records
      forever without changing anything. */
  lemma {:induction false} StuckRecordsSpinForever(db: Db, count: nat, outcome: string -> Outcome, production: bool, fuel: nat)
    requires count < MAX_PARSED
    requires Pending(db)
    requires forall k :: k in db.order && EligibleAt(db, k) ==> outcome(db.processes[k].id) == Unclassified
    ensures Rounds(db, count, outcome, production, fuel) == (db, count, false)
    decreases fuel
  {
    BatchSpec(db);
    UnclassifiedBatchIsInert(db, Batch(db), outcome, production);
    if fuel > 0 {
      StuckRecordsSpinForever(db, count, outcome, production, fuel - 1);
    }
  }

  /** The smallest such input: one fresh record whose replay crashes the
      interpreter. */
  lemma FreshCrashingReplaySpins(fuel: nat)
    ensures var r := MapProcess("p", None, "p.w3g", None, None, false);
      var db := Db(map["p" := r], ["p"], map[], [], {});
      var outcome := (id: string) => OutcomeOf(Err(Crashed(TypeError)));
      Rounds(db, 0, outcome, false, fuel) == (db, 0, false)
  {
    var r := MapProcess("p", None, "p.w3g", None, None, false);
    var db := Db(map["p" := r], ["p"], map[], [], {});
    assert "p" in db.order && EligibleAt(db, "p");
    StuckRecordsSpinForever(db, 0, (id: string) => OutcomeOf(Err(Crashed(TypeError))), false, fuel);
  }

  /** The loop with the cap counting parse attempts rather than successes:
      it needs no fuel, and each round either stops or attempts at least one
      record. Returns the database, successes and attempts. */
  function RoundsCapped(db: Db, count: nat, attempts: nat, outcome: string -> Outcome, production: bool): (r: (Db, nat, nat))
    decreases MAX_PARSED - attempts
  {
    if attempts >= MAX_PARSED then (db, count, attempts)
    else
      var batch := Batch(db);
      if batch == [] then (db, count, attempts)
      else
        var step := ParseBatch(db, batch, outcome, production);
        RoundsCapped(step.0, count + step.1, attempts + |batch|, outcome, production)
  }

  lemma RoundsCappedStep(db: Db, count: nat, attempts: nat, outcome: string -> Outcome, production: bool)
    requires attempts < MAX_PARSED && Batch(db) != []
    ensures var step := ParseBatch(db, Batch(db), outcome, production);
      RoundsCapped(db, count, attempts, outcome, production)
        == RoundsCapped(step.0, count + step.1, attempts + |Batch(db)|, outcome, production)
  {
    var batch := Batch(db);
    var step := ParseBatch(db, batch, outcome, production);
    assert RoundsCapped(db, count, attempts, outcome, production)
      == RoundsCapped(step.0, count + step.1, attempts + |batch|, outcome, production);
  }

  /** One round of the capped loop, named: the database after the batch,
      its successes and its size. */
  lemma RoundsCappedUnfold(db: Db, count: nat, attempts: nat, outcome: string -> Outcome, production: bool)
    returns (next: Db, parsed: nat, n: nat)
    requires attempts < MAX_PARSED && Batch(db) != []
    ensures 0 < n <= BATCH_SIZE && parsed <= n
    ensures RoundsCapped(db, count, attempts, outcome, production)
      == RoundsCapped(next, count + parsed, attempts + n, outcome, production)
  {
    var batch := Batch(db);
    ParseBatchCounts(db, batch, outcome, production);
    var step := ParseBatch(db, batch, outcome, production);
    RoundsCappedStep(db, count, attempts, outcome, production);
    next, parsed, n := step.0, step.1, |batch|;
  }

  /** The capped loop always returns, after fewer than 1000 + 10 attempts,
      with no more successes than attempts. */
  lemma {:induction false} RoundsCappedBound(db: Db, count: nat, attempts: nat, outcome: string -> Outcome, production: bool)
    requires count <= attempts < MAX_PARSED + BATCH_SIZE
    ensures var r := RoundsCapped(db, count, attempts, outcome, production);
      count <= r.1 <= r.2 < MAX_PARSED + BATCH_SIZE
    decreases MAX_PARSED - attempts
  {
    if attempts < MAX_PARSED && Batch(db) != [] {
      var next, parsed, n := RoundsCappedUnfold(db, count, attempts, outcome, production);
      RoundsCappedBound(next, count + parsed, attempts + n, outcome, production);
    }
  }

  /** It stops only at the cap or with nothing eligible. */
  lemma {:induction false} RoundsCappedStopRule(db: Db, count: nat, attempts: nat, outcome: string -> Outcome, production: bool)
    ensures var r := RoundsCapped(db, count, attempts, outcome, production);
      r.2 >= MAX_PARSED || !Pending(r.0)
    decreases MAX_PARSED - attempts
  {
    var batch := Batch(db);
    var r := RoundsCapped(db, count, attempts, outcome, production);
    if attempts >= MAX_PARSED {
      assert r == (db, count, attempts);
    } else if batch == [] {
      BatchEmpty(db);
      assert r == (db, count, attempts);
    } else {
      var next, parsed, n := RoundsCappedUnfold(db, count, attempts, outcome, production);
      RoundsCappedStopRule(next, count + parsed, attempts + n, outcome, production);
    }
  }

  /** `parseMatches` as written, run for at most `fuel` rounds. */
  method ParseMatches(db: Db, outcome: string -> Outcome, production: bool, fuel: nat)
    returns (result: Db, countResult: nat, finished: bool)
    ensures (result, countResult, finished) == Rounds(db, 0, outcome, production, fuel)
  {
    result := db;
    countResult := 0;
    var left := fuel;
    ghost var goal := Rounds(result, countResult, outcome, production, left);
    while true
      invariant goal == Rounds(result, countResult, outcome, production, left)
      decreases left
    {
      if countResult >= MAX_PARSED {
        return result, countResult, true;
      }
      var replaysToParse := Batch(result);
      if replaysToParse == [] {
        return result, countResult, true;
      }
      if left == 0 {
        return result, countResult, false;
      }
      var next, parsed := ParseReplays(result, replaysToParse, outcome, production);
      RoundsAdvance(result, countResult, outcome, production, left, next, parsed);
      result, countResult, left := next, countResult + parsed, left - 1;
    }
  }

  /** The `for` loop over a batch. */
  method ParseReplays(db: Db, batch: seq<MapProcess>, outcome: string -> Outcome, production: bool)
    returns (result: Db, parsed: nat)
    ensures result == ParseBatch(db, batch, outcome, production).0
    ensures parsed == ParseBatch(db, batch, outcome, production).1
  {
    result := db;
    parsed := 0;
    for i := 0 to |batch|
      invariant (result, parsed) == ParseBatch(db, batch[..i], outcome, production)
    {
      assert batch[..i + 1][..i] == batch[..i];
      var step := ParseMap(result, batch[i], outcome(batch[i].id), production);
      result := step.0;
      if step.1 {
        parsed := parsed + 1;
      }
    }
    assert batch[..|batch|] == batch;
  }

  /** `hasLeavers`: fewer than four players, or some player who left before
      the leaver threshold or never reached the second fort. */
  function HasLeavers(players: seq<PlayerState>): (b: bool)
    ensures b <==>
      || |players| < 4
      || exists i :: 0 <= i < |players| && (players[i].time < TIME_TO_COUNT_PLAYER_AS_LEAVER || !HasEvent(players[i].events, UP_FORT2))
  {
    |players| < 4 || exists p :: p in players && (p.time < TIME_TO_COUNT_PLAYER_AS_LEAVER || !HasEvent(p.events, UP_FORT2))
  }

  /** `events.find(({ eventType }) => eventType === t)` is truthy. */
  predicate HasEvent(events: seq<Event>, t: PlayerEvent) {
    exists e :: e in events && e.eventType == t
  }

  /** A full game (four or more players), where everyone stayed past the
      threshold and built the second fort, has no leavers; a missing second
      fort alone is enough to mark one. */
  lemma HasLeaversCases(players: seq<PlayerState>, i: nat)
    requires i < |players|
    ensures !HasEvent(players[i].events, UP_FORT2) ==> HasLeavers(players)
    ensures (|players| >= 4 && forall p :: p in players ==> p.time >= TIME_TO_COUNT_PLAYER_AS_LEAVER && HasEvent(p.events, UP_FORT2))
      ==> !HasLeavers(players)
  {
  }

  function Sum(xs: seq<real>): real {
    if xs == [] then 0.0 else Sum(xs[..|xs| - 1]) + xs[|xs| - 1]
  }

  /** The arithmetic mean, `null` for no values. */
  function Average(xs: seq<real>): (r: Option<real>)
    ensures r.None? <==> xs == []
  {
    if xs == [] then None else Some(Sum(xs) / (|xs| as real))
  }

  lemma {:induction false} SumBounds(xs: seq<real>, lo: real, hi: real)
    requires forall i :: 0 <= i < |xs| ==> lo <= xs[i] <= hi
    ensures (|xs| as real) * lo <= Sum(xs) <= (|xs| as real) * hi
  {
    if xs != [] {
      SumBounds(xs[..|xs| - 1], lo, hi);
    }
  }

  /** The average lies between any bounds of the values. */
  lemma AverageBounds(xs: seq<real>, lo: real, hi: real)
    requires xs != []
    requires forall i :: 0 <= i < |xs| ==> lo <= xs[i] <= hi
    ensures lo <= Average(xs).value <= hi
  {
    SumBounds(xs, lo, hi);
    var n := |xs| as real;
    assert Average(xs).value * n == Sum(xs);
  }

  /** The enriched rating of a player: MMR and quantile. */
  datatype Rating = Rating(mmr: real, quantile: real)

  /** The computed columns of the new `Match` row. */
  datatype MatchRow = MatchRow(duration: nat, avgMmr: Option<real>, avgQuantile: Option<real>, hasLeavers: bool)

  function Mmrs(rs: seq<Rating>): (r: seq<real>)
    ensures |r| == |rs| && forall i :: 0 <= i < |rs| ==> r[i] == rs[i].mmr
  {
    if rs == [] then [] else Mmrs(rs[..|rs| - 1]) + [rs[|rs| - 1].mmr]
  }

  function Quantiles(rs: seq<Rating>): (r: seq<real>)
    ensures |r| == |rs| && forall i :: 0 <= i < |rs| ==> r[i] == rs[i].quantile
  {
    if rs == [] then [] else Quantiles(rs[..|rs| - 1]) + [rs[|rs| - 1].quantile]
  }

  function MatchRowOf(data: ReplayResult, ratings: seq<Rating>): MatchRow {
    MatchRow(data.duration, Average(Mmrs(ratings)), Average(Quantiles(ratings)), HasLeavers(data.players))
  }

  /** Both averages are `null` exactly when no player was enriched. */
  lemma MatchRowAverages(data: ReplayResult, ratings: seq<Rating>)
    ensures MatchRowOf(data, ratings).avgMmr.None? <==> ratings == []
    ensures MatchRowOf(data, ratings).avgQuantile.None? <==> ratings == []
    ensures MatchRowOf(data, ratings).duration == data.duration
  {
  }
}
