/** `FetcherService`: pages through the W3Champions match list of each map
    family until it reaches a page holding an already stored match, then
    stores the new matches in chunks of 50. The HTTP pages are an input, a
    function of game mode and offset. */
module FetcherService {
  import opened Wrappers
  import opened Js

  datatype ApiPlayer = ApiPlayer(battleTag: string, oldMmr: int, oldMmrQuantile: real)
  datatype Team = Team(players: seq<ApiPlayer>)
  datatype ApiMatch = ApiMatch(id: string, endTime: string, season: int, teams: seq<Team>)

  /** A reply of `GET /api/matches`: the total count and one page, or an
      error. */
  datatype PageReply = Page(count: int, matches: seq<ApiMatch>) | Failed

  datatype Family = Og | Oz

  /** How a load ended: by its own rule, by an error, or (in the model) by
      running out of fuel. */
  datatype LoadStatus = Done | Errored | OutOfFuel

  const LIMIT: nat := 100
  const CHUNK: nat := 50

  function GameMode(f: Family): (gm: int)
    ensures f == Og ==> gm == 1001
    ensures f == Oz ==> gm == 1002
  {
    match f
    case Og => 1001
    case Oz => 1002
  }

  /** `dbCount` is non-zero: some match of the page is already stored. */
  predicate HasStored(ms: seq<ApiMatch>, stored: set<string>) {
    exists m :: m in ms && m.id in stored
  }

  /** The matches of the page at index `i`. */
  function PageMatches(page: (int, nat) -> PageReply, gm: int, i: nat): seq<ApiMatch> {
    match page(gm, i * LIMIT)
    case Page(_, ms) => ms
    case Failed => []
  }

  /** The matches of the first `k` pages, in page order. */
  function PagesUpTo(page: (int, nat) -> PageReply, gm: int, k: nat): seq<ApiMatch> {
    if k == 0 then [] else PagesUpTo(page, gm, k - 1) + PageMatches(page, gm, k - 1)
  }

  /** The `while (offset <= count)` loop from page `i` on, with `count` the
      last reply's count (`None` before the first reply: `Infinity`). */
  function LoadFrom(page: (int, nat) -> PageReply, gm: int, stored: set<string>,
                    i: nat, output: seq<ApiMatch>, count: Option<int>, fuel: nat): (seq<ApiMatch>, LoadStatus)
    decreases fuel
  {
    if count.Some? && i * LIMIT > count.value then (output, Done)
    else if fuel == 0 then (output, OutOfFuel)
    else
      match page(gm, i * LIMIT)
      case Failed => ([], Errored)
      case Page(c, ms) =>
        if HasStored(ms, stored) then (output + ms, Done)
        else LoadFrom(page, gm, stored, i + 1, output + ms, Some(c), fuel - 1)
  }

  function Load(f: Family, page: (int, nat) -> PageReply, stored: set<string>, fuel: nat): (seq<ApiMatch>, LoadStatus) {
    LoadFrom(page, GameMode(f), stored, 0, [], None, fuel)
  }

  /** A load that ends by its own rule returns the first `k` pages, `k >= 1`,
      and stops either on a page that holds a stored match or once the next
      offset passes the count of page `k - 1`; the pages before that held no
      stored match. An error discards everything. */
  lemma {:induction false} LoadFromSpec(page: (int, nat) -> PageReply, gm: int, stored: set<string>,
                                        i: nat, count: Option<int>, fuel: nat)
    requires forall j :: 0 <= j < i ==> page(gm, j * LIMIT).Page? && !HasStored(PageMatches(page, gm, j), stored)
    requires i == 0 <==> count.None?
    requires i > 0 ==> count == Some(page(gm, (i - 1) * LIMIT).count)
    ensures var r := LoadFrom(page, gm, stored, i, PagesUpTo(page, gm, i), count, fuel);
      && (r.1 == Errored ==> r.0 == [])
      && (r.1 == Done ==> exists k :: (1 <= k && r.0 == PagesUpTo(page, gm, k)
            && (forall j :: 0 <= j < k ==> page(gm, j * LIMIT).Page?)
            && (forall j :: 0 <= j < k - 1 ==> !HasStored(PageMatches(page, gm, j), stored))
            && (HasStored(PageMatches(page, gm, k - 1), stored) || k * LIMIT > page(gm, (k - 1) * LIMIT).count)))
    decreases fuel
  {
    var output := PagesUpTo(page, gm, i);
    if count.Some? && i * LIMIT > count.value {
      assert 1 <= i && output == PagesUpTo(page, gm, i);
    } else if fuel > 0 {
      match page(gm, i * LIMIT)
      case Failed =>
      case Page(c, ms) =>
        assert output + ms == PagesUpTo(page, gm, i + 1);
        if !HasStored(ms, stored) {
          LoadFromSpec(page, gm, stored, i + 1, Some(c), fuel - 1);
        } else {
          assert i + 1 >= 1;
        }
    }
  }

  /** The first page is always requested (`offset` 0 against `Infinity`),
      for the family's game mode. */
  lemma LoadSpec(f: Family, page: (int, nat) -> PageReply, stored: set<string>, fuel: nat)
    ensures var r := Load(f, page, stored, fuel);
      && (r.1 == Errored ==> r.0 == [])
      && (r.1 == Done ==> exists k :: (1 <= k && r.0 == PagesUpTo(page, GameMode(f), k)
            && (forall j :: 0 <= j < k ==> page(GameMode(f), j * LIMIT).Page?)
            && (forall j :: 0 <= j < k - 1 ==> !HasStored(PageMatches(page, GameMode(f), j), stored))
            && (HasStored(PageMatches(page, GameMode(f), k - 1), stored) || k * LIMIT > page(GameMode(f), (k - 1) * LIMIT).count)))
      && (fuel > 0 && page(GameMode(f), 0).Failed? ==> r == ([], Errored))
  {
    LoadFromSpec(page, GameMode(f), stored, 0, None, fuel);
  }

  /** `loadW3cMatches`, run for at most `fuel` pages. */
  method LoadW3cMatches(f: Family, page: (int, nat) -> PageReply, stored: set<string>, fuel: nat)
    returns (output: seq<ApiMatch>, status: LoadStatus)
    ensures (output, status) == Load(f, page, stored, fuel)
  {
    var gameMode := GameMode(f);
    var count: Option<int> := None;
    var offset: nat := 0;
    var i: nat := 0;
    var left := fuel;
    output := [];
    ghost var goal := LoadFrom(page, gameMode, stored, i, output, count, left);
    while count.None? || offset <= count.value
      invariant offset == i * LIMIT
      invariant goal == LoadFrom(page, gameMode, stored, i, output, count, left)
      decreases left
    {
      if left == 0 {
        return output, OutOfFuel;
      }
      var reply := page(gameMode, offset);
      if reply.Failed? {
        return [], Errored;
      }
      count := Some(reply.count);
      offset := offset + LIMIT;
      i := i + 1;
      output := output + reply.matches;
      left := left - 1;
      if HasStored(reply.matches, stored) {
        return output, Done;
      }
    }
    return output, Done;
  }

  /** A stored `W3ChampionsMatch` row. */
  datatype PlayerRow = PlayerRow(name: string, mmr: int, quantile: int)
  datatype MatchRow = MatchRow(id: string, season: int, time: string, players: seq<PlayerRow>)

  function PlayerRowOf(p: ApiPlayer): PlayerRow {
    PlayerRow(p.battleTag, p.oldMmr, (p.oldMmrQuantile * 100.0).Floor)
  }

  function PlayerRows(ps: seq<ApiPlayer>): (r: seq<PlayerRow>)
    ensures |r| == |ps|
    ensures forall i :: 0 <= i < |r| ==> r[i] == PlayerRowOf(ps[i])
  {
    if ps == [] then [] else PlayerRows(ps[..|ps| - 1]) + [PlayerRowOf(ps[|ps| - 1])]
  }

  function TeamRows(t: Team): seq<PlayerRow> {
    PlayerRows(t.players)
  }

  function RowOf(m: ApiMatch): MatchRow {
    MatchRow(m.id, m.season, m.endTime, FlatMap(m.teams, TeamRows))
  }

  /** The players of a row are those of all teams, team by team. */
  lemma RowPlayers(m: ApiMatch, t: nat, j: nat)
    requires t < |m.teams| && j < |m.teams[t].players|
    ensures PlayerRowOf(m.teams[t].players[j]) in RowOf(m).players
    ensures forall r :: r in RowOf(m).players ==> exists u :: u in m.teams && r in TeamRows(u)
  {
    FlatMapMember(m.teams, TeamRows, PlayerRowOf(m.teams[t].players[j]));
    assert m.teams[t] in m.teams;
    assert TeamRows(m.teams[t])[j] == PlayerRowOf(m.teams[t].players[j]);
    forall r | r in RowOf(m).players
      ensures exists u :: u in m.teams && r in TeamRows(u)
    {
      FlatMapMember(m.teams, TeamRows, r);
    }
  }

  function Rows(ms: seq<ApiMatch>): (r: seq<MatchRow>)
    ensures |r| == |ms|
    ensures forall i :: 0 <= i < |ms| ==> r[i] == RowOf(ms[i])
  {
    if ms == [] then [] else Rows(ms[..|ms| - 1]) + [RowOf(ms[|ms| - 1])]
  }

  /** lodash `chunk(xs, n)`. */
  function Chunk<T>(xs: seq<T>, n: nat): seq<seq<T>>
    requires n > 0
    decreases |xs|
  {
    if xs == [] then []
    else if |xs| <= n then [xs]
    else [xs[..n]] + Chunk(xs[n..], n)
  }

  lemma {:induction false} FlattenCons<T(!new)>(a: seq<T>, rest: seq<seq<T>>)
    ensures Flatten([a] + rest) == a + Flatten(rest)
    decreases |rest|
  {
    if rest != [] {
      var init := rest[..|rest| - 1];
      FlattenCons(a, init);
      assert ([a] + rest)[..|[a] + rest| - 1] == [a] + init;
    }
  }

  /** Chunks are non-empty, hold at most `n` items, all but the last exactly
      `n`, and together are the input in order. */
  lemma {:induction false} ChunkSpec<T(!new)>(xs: seq<T>, n: nat)
    requires n > 0
    ensures Flatten(Chunk(xs, n)) == xs
    ensures forall i :: 0 <= i < |Chunk(xs, n)| ==> 0 < |Chunk(xs, n)[i]| <= n
    ensures forall i :: 0 <= i < |Chunk(xs, n)| - 1 ==> |Chunk(xs, n)[i]| == n
    decreases |xs|
  {
    if xs != [] && |xs| > n {
      ChunkSpec(xs[n..], n);
      FlattenCons(xs[..n], Chunk(xs[n..], n));
      assert xs[..n] + xs[n..] == xs;
    } else if xs != [] {
      assert Flatten([xs]) == Flatten([]) + xs;
    }
  }

  /** The table after `createMany({ skipDuplicates: true })`: a row whose id
      is already stored (or was inserted earlier in the same call) is
      skipped. */
  function InsertAll(db: map<string, MatchRow>, rows: seq<MatchRow>): map<string, MatchRow> {
    if rows == [] then db
    else
      var d := InsertAll(db, rows[..|rows| - 1]);
      var row := rows[|rows| - 1];
      if row.id in d then d else d[row.id := row]
  }

  /** Row `i` is the first of `rows` with id `k`. */
  predicate FirstWith(rows: seq<MatchRow>, k: string, i: int) {
    0 <= i < |rows| && rows[i].id == k && forall j :: 0 <= j < i ==> rows[j].id != k
  }

  /** Some row has id `k`. */
  predicate Carries(rows: seq<MatchRow>, k: string) {
    exists i :: 0 <= i < |rows| && rows[i].id == k
  }

  /** The ids in the table afterwards are the stored ones and those of the
      rows, and stored rows are kept. */
  lemma {:induction false} InsertAllKeeps(db: map<string, MatchRow>, rows: seq<MatchRow>)
    ensures forall k :: k in InsertAll(db, rows) <==> k in db || Carries(rows, k)
    ensures forall k :: k in db ==> InsertAll(db, rows)[k] == db[k]
  {
    if rows != [] {
      var init := rows[..|rows| - 1];
      InsertAllKeeps(db, init);
      forall k | Carries(rows, k) && k != rows[|rows| - 1].id
        ensures Carries(init, k)
      {
        var i :| 0 <= i < |rows| && rows[i].id == k;
        assert init[i] == rows[i];
      }
      forall k | Carries(init, k)
        ensures Carries(rows, k)
      {
        var i :| 0 <= i < |init| && init[i].id == k;
        assert init[i] == rows[i];
      }
    }
  }

  /** An id that was not stored gets the first row carrying it. */
  lemma {:induction false} InsertAllFirst(db: map<string, MatchRow>, rows: seq<MatchRow>, k: string)
    requires k in InsertAll(db, rows) && k !in db
    ensures exists i :: FirstWith(rows, k, i) && InsertAll(db, rows)[k] == rows[i]
  {
    var init := rows[..|rows| - 1];
    var d := InsertAll(db, init);
    if k in d {
      InsertAllFirst(db, init, k);
      var i :| FirstWith(init, k, i) && d[k] == init[i];
      assert rows[i] == init[i];
      assert FirstWith(rows, k, i);
    } else {
      InsertAllKeeps(db, init);
      var i := |rows| - 1;
      forall j | 0 <= j < i
        ensures rows[j].id != k
      {
        assert rows[j] == init[j];
      }
      assert FirstWith(rows, k, i);
    }
  }

  lemma {:induction false} InsertAllConcat(db: map<string, MatchRow>, a: seq<MatchRow>, b: seq<MatchRow>)
    ensures InsertAll(db, a + b) == InsertAll(InsertAll(db, a), b)
    decreases |b|
  {
    if b == [] {
      assert a + b == a;
    } else {
      InsertAllConcat(db, a, b[..|b| - 1]);
      assert (a + b)[..|a + b| - 1] == a + b[..|b| - 1];
    }
  }

  /** Inserting chunk after chunk is inserting everything at once. */
  lemma {:induction false} InsertChunks(db: map<string, MatchRow>, chunks: seq<seq<MatchRow>>)
    ensures InsertAllChunks(db, chunks) == InsertAll(db, Flatten(chunks))
  {
    if chunks != [] {
      InsertChunks(db, chunks[..|chunks| - 1]);
      InsertAllConcat(db, Flatten(chunks[..|chunks| - 1]), chunks[|chunks| - 1]);
    }
  }

  function InsertAllChunks(db: map<string, MatchRow>, chunks: seq<seq<MatchRow>>): map<string, MatchRow> {
    if chunks == [] then db else InsertAll(InsertAllChunks(db, chunks[..|chunks| - 1]), chunks[|chunks| - 1])
  }

  /** `createW3CMatches`: one `createMany` per chunk of 50. */
  method CreateW3CMatches(db: map<string, MatchRow>, allMatches: seq<ApiMatch>) returns (result: map<string, MatchRow>)
    ensures result == InsertAll(db, Rows(allMatches))
  {
    var chunks := Chunk(allMatches, CHUNK);
    result := db;
    for i := 0 to |chunks|
      invariant result == InsertAllChunks(db, ChunkRows(chunks[..i]))
    {
      ChunkRowsSnoc(chunks, i);
      result := InsertAll(result, Rows(chunks[i]));
    }
    assert chunks[..|chunks|] == chunks;
    ChunksInsertAll(db, allMatches);
  }

  lemma ChunkRowsSnoc(chunks: seq<seq<ApiMatch>>, i: nat)
    requires i < |chunks|
    ensures ChunkRows(chunks[..i + 1]) == ChunkRows(chunks[..i]) + [Rows(chunks[i])]
  {
    assert chunks[..i + 1][..i] == chunks[..i];
  }

  /** Inserting the rows of each chunk of 50 is inserting all rows. */
  lemma ChunksInsertAll(db: map<string, MatchRow>, allMatches: seq<ApiMatch>)
    ensures InsertAllChunks(db, ChunkRows(Chunk(allMatches, CHUNK))) == InsertAll(db, Rows(allMatches))
  {
    var chunks := Chunk(allMatches, CHUNK);
    InsertChunks(db, ChunkRows(chunks));
    ChunkSpec(allMatches, CHUNK);
    RowsFlatten(chunks);
  }

  /** The rows of each chunk. */
  function ChunkRows(chunks: seq<seq<ApiMatch>>): (r: seq<seq<MatchRow>>)
    ensures |r| == |chunks|
  {
    if chunks == [] then [] else ChunkRows(chunks[..|chunks| - 1]) + [Rows(chunks[|chunks| - 1])]
  }

  lemma {:induction false} RowsConcat(a: seq<ApiMatch>, b: seq<ApiMatch>)
    ensures Rows(a + b) == Rows(a) + Rows(b)
  {
    assert |Rows(a + b)| == |Rows(a) + Rows(b)|;
    forall i | 0 <= i < |a + b|
      ensures Rows(a + b)[i] == (Rows(a) + Rows(b))[i]
    {
      if i < |a| {
        assert (a + b)[i] == a[i];
      } else {
        assert (a + b)[i] == b[i - |a|];
      }
    }
  }

  lemma {:induction false} RowsFlatten(chunks: seq<seq<ApiMatch>>)
    ensures Flatten(ChunkRows(chunks)) == Rows(Flatten(chunks))
  {
    if chunks != [] {
      RowsFlatten(chunks[..|chunks| - 1]);
      RowsConcat(Flatten(chunks[..|chunks| - 1]), chunks[|chunks| - 1]);
    }
  }

  /** `fetchW3Champions`: OG matches are loaded and stored before OZ
      matches are loaded, so the OZ stop rule already sees the new OG rows. */
  function FetchW3Champions(db: map<string, MatchRow>, page: (int, nat) -> PageReply, fuel: nat): map<string, MatchRow> {
    var og := Load(Og, page, db.Keys, fuel).0;
    var afterOg := InsertAll(db, Rows(og));
    var oz := Load(Oz, page, afterOg.Keys, fuel).0;
    InsertAll(afterOg, Rows(oz))
  }

  /** Fetching only adds rows: every stored row is kept unchanged, and every
      match loaded for either family is stored afterwards. */
  lemma FetchKeepsAndAdds(db: map<string, MatchRow>, page: (int, nat) -> PageReply, fuel: nat)
    ensures var r := FetchW3Champions(db, page, fuel);
      && (forall k :: k in db ==> k in r && r[k] == db[k])
      && (forall m :: m in Load(Og, page, db.Keys, fuel).0 ==> m.id in r)
      && (forall m :: m in Load(Oz, page, InsertAll(db, Rows(Load(Og, page, db.Keys, fuel).0)).Keys, fuel).0 ==> m.id in r)
  {
    var og := Load(Og, page, db.Keys, fuel).0;
    var afterOg := InsertAll(db, Rows(og));
    var oz := Load(Oz, page, afterOg.Keys, fuel).0;
    InsertAllKeeps(db, Rows(og));
    InsertAllKeeps(afterOg, Rows(oz));
    forall m | m in og
      ensures m.id in afterOg
    {
      var i :| 0 <= i < |og| && og[i] == m;
      assert Rows(og)[i].id == m.id;
      assert Carries(Rows(og), m.id);
    }
    forall m | m in oz
      ensures m.id in InsertAll(afterOg, Rows(oz))
    {
      var i :| 0 <= i < |oz| && oz[i] == m;
      assert Rows(oz)[i].id == m.id;
      assert Carries(Rows(oz), m.id);
    }
  }
}
