/** `WikiDataService.updateData`: for every `dataKey` of the tree, fetch the
    files whose stored sha differs, store their handled content, and on an
    error drop the `dataKey`'s rows. The GitHub replies are inputs: the tree
    listing and a function from blob url to reply. */
module WikiUpdate {
  import opened Wrappers
  import opened WikiData

  /** A `wikiData` row; the table is keyed by `(dataKey, key)`. */
  datatype StoredRow = StoredRow(data: Content, sha: string)

  type Db = map<(string, string), StoredRow>

  /** The reply for a blob url: its content and encoding, or an HTTP error
      with or without a status. */
  datatype BlobReply = Fetched(encoding: string, file: RawFile) | HttpError(status: Option<int>)

  datatype TreeReply = Listed(tree: Tree) | TreeFailed

  /** How the loop over one `dataKey`'s files ended. */
  datatype ItemsEnd = Completed | RateLimited | Failed

  datatype ItemsResult = ItemsResult(db: Db, updated: bool, end: ItemsEnd)

  /** `dbData[key]?.sha === sha`: the stored row has the blob's sha. */
  predicate UpToDate(stored: Db, dataKey: string, key: string, blob: Blob) {
    (dataKey, key) in stored && stored[(dataKey, key)].sha == blob.sha
  }

  /** The inner `for` loop from file `i` on; `stored` is the table as read
      before the loop. */
  function ItemsFrom(db: Db, stored: Db, dataKey: string, items: seq<(string, Blob)>,
                     fetch: string -> BlobReply, i: nat, updated: bool): ItemsResult
    requires i <= |items|
    decreases |items| - i
  {
    if i == |items| then ItemsResult(db, updated, Completed)
    else
      var key := items[i].0;
      var blob := items[i].1;
      if UpToDate(stored, dataKey, key, blob) then ItemsFrom(db, stored, dataKey, items, fetch, i + 1, updated)
      else match fetch(blob.url)
        case HttpError(status) => ItemsResult(db, updated, if status == Some(429) then RateLimited else Failed)
        case Fetched(encoding, file) =>
          if encoding != "base64" then ItemsResult(db, updated, Failed)
          else match HandleContent(key, file)
            case None => ItemsResult(db, updated, Failed)
            case Some(c) =>
              ItemsFrom(db[(dataKey, key) := StoredRow(c, blob.sha)], stored, dataKey, items, fetch, i + 1, true)
  }

  /** `deleteMany({ where: { dataKey } })`. */
  function DeleteDataKey(db: Db, dataKey: string): (r: Db)
    ensures forall k :: k in r <==> k in db && k.0 != dataKey
    ensures forall k :: k in r ==> r[k] == db[k]
  {
    map k | k in db && k.0 != dataKey :: db[k]
  }

  /** The rate-limit cleanup as written: `dbData` is keyed by file key, so
      `dbData[dataKey]` asks for a file named like the `dataKey`. */
  function RateLimitCleanup(db: Db, stored: Db, dataKey: string): Db {
    if (dataKey, dataKey) !in stored then DeleteDataKey(db, dataKey) else db
  }

  /** The step for one `dataKey`: the new table, whether a file was stored,
      and whether `updateData` returns here. */
  datatype StepResult = StepResult(db: Db, updated: bool, stop: bool)

  function DataKeyStep(db: Db, dataKey: string, items: seq<(string, Blob)>, fetch: string -> BlobReply): StepResult {
    var r := ItemsFrom(db, db, dataKey, items, fetch, 0, false);
    match r.end
    case Completed => StepResult(r.db, r.updated, false)
    case Failed => StepResult(DeleteDataKey(r.db, dataKey), r.updated, false)
    case RateLimited => StepResult(RateLimitCleanup(r.db, db, dataKey), r.updated, true)
  }

  /** The outer loop from group `j` on, with `updatedKeys` the `keysUpdated`
      set; the result is the table and whether the cache is reset. */
  function RunFrom(db: Db, groups: Groups, fetch: string -> BlobReply, j: nat, updatedKeys: set<string>): (Db, bool)
    requires j <= |groups|
    decreases |groups| - j
  {
    if j == |groups| then (db, updatedKeys != {})
    else
      var step := DataKeyStep(db, groups[j].0, groups[j].1, fetch);
      if step.stop then (step.db, false)
      else RunFrom(step.db, groups, fetch, j + 1, if step.updated then updatedKeys + {groups[j].0} else updatedKeys)
  }

  /** `updateData`: a failed or truncated listing changes nothing. */
  function UpdateRun(db: Db, reply: TreeReply, fetch: string -> BlobReply): (Db, bool) {
    match reply
    case TreeFailed => (db, false)
    case Listed(t) =>
      match FetchTree(t)
      case Err(_) => (db, false)
      case Ok(groups) => RunFrom(db, groups, fetch, 0, {})
  }

  /** `updateData` with its outer loop over the `dataKey`s. */
  method UpdateData(db: Db, reply: TreeReply, fetch: string -> BlobReply) returns (result: Db, reset: bool)
    ensures (result, reset) == UpdateRun(db, reply, fetch)
  {
    if reply.TreeFailed? || reply.tree.truncated {
      return db, false;
    }
    var groups := Group(Entries(reply.tree.files));
    var keysUpdated: set<string> := {};
    result := db;
    ghost var goal := RunFrom(result, groups, fetch, 0, keysUpdated);
    for j := 0 to |groups|
      invariant goal == RunFrom(result, groups, fetch, j, keysUpdated)
    {
      var step := UpdateDataKey(result, groups[j].0, groups[j].1, fetch);
      if step.stop {
        return step.db, false;
      }
      result := step.db;
      if step.updated {
        keysUpdated := keysUpdated + {groups[j].0};
      }
    }
    reset := keysUpdated != {};
  }

  /** The body of the outer loop for one `dataKey`, with its error
      handling. */
  method UpdateDataKey(db: Db, dataKey: string, items: seq<(string, Blob)>, fetch: string -> BlobReply)
    returns (step: StepResult)
    ensures step == DataKeyStep(db, dataKey, items, fetch)
  {
    var result, updated, end := UpdateItems(db, dataKey, items, fetch);
    if end == RateLimited {
      result := RateLimitCleanup(result, db, dataKey);
      return StepResult(result, updated, true);
    }
    if end == Failed {
      result := DeleteDataKey(result, dataKey);
    }
    return StepResult(result, updated, false);
  }

  /** The inner loop over the files of one `dataKey`. */
  method UpdateItems(db: Db, dataKey: string, items: seq<(string, Blob)>, fetch: string -> BlobReply)
    returns (result: Db, updated: bool, end: ItemsEnd)
    ensures ItemsResult(result, updated, end) == ItemsFrom(db, db, dataKey, items, fetch, 0, false)
  {
    result := db;
    updated := false;
    end := Completed;
    ghost var goal := ItemsFrom(result, db, dataKey, items, fetch, 0, updated);
    var i := 0;
    while i < |items|
      invariant i <= |items|
      invariant goal == ItemsFrom(result, db, dataKey, items, fetch, i, updated)
    {
      var key := items[i].0;
      var blob := items[i].1;
      if UpToDate(db, dataKey, key, blob) {
        i := i + 1;
        continue;
      }
      var answer := fetch(blob.url);
      if answer.HttpError? {
        end := if answer.status == Some(429) then RateLimited else Failed;
        return;
      }
      if answer.encoding != "base64" {
        end := Failed;
        return;
      }
      var content := HandleContent(key, answer.file);
      if content.None? {
        end := Failed;
        return;
      }
      result := result[(dataKey, key) := StoredRow(content.value, blob.sha)];
      updated := true;
      i := i + 1;
    }
  }

  // ---------------------------------------------------------------------------
  // Properties

  /** Every file of every group has the stored sha. */
  predicate AllUpToDate(db: Db, groups: Groups) {
    forall j, i :: 0 <= j < |groups| && 0 <= i < |groups[j].1| ==>
      UpToDate(db, groups[j].0, groups[j].1[i].0, groups[j].1[i].1)
  }

  lemma {:induction false} ItemsUpToDate(db: Db, dataKey: string, items: seq<(string, Blob)>,
                                         fetch: string -> BlobReply, i: nat, updated: bool)
    requires i <= |items| && forall k :: i <= k < |items| ==> UpToDate(db, dataKey, items[k].0, items[k].1)
    ensures ItemsFrom(db, db, dataKey, items, fetch, i, updated) == ItemsResult(db, updated, Completed)
    decreases |items| - i
  {
    if i < |items| {
      ItemsUpToDate(db, dataKey, items, fetch, i + 1, updated);
    }
  }

  lemma {:induction false} RunUpToDate(db: Db, groups: Groups, fetch: string -> BlobReply, j: nat, keys: set<string>)
    requires j <= |groups| && AllUpToDate(db, groups)
    ensures RunFrom(db, groups, fetch, j, keys) == (db, keys != {})
    decreases |groups| - j
  {
    if j < |groups| {
      ItemsUpToDate(db, groups[j].0, groups[j].1, fetch, 0, false);
      RunUpToDate(db, groups, fetch, j + 1, keys);
    }
  }

  /** When every blob of the tree has its stored sha, nothing is fetched or
      written and the cache is not reset, whatever the blob replies. */
  lemma UpToDateTreeChangesNothing(db: Db, t: Tree, fetch: string -> BlobReply)
    requires !t.truncated && AllUpToDate(db, Group(Entries(t.files)))
    ensures UpdateRun(db, Listed(t), fetch) == (db, false)
  {
    RunUpToDate(db, Group(Entries(t.files)), fetch, 0, {});
  }

  /** The reply for a file is stored: a base64 blob whose content has the
      shape its key asks for. */
  predicate Stores(fetch: string -> BlobReply, key: string, blob: Blob) {
    var answer := fetch(blob.url);
    answer.Fetched? && answer.encoding == "base64" && HandleContent(key, answer.file).Some?
  }

  lemma {:induction false} ItemsUpdated(db: Db, stored: Db, dataKey: string, items: seq<(string, Blob)>,
                                        fetch: string -> BlobReply, i: nat, updated: bool)
    requires i <= |items| && ItemsFrom(db, stored, dataKey, items, fetch, i, updated).updated
    ensures updated || exists k :: (i <= k < |items| && !UpToDate(stored, dataKey, items[k].0, items[k].1)
      && Stores(fetch, items[k].0, items[k].1))
    decreases |items| - i
  {
    if i < |items| {
      var key := items[i].0;
      var blob := items[i].1;
      if UpToDate(stored, dataKey, key, blob) {
        ItemsUpdated(db, stored, dataKey, items, fetch, i + 1, updated);
      } else if Stores(fetch, key, blob) {
      }
    }
  }

  /** Some file of group `j` or later is stored when fetched. */
  predicate SomeStored(groups: Groups, fetch: string -> BlobReply, j: nat) {
    exists g, i :: j <= g < |groups| && 0 <= i < |groups[g].1| && Stores(fetch, groups[g].1[i].0, groups[g].1[i].1)
  }

  lemma {:induction false} RunResets(db: Db, groups: Groups, fetch: string -> BlobReply, j: nat, keys: set<string>)
    requires j <= |groups| && RunFrom(db, groups, fetch, j, keys).1
    ensures keys != {} || SomeStored(groups, fetch, j)
    decreases |groups| - j
  {
    if j < |groups| {
      var step := DataKeyStep(db, groups[j].0, groups[j].1, fetch);
      if step.updated {
        ItemsUpdated(db, db, groups[j].0, groups[j].1, fetch, 0, false);
        var k :| 0 <= k < |groups[j].1| && !UpToDate(db, groups[j].0, groups[j].1[k].0, groups[j].1[k].1)
          && Stores(fetch, groups[j].1[k].0, groups[j].1[k].1);
        assert SomeStored(groups, fetch, j);
      } else {
        RunResets(step.db, groups, fetch, j + 1, keys);
        if SomeStored(groups, fetch, j + 1) {
          var g, i :| j + 1 <= g < |groups| && 0 <= i < |groups[g].1| && Stores(fetch, groups[g].1[i].0, groups[g].1[i].1);
          assert SomeStored(groups, fetch, j);
        }
      }
    }
  }

  /** The cache is reset only after some blob was fetched and stored. */
  lemma ResetNeedsStoredBlob(db: Db, t: Tree, fetch: string -> BlobReply)
    requires UpdateRun(db, Listed(t), fetch).1
    ensures SomeStored(Group(Entries(t.files)), fetch, 0)
  {
    var groups := Group(Entries(t.files));
    assert FetchTree(t) == Ok(groups);
    assert RunFrom(db, groups, fetch, 0, {}).1;
    RunResets(db, groups, fetch, 0, {});
  }

  /** Every stored row has content of the kind its key calls for. */
  predicate Kinded(db: Db) {
    forall k :: k in db ==> HasKind(db[k].data, KindOf(k.1))
  }

  lemma {:induction false} ItemsKinded(db: Db, stored: Db, dataKey: string, items: seq<(string, Blob)>,
                                       fetch: string -> BlobReply, i: nat, updated: bool)
    requires i <= |items| && Kinded(db)
    ensures Kinded(ItemsFrom(db, stored, dataKey, items, fetch, i, updated).db)
    decreases |items| - i
  {
    if i < |items| {
      var key := items[i].0;
      var blob := items[i].1;
      if UpToDate(stored, dataKey, key, blob) {
        ItemsKinded(db, stored, dataKey, items, fetch, i + 1, updated);
      } else if Stores(fetch, key, blob) {
        var c := HandleContent(key, fetch(blob.url).file).value;
        ItemsKinded(db[(dataKey, key) := StoredRow(c, blob.sha)], stored, dataKey, items, fetch, i + 1, true);
      }
    }
  }

  lemma {:induction false} RunKinded(db: Db, groups: Groups, fetch: string -> BlobReply, j: nat, keys: set<string>)
    requires j <= |groups| && Kinded(db)
    ensures Kinded(RunFrom(db, groups, fetch, j, keys).0)
    decreases |groups| - j
  {
    if j < |groups| {
      ItemsKinded(db, db, groups[j].0, groups[j].1, fetch, 0, false);
      var step := DataKeyStep(db, groups[j].0, groups[j].1, fetch);
      if !step.stop {
        RunKinded(step.db, groups, fetch, j + 1, if step.updated then keys + {groups[j].0} else keys);
      }
    }
  }

  /** `updateData` keeps the table well formed for `uncachedGetData`: a key
      `races` holds race ids, `ultimates` the ultimate groups, any other key a
      race mapping. */
  lemma UpdateKeepsKinds(db: Db, reply: TreeReply, fetch: string -> BlobReply)
    requires Kinded(db)
    ensures Kinded(UpdateRun(db, reply, fetch).0)
  {
    if reply.Listed? && !reply.tree.truncated {
      RunKinded(db, Group(Entries(reply.tree.files)), fetch, 0, {});
    }
  }

  /** The inner loop only writes rows of its own `dataKey`, and never removes
      one. */
  lemma {:induction false} ItemsFrame(db: Db, stored: Db, dataKey: string, items: seq<(string, Blob)>,
                                      fetch: string -> BlobReply, i: nat, updated: bool)
    requires i <= |items|
    ensures var r := ItemsFrom(db, stored, dataKey, items, fetch, i, updated).db;
      && (forall k :: k in db ==> k in r)
      && (forall k :: k in r && k.0 != dataKey ==> k in db && r[k] == db[k])
    decreases |items| - i
  {
    if i < |items| {
      var key := items[i].0;
      var blob := items[i].1;
      if UpToDate(stored, dataKey, key, blob) {
        ItemsFrame(db, stored, dataKey, items, fetch, i + 1, updated);
      } else if Stores(fetch, key, blob) {
        var c := HandleContent(key, fetch(blob.url).file).value;
        var next := db[(dataKey, key) := StoredRow(c, blob.sha)];
        assert forall k :: k in next && k.0 != dataKey ==> k in db && next[k] == db[k];
        ItemsFrame(next, stored, dataKey, items, fetch, i + 1, true);
      }
    }
  }

  /** As written, a rate limit inside a `dataKey` whose files are not named
      like the `dataKey` itself drops every row of that `dataKey`, including
      complete data stored by earlier runs. */
  lemma RateLimitDropsStoredRows(db: Db, dataKey: string, items: seq<(string, Blob)>, fetch: string -> BlobReply)
    requires (dataKey, dataKey) !in db
    requires ItemsFrom(db, db, dataKey, items, fetch, 0, false).end == RateLimited
    ensures var step := DataKeyStep(db, dataKey, items, fetch);
      step.stop && forall k :: k in step.db ==> k.0 != dataKey
  {
  }

  /** A stored `og_1` table of one races file loses it when refreshing that
      file hits the rate limit. */
  lemma RateLimitDropsStoredRowsExample()
    ensures var db: Db := map[("og_1", "races") := StoredRow(RaceIds(["h001"]), "s1")];
      var groups: Groups := [("og_1", [("races", Blob("s2", "blob"))])];
      var fetch := (url: string) => HttpError(Some(429));
      UpdateRun0(db, groups, fetch) == (map[], false)
  {
    var db: Db := map[("og_1", "races") := StoredRow(RaceIds(["h001"]), "s1")];
    var groups: Groups := [("og_1", [("races", Blob("s2", "blob"))])];
    var fetch := (url: string) => HttpError(Some(429));
    assert !UpToDate(db, "og_1", "races", Blob("s2", "blob"));
    assert ("og_1", "og_1") !in db;
    var step := DataKeyStep(db, "og_1", groups[0].1, fetch);
    assert step.stop;
    assert step.db == map[];
  }

  /** The outer loop from the first group. */
  function UpdateRun0(db: Db, groups: Groups, fetch: string -> BlobReply): (Db, bool) {
    RunFrom(db, groups, fetch, 0, {})
  }

  /** The cleanup the comment asks for: drop the partial rows only when the
      `dataKey` had no stored rows before the run. */
  function RateLimitCleanupIntended(db: Db, stored: Db, dataKey: string): Db {
    if forall k :: k in stored ==> k.0 != dataKey then DeleteDataKey(db, dataKey) else db
  }

  /** With the intended cleanup, a rate limit keeps every row stored before
      the run, and leaves no partial rows of a `dataKey` that had none. */
  lemma RateLimitCleanupIntendedSpec(db: Db, dataKey: string, items: seq<(string, Blob)>, fetch: string -> BlobReply)
    ensures var r := ItemsFrom(db, db, dataKey, items, fetch, 0, false).db;
      var cleaned := RateLimitCleanupIntended(r, db, dataKey);
      && (forall k :: k in db ==> k in cleaned)
      && ((forall k :: k in db ==> k.0 != dataKey) ==> forall k :: k in cleaned ==> k.0 != dataKey)
      && (forall k :: k in cleaned && k.0 != dataKey ==> k in db && cleaned[k] == db[k])
  {
    ItemsFrame(db, db, dataKey, items, fetch, 0, false);
  }
}
