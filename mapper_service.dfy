/** `MapperService.processW3C`: selects the W3Champions matches whose replay
    still has to be downloaded and walks them in time order, recording each
    download or HTTP failure, until a 401 aborts the run or a 429 stops it.
    The clock, the file system and the HTTP replies are inputs. */
module MapperService {
  import opened Wrappers

  /** A `W3ChampionsMatch` row: its id, end time (ms) and the process it is
      linked to, by the process's file name. */
  datatype W3cMatch = W3cMatch(id: string, time: int, mapProcessId: Option<string>)

  /** What fetching a replay yields: the file, an HTTP error with its status,
      or an error that carries no status. */
  datatype Reply = Downloaded | HttpStatus(status: nat) | NoStatus

  /** The state the loop changes: replay files present, `MapProcess` rows by
      file name (their `downloadError`), and the process each match links to. */
  datatype Store = Store(files: set<string>, processes: map<string, Option<nat>>, links: map<string, string>)

  /** `loggerState`, with `aborted` for the 401 exception. */
  datatype Run = Run(store: Store, success: nat, error: nat, limitExceeded: bool, aborted: bool)

  const HOUR_MS: int := 60 * 60 * 1000

  function FileName(id: string): string {
    id + ".w3g"
  }

  /** The `findMany` filter: ended at least an hour ago, and either not
      linked, or linked to a process whose `downloadError` is not 500. The
      comparison is SQL's, so a linked process whose `downloadError` is null
      does not match. */
  predicate IsPending(m: W3cMatch, processes: map<string, Option<nat>>, now: int) {
    && m.time <= now - HOUR_MS
    && (|| m.mapProcessId.None?
        || (m.mapProcessId.value in processes
            && processes[m.mapProcessId.value].Some?
            && processes[m.mapProcessId.value].value != 500))
  }

  function FilterPending(ms: seq<W3cMatch>, processes: map<string, Option<nat>>, now: int): seq<W3cMatch> {
    if ms == [] then []
    else
      var last := ms[|ms| - 1];
      FilterPending(ms[..|ms| - 1], processes, now) + (if IsPending(last, processes, now) then [last] else [])
  }

  /** Inserts after the last element whose time is not greater. */
  function InsertByTime(x: W3cMatch, sorted: seq<W3cMatch>): (r: seq<W3cMatch>)
    ensures |r| == |sorted| + 1
  {
    if sorted == [] || sorted[|sorted| - 1].time <= x.time then sorted + [x]
    else InsertByTime(x, sorted[..|sorted| - 1]) + [sorted[|sorted| - 1]]
  }

  /** `orderBy: { time: 'asc' }`. */
  function SortByTime(ms: seq<W3cMatch>): (r: seq<W3cMatch>)
    ensures |r| == |ms|
  {
    if ms == [] then [] else InsertByTime(ms[|ms| - 1], SortByTime(ms[..|ms| - 1]))
  }

  function Pending(ms: seq<W3cMatch>, processes: map<string, Option<nat>>, now: int): seq<W3cMatch> {
    SortByTime(FilterPending(ms, processes, now))
  }

  predicate ByTimeAsc(ms: seq<W3cMatch>) {
    forall i, j :: 0 <= i < j < |ms| ==> ms[i].time <= ms[j].time
  }

  /** Inserting adds exactly the one record. */
  lemma {:induction false} InsertByTimePerm(x: W3cMatch, s: seq<W3cMatch>)
    ensures multiset(InsertByTime(x, s)) == multiset(s) + multiset{x}
  {
    if !(s == [] || s[|s| - 1].time <= x.time) {
      InsertByTimePerm(x, s[..|s| - 1]);
      assert s == s[..|s| - 1] + [s[|s| - 1]];
    }
  }

  /** Inserting into a time-ordered list keeps it ordered. */
  lemma {:induction false} InsertByTimeSorted(x: W3cMatch, s: seq<W3cMatch>)
    requires ByTimeAsc(s)
    ensures ByTimeAsc(InsertByTime(x, s))
  {
    if !(s == [] || s[|s| - 1].time <= x.time) {
      var init := s[..|s| - 1];
      var last := s[|s| - 1];
      InsertByTimeSorted(x, init);
      InsertByTimeBound(x, init, last.time);
      var r := InsertByTime(x, init);
      forall i, j | 0 <= i < j < |r| + 1
        ensures (r + [last])[i].time <= (r + [last])[j].time
      {
        if j == |r| {
          assert (r + [last])[i] == r[i];
        } else {
          assert (r + [last])[i] == r[i] && (r + [last])[j] == r[j];
        }
      }
    }
  }

  /** Inserting keeps every time under a bound that holds for all records. */
  lemma {:induction false} InsertByTimeBound(x: W3cMatch, s: seq<W3cMatch>, bound: int)
    requires x.time <= bound && forall i :: 0 <= i < |s| ==> s[i].time <= bound
    ensures forall i :: 0 <= i < |InsertByTime(x, s)| ==> InsertByTime(x, s)[i].time <= bound
  {
    if !(s == [] || s[|s| - 1].time <= x.time) {
      InsertByTimeBound(x, s[..|s| - 1], bound);
    }
  }

  lemma {:induction false} SortByTimeSpec(ms: seq<W3cMatch>)
    ensures ByTimeAsc(SortByTime(ms))
    ensures multiset(SortByTime(ms)) == multiset(ms)
  {
    if ms != [] {
      SortByTimeSpec(ms[..|ms| - 1]);
      InsertByTimePerm(ms[|ms| - 1], SortByTime(ms[..|ms| - 1]));
      InsertByTimeSorted(ms[|ms| - 1], SortByTime(ms[..|ms| - 1]));
      assert ms == ms[..|ms| - 1] + [ms[|ms| - 1]];
    }
  }

  lemma {:induction false} FilterPendingMembers(ms: seq<W3cMatch>, processes: map<string, Option<nat>>, now: int)
    ensures forall m :: m in FilterPending(ms, processes, now) <==> m in ms && IsPending(m, processes, now)
    ensures multiset(FilterPending(ms, processes, now)) <= multiset(ms)
  {
    if ms != [] {
      FilterPendingMembers(ms[..|ms| - 1], processes, now);
      assert ms == ms[..|ms| - 1] + [ms[|ms| - 1]];
    }
  }

  /** The filter keeps every copy of a pending match and none of the others. */
  lemma {:induction false} FilterPendingCount(ms: seq<W3cMatch>, processes: map<string, Option<nat>>, now: int, m: W3cMatch)
    ensures multiset(FilterPending(ms, processes, now))[m] == if IsPending(m, processes, now) then multiset(ms)[m] else 0
  {
    if ms != [] {
      var init, last := ms[..|ms| - 1], ms[|ms| - 1];
      FilterPendingCount(init, processes, now, m);
      assert ms == init + [last];
      assert multiset(ms) == multiset(init) + multiset{last};
      var tail := if IsPending(last, processes, now) then [last] else [];
      assert multiset(FilterPending(ms, processes, now)) == multiset(FilterPending(init, processes, now)) + multiset(tail);
    }
  }

  /** The pending list is ordered by time and holds exactly the matches that
      pass the filter, each as often as in the table. */
  lemma PendingSpec(ms: seq<W3cMatch>, processes: map<string, Option<nat>>, now: int)
    ensures ByTimeAsc(Pending(ms, processes, now))
    ensures forall m :: m in Pending(ms, processes, now) <==> m in ms && IsPending(m, processes, now)
    ensures multiset(Pending(ms, processes, now)) <= multiset(ms)
    ensures forall m :: multiset(Pending(ms, processes, now))[m] == if IsPending(m, processes, now) then multiset(ms)[m] else 0
  {
    var f := FilterPending(ms, processes, now);
    SortByTimeSpec(f);
    FilterPendingMembers(ms, processes, now);
    forall m
      ensures multiset(Pending(ms, processes, now))[m] == if IsPending(m, processes, now) then multiset(ms)[m] else 0
    {
      FilterPendingCount(ms, processes, now, m);
    }
    forall m
      ensures m in Pending(ms, processes, now) <==> m in f
    {
      assert m in Pending(ms, processes, now) <==> m in multiset(Pending(ms, processes, now));
      assert m in f <==> m in multiset(f);
    }
  }

  /** `mapProcess.upsert({ where: { filePath } })` setting `downloadError`. */
  function Upsert(st: Store, fileName: string, downloadError: Option<nat>, matchId: string): Store {
    st.(processes := st.processes[fileName := downloadError], links := st.links[matchId := fileName])
  }

  predicate Stopped(r: Run) {
    r.limitExceeded || r.aborted
  }

  /** One iteration of the loop; nothing happens once the run has stopped.
      An existing file is not requested again. */
  function Step(r: Run, m: W3cMatch, response: string -> Reply): Run {
    if Stopped(r) then r
    else
      var fileName := FileName(m.id);
      var reply := if fileName in r.store.files then Downloaded else response(m.id);
      match reply
      case Downloaded =>
        var st := r.store.(files := r.store.files + {fileName});
        r.(store := Upsert(st, fileName, None, m.id), success := r.success + 1)
      case HttpStatus(status) =>
        if status == 401 then r.(aborted := true)
        else if status == 429 then r.(limitExceeded := true)
        else if status != 0 then r.(store := Upsert(r.store, fileName, Some(status), m.id), error := r.error + 1)
        else r
      case NoStatus => r
  }

  /** The loop over a prefix of the pending list. */
  function Download(r: Run, pending: seq<W3cMatch>, response: string -> Reply): Run {
    if pending == [] then r
    else Step(Download(r, pending[..|pending| - 1], response), pending[|pending| - 1], response)
  }

  /** What the run does: `None` when the service is not available. */
  function ProcessW3C(available: bool, ms: seq<W3cMatch>, now: int, st: Store, response: string -> Reply): Option<Run> {
    if !available then None
    else Some(Download(Run(st, 0, 0, false, false), Pending(ms, st.processes, now), response))
  }

  /** The number reported as skipped after a 429. */
  function Skipped(pending: seq<W3cMatch>, r: Run): int {
    |pending| - r.success - r.error
  }

  /** The counters only count matches the loop reached before it stopped:
      successes and recorded errors together, plus the match that stopped it,
      never exceed the pending list. A stopped run never resumes. */
  lemma {:induction false} DownloadCounts(r: Run, pending: seq<W3cMatch>, response: string -> Reply)
    requires !Stopped(r)
    ensures var d := Download(r, pending, response);
      d.success + d.error + (if Stopped(d) then 1 else 0) <= r.success + r.error + |pending|
    ensures var d := Download(r, pending, response);
      r.success <= d.success && r.error <= d.error
  {
    if pending != [] {
      DownloadCounts(r, pending[..|pending| - 1], response);
    }
  }

  /** A 429 leaves at least one match (the one that hit the limit) among the
      reported skipped ones. */
  lemma RateLimitSkipsSome(available: bool, ms: seq<W3cMatch>, now: int, st: Store, response: string -> Reply)
    requires ProcessW3C(available, ms, now, st, response).Some?
    requires ProcessW3C(available, ms, now, st, response).value.limitExceeded
    ensures Skipped(Pending(ms, st.processes, now), ProcessW3C(available, ms, now, st, response).value) >= 1
  {
    DownloadCounts(Run(st, 0, 0, false, false), Pending(ms, st.processes, now), response);
  }

  /** Once stopped, later matches change nothing. */
  lemma {:induction false} StoppedStays(r: Run, pending: seq<W3cMatch>, response: string -> Reply)
    requires Stopped(r)
    ensures Download(r, pending, response) == r
  {
    if pending != [] {
      StoppedStays(r, pending[..|pending| - 1], response);
    }
  }

  /** A 401 and a 429 are never both reached: the first of them ends the
      loop. */
  lemma {:induction false} StopIsExclusive(r: Run, pending: seq<W3cMatch>, response: string -> Reply)
    requires !Stopped(r)
    ensures !(Download(r, pending, response).aborted && Download(r, pending, response).limitExceeded)
  {
    if pending != [] {
      StopIsExclusive(r, pending[..|pending| - 1], response);
    }
  }

  /** When every replay file already exists, no request is issued: the
      outcome does not depend on the HTTP replies. */
  lemma {:induction false} ExistingFilesNeedNoRequest(r: Run, pending: seq<W3cMatch>, response1: string -> Reply, response2: string -> Reply)
    requires forall m :: m in pending ==> FileName(m.id) in r.store.files
    ensures Download(r, pending, response1) == Download(r, pending, response2)
    ensures r.store.files <= Download(r, pending, response1).store.files
  {
    if pending != [] {
      var init := pending[..|pending| - 1];
      assert forall m :: m in init ==> m in pending;
      ExistingFilesNeedNoRequest(r, init, response1, response2);
      assert pending[|pending| - 1] in pending;
    }
  }

  /** A downloaded replay leaves its process with no download error, linked
      to the match; an HTTP failure records its status; nothing else touches
      the process table. */
  lemma StepRecords(r: Run, m: W3cMatch, response: string -> Reply)
    requires !Stopped(r)
    ensures var s := Step(r, m, response);
      && (s.success == r.success + 1 ==>
            s.store.processes[FileName(m.id)] == None && s.store.links[m.id] == FileName(m.id)
            && FileName(m.id) in s.store.files)
      && (s.error == r.error + 1 ==>
            var reply := response(m.id);
            && FileName(m.id) !in r.store.files
            && reply.HttpStatus? && reply.status !in {0, 401, 429}
            && s.store.processes[FileName(m.id)] == Some(reply.status)
            && s.store.links[m.id] == FileName(m.id))
      && (forall f :: f in r.store.processes && f != FileName(m.id) ==>
            f in s.store.processes && s.store.processes[f] == r.store.processes[f])
      && (s.success == r.success && s.error == r.error ==> s.store == r.store)
  {
  }

  /** The loop as written: a `for` over the pending list with early exits. */
  method ProcessW3CLoop(available: bool, ms: seq<W3cMatch>, now: int, st: Store, response: string -> Reply)
    returns (result: Option<Run>)
    ensures result == ProcessW3C(available, ms, now, st, response)
  {
    if !available {
      return None;
    }
    var pending := Pending(ms, st.processes, now);
    var loggerState := Run(st, 0, 0, false, false);
    ghost var start := loggerState;
    for i := 0 to |pending|
      invariant loggerState == Download(start, pending[..i], response)
      invariant !Stopped(loggerState)
    {
      assert pending[..i + 1][..i] == pending[..i];
      var m := pending[i];
      var fileName := FileName(m.id);
      var reply := Downloaded;
      if fileName !in loggerState.store.files {
        reply := response(m.id);
      }
      if reply.Downloaded? {
        var s := loggerState.store.(files := loggerState.store.files + {fileName});
        loggerState := loggerState.(store := Upsert(s, fileName, None, m.id), success := loggerState.success + 1);
      } else if reply.HttpStatus? {
        if reply.status == 401 {
          loggerState := loggerState.(aborted := true);
          StoppedStays(loggerState, pending[i + 1..], response);
          DownloadSplit(start, pending, i + 1, response);
          return Some(loggerState);
        }
        if reply.status == 429 {
          loggerState := loggerState.(limitExceeded := true);
          StoppedStays(loggerState, pending[i + 1..], response);
          DownloadSplit(start, pending, i + 1, response);
          return Some(loggerState);
        }
        if reply.status != 0 {
          loggerState := loggerState.(store := Upsert(loggerState.store, fileName, Some(reply.status), m.id), error := loggerState.error + 1);
        }
      }
    }
    assert pending[..|pending|] == pending;
    return Some(loggerState);
  }

  /** Running the loop over a list is running it over a prefix, then over
      the rest. */
  lemma {:induction false} DownloadSplit(r: Run, pending: seq<W3cMatch>, k: nat, response: string -> Reply)
    requires k <= |pending|
    ensures Download(r, pending, response) == Download(Download(r, pending[..k], response), pending[k..], response)
    decreases |pending|
  {
    if k < |pending| {
      var init := pending[..|pending| - 1];
      DownloadSplit(r, init, k, response);
      assert init[..k] == pending[..k];
      assert init[k..] == pending[k..|pending| - 1];
      assert pending[k..][..|pending[k..]| - 1] == init[k..];
    } else {
      assert pending[..k] == pending;
    }
  }
}
