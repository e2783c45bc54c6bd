# sc-statistic-backend, modelled in Dafny

This project models the core of sc-statistic-backend, the statistics back end for the Survival Chaos custom map of Warcraft III.

The back end works in stages:
- It pages through the W3Champions match listing and stores new matches.
- It downloads each match's replay file under a request quota.
- It runs the replay interpreter over the decoded action stream. The interpreter turns low-level actions into typed per-player events: race picks and repicks, bonus picks, building tiers, upgrades, ultimate casts and cancellations. It then ranks the surviving players.
- It classifies every parse outcome and stores the result.
- It serves aggregated statistics from the stored rows.

Around this pipeline sit several smaller pieces:
- the versioned game data fetched from the wiki repository;
- an in-memory cache with tag invalidation;
- a buffered logger;
- the migration runner;
- the analytics aggregation and its Prisma filters;
- the request DTOs;
- the admin Basic-auth guard.

The interpreter is modelled twice.
- Module `Interpreter`, with `InterpreterEvents`, `InterpreterResult` and `InterpreterSteps`, gives it as functions over a parser state. The properties are proved about those functions.
- Class `ReplayParserClass.ReplayParser` keeps the source's mutable fields: `duration`, `playersMap` with its insertion order, and the shared `lastEventTime` clock. Each of its methods is proved to perform exactly the step the functions describe.

The services are modelled in the same way: on values where the source computes, and with loops and classes where it updates state. Database reads, HTTP responses, file checks, clocks and decoded replays are inputs to the model.

Files:

| File | Contents |
|---|---|
| `wrappers.dfy` | `Option`/`Result` |
| `js.dfy` | JavaScript string, array and `Map` semantics used by the source |
| `parser_const.dfy` | `SAME_EVENT_LAG` and the leaver threshold |
| `guards.dfy` | Block and value guards |
| `w3g.dfy` | The decoded replay blocks and actions |
| `game_data.dfy` | The wiki game-data shapes |
| `lookup.dfy` | `toGameId` and `buildLookup` |
| `interpreter*.dfy` | The interpreter and its properties |
| `replay_parser.dfy` | The class |
| `parser_service.dfy` | The parse batch loop and outcome classification |
| `mapper_service.dfy` | The replay download loop |
| `fetcher_service.dfy` | Match paging and chunked inserts |
| `wiki_data.dfy` | Tree grouping, content handling and the data reduce |
| `wiki_update.dfy` | `updateData` |
| `tag_cache.dfy` | `TaggedMemoryCache` |
| `buffer_logger.dfy` | `BufferedLogger` |
| `migration.dfy` | The migration service |
| `analytics.dfy` | The aggregation in the analytics repository |
| `prisma_filter.dfy` | The Prisma filter builders |
| `dto.dfy` | Boolean coercion and DTO bounds |
| `auth_guard.dfy` | The Basic-credential check |

## Model

| member | source | states |
|---|---|---|
| ParserConst.SameEventLag | src/pipeline/lib/const.ts:4-11 | The two fort tiers have an infinite lag; base upgrades wait 18 s and tower upgrades 75 s. Every other event type has the 1.5 s default, and no finite lag is shorter than that default. |
| Guards.IsNotNil | src/pipeline/lib/guards.ts:8-12 | A value passes exactly when it is not `undefined`, not `null`, not the empty string and not `0n`. Numbers, including 0 and NaN, and `false` all pass. |
| AuthGuard.CanActivate | src/admin/auth.guard.ts:14-33 | A missing or non-`Basic ` header is refused. Every refusal sets the `Basic realm="Admin Area"` challenge. This is the corrected guard, which splits the credentials at the first colon. |
| AuthGuard.CanActivateSpec | src/admin/auth.guard.ts:25-30 | For a Basic header whose token decodes to `user:pass` (with no colon in `user`), the corrected guard admits exactly when ADMIN_LOGIN is `user` and ADMIN_PASSWORD is `pass`. An unset login or password admits nobody. |
| AuthGuard.NoColonRejected | src/admin/auth.guard.ts:26-32 | The corrected guard refuses decoded credentials that hold no colon, whatever the configuration. |
| AuthGuard.UserPass | src/admin/auth.guard.ts:26 | The credentials split at the first colon. There is a result exactly when a colon is present; the user id holds no colon, and `user + ":" + pass` rebuilds the text. |
| AuthGuard.UserPassRoundTrip | src/admin/auth.guard.ts:26 | Any colon-free user id and any password, joined by a colon, are read back unchanged. |
| AuthGuard.TokenOf | src/admin/auth.guard.ts:25 | `split(' ')[1]` of `Basic <token>` is the token when the token holds no space. |
| AuthGuard.ColonPasswordRejected | src/admin/auth.guard.ts:26-32 | As written, a configured password holding a colon never matches: the correct credentials are refused. |
| AuthGuard.MissingPasswordAdmits | src/admin/auth.guard.ts:26-29 | As written, with ADMIN_PASSWORD unset, decoded credentials equal to the login with no colon are admitted. |
| AuthGuard.AsWrittenAgrees | src/admin/auth.guard.ts:26-32 | When neither the user id nor the password holds a colon and a password is configured, the guard as written decides the same as the corrected one. |
| AuthGuard.SplitAtFirst | src/admin/auth.guard.ts:26 | `split(':')` of text with no colon is the text alone. Otherwise it is the user id before the first colon followed by the pieces of the rest. |
| AuthGuard.UserPassAsWritten | src/admin/auth.guard.ts:26 | As written, without a colon the user id is the whole text and there is no password. With a colon the user id is the text before the first colon and the password is only the text up to the second colon. |
| AuthGuard.CanActivateAsWritten | src/admin/auth.guard.ts:14-33 | The guard as written refuses a missing or non-`Basic ` header, and every refusal sets the challenge. With a colon it admits exactly when the user id is ADMIN_LOGIN and the piece up to the next colon is ADMIN_PASSWORD. Without a colon it admits exactly when the whole text is ADMIN_LOGIN and ADMIN_PASSWORD is unset. |
| PrismaFilter.MapFilter | src/analytic/lib/prisma.ts:4-9 | The version key is the map type, `_`, then the version, so both parts can be read back. Ignored versions are excluded. |
| PrismaFilter.NumBound | src/analytic/lib/prisma.ts:55-65 | A numeric bound is kept exactly when it is truthy. An absent bound and a bound of 0 set no condition. |
| PrismaFilter.RangeClause | src/analytic/lib/prisma.ts:49-66 | A range clause exists exactly when one of its bounds is given, and it holds exactly those bounds. |
| PrismaFilter.MatchFilter | src/analytic/lib/prisma.ts:11-69 | Each clause is set exactly when its request field is truthy. Leavers are excluded unless `withLeavers` is truthy. The season clause is added only for W3Champions. The date range is set whenever a date is given. |
| PrismaFilter.MatchFilterMeaning | src/analytic/lib/prisma.ts:11-69 | A stored match passes the built filter exactly when it is what the request asks for, stated field by field on the request (`Wanted`). |
| PrismaFilter.LeaversClause | src/analytic/lib/prisma.ts:28-30 | Otherwise-wanted matches with leavers are kept exactly when `withLeavers` is truthy. |
| PrismaFilter.PlayerFilterMeaning | src/analytic/lib/prisma.ts:71-79 | A player passes exactly when its race matches and, if an id is given, its id matches. Unlike `matchFilter`, an id of 0 is a real condition. |
| Dto.ToBoolean | src/analytic/lib/dto.ts:23-37 | Booleans pass unchanged. Text whose trimmed, lower-cased form is `true` or `1` becomes `true`, and `false` or `0` becomes `false`. Every other value passes unchanged. |
| Dto.ToBooleanSpec | src/analytic/lib/dto.ts:23-37 | The transform is idempotent. A boolean comes out exactly when a boolean or a recognised text went in. |
| Dto.Flag | src/analytic/lib/dto.ts:77-85 | An absent flag keeps its class default `false`. An accepted flag is a boolean, `undefined` or `null`, and a given boolean is kept. |
| Dto.FlagText | src/analytic/lib/dto.ts:23-37 | A flag given as text is `true` exactly for `true`/`1` and `false` exactly for `false`/`0` (trimmed, any case). Any other text is rejected. |
| Dto.RecognizedPlain | src/analytic/lib/dto.ts:28 | Text with no white space at either end and no capital letter is unchanged by `trim().toLowerCase()`. |
| Dto.FlagFalseText | src/analytic/lib/dto.ts:30 | Read as text, `false` gives the flag `false`. |
| Dto.FlagZeroText | src/analytic/lib/dto.ts:32 | Read as text, `0` gives the flag `false`. |
| Dto.FlagYesText | src/analytic/lib/dto.ts:35 | Read as text, `yes` is not a boolean and the request is rejected. |
| Dto.ReadFilter | src/analytic/lib/dto.ts:122-138 | A player filter is accepted exactly when each given field is valid. Race and bonus codes then have 4 characters, the place is 1 to 4, and a field is set exactly when it was given. |
| Dto.ReadSearch | src/analytic/lib/dto.ts:140-160 | A search is accepted exactly when its inherited analytics fields are valid, as `ReadAnalytic` requires, and it has 1 to 4 valid filters and a valid page, per-page value and events flag. Each filter is then read as `ReadFilter` reads it. The page is positive and the per-page value is 1 to 25, defaulting to 10; `events` defaults to `false`. The inherited fields are read exactly as `ReadAnalytic` reads them. |
| Dto.ReadLookup | src/analytic/lib/dto.ts:162-168 | A platform lookup is accepted exactly when the platform is `internal` or a known platform and the id is not empty. The id is kept, and `internal` and `W3Champions` are told apart from the others. |
| Dto.ReadAnalytic | src/analytic/lib/dto.ts:104-110 | An analytics query is accepted exactly when its map type and version are non-empty text and every optional field is valid. The flags are read by `Flag`, an absent `withLeavers` is falsy, and W3Champions is chosen exactly when it was asked for. |
| Dto.DefaultExcludesLeavers | src/analytic/lib/dto.ts:77-80 | With `withLeavers` left out of a valid request, no match with leavers passes the built filter. |
| Dto.TrueKeepsLeavers | src/analytic/lib/dto.ts:77-80 | With `withLeavers` given as the text `true`, the built filter has no leaver clause. |
| BufferLogger.ContextOr | src/common/bufferLogger.service.ts:52-84 | Only a missing context becomes `UnknownContext`. A given context, even an empty one, is kept. |
| BufferLogger.ErrorMessage | src/common/bufferLogger.service.ts:62-69 | An error entry's text starts with the message and a space. The trace follows when given; otherwise nothing follows. |
| BufferLogger.Pushed | src/common/bufferLogger.service.ts:40-50 | A push keeps the buffer within its maximum and ends it with the new entry. Below the maximum nothing is dropped; at the maximum exactly the oldest entry is dropped. |
| BufferLogger.PushedKeepsOrder | src/common/bufferLogger.service.ts:46-49 | The new buffer is a suffix of the old buffer followed by the entry, and no shorter than the old buffer: the order is kept. |
| BufferLogger.BufferedLogger.constructor | src/common/bufferLogger.service.ts:14-21 | All six level buffers start empty, and the logger's invariant holds. |
| BufferLogger.BufferedLogger.AddToBuffer | src/common/bufferLogger.service.ts:40-50 | Only the given level's buffer changes, and it becomes `Pushed` with that level's maximum. Every buffer stays within its maximum and holds only entries of its own level. |
| BufferLogger.BufferedLogger.FatalLog | src/common/bufferLogger.service.ts:52-55 | The fatal buffer takes the message under the given context or `UnknownContext`, with at most 300 kept. |
| BufferLogger.BufferedLogger.LogLog | src/common/bufferLogger.service.ts:57-60 | The log buffer takes the entry, with at most 500 kept. |
| BufferLogger.BufferedLogger.ErrorLog | src/common/bufferLogger.service.ts:62-69 | The error buffer takes the message followed by the trace, with at most 300 kept. |
| BufferLogger.BufferedLogger.WarnLog | src/common/bufferLogger.service.ts:71-74 | The warn buffer takes the entry, with at most 300 kept. |
| BufferLogger.BufferedLogger.DebugLog | src/common/bufferLogger.service.ts:76-79 | The debug buffer takes the entry, with at most 100 kept. |
| BufferLogger.BufferedLogger.VerboseLog | src/common/bufferLogger.service.ts:81-84 | The verbose buffer takes the entry, with at most 100 kept. |
| BufferLogger.BufferedLogger.GetLogs | src/common/bufferLogger.service.ts:86-93 | The entries of all levels are returned, each as often as it is buffered, and there are at most 1600 of them. |
| Migration.LteTotal | src/migration/migration.service.ts:24 | Any two names are ordered one way or the other by the comparison that stands in for `localeCompare`. |
| Migration.Insert | src/migration/migration.service.ts:24 | Inserting a name adds one element and ends the list with either the name or the list's old last element. |
| Migration.InsertSpec | src/migration/migration.service.ts:24 | Inserting into a sorted list keeps it sorted and adds exactly the one name. |
| Migration.SortSpec | src/migration/migration.service.ts:23-24 | The listing sort orders the names and is a permutation of them. |
| Migration.Dedupe | src/migration/migration.service.ts:26 | `Array.from(new Set(...))` holds each name once and exactly the names of its input. |
| Migration.DedupeOrder | src/migration/migration.service.ts:26 | The names come out in the order of their first occurrences. |
| Migration.FirstIndex | src/migration/migration.service.ts:26 | The first occurrence of a name: the name is there and not before it. |
| Migration.MigrationFiles | src/migration/migration.service.ts:22-27 | The migration file names are distinct. They are exactly the listed file names cut at their first dot. |
| Migration.StripAll | src/migration/migration.service.ts:25 | Each listed name is cut at its first dot, position by position. |
| Migration.Get | src/migration/migration.service.ts:56-71 | The record found for a name is stored under that name. No record is found only when none has that name. |
| Migration.Cleared | src/migration/migration.service.ts:29-33 | The cleanup keeps exactly the records whose name is one of the current files. |
| Migration.FirstError | src/migration/migration.service.ts:82 | A failed record is reported exactly when one is stored, and it is a stored name. |
| Migration.Waiting | src/migration/migration.service.ts:36-38 | The waiting migrations are exactly the files with no stored record, and they stay distinct. |
| Migration.Upsert | src/migration/migration.service.ts:56-71 | The upsert marks the record of its name, creating it if missing, and leaves every other name's record unchanged. |
| Migration.ExecFromSpec | src/migration/migration.service.ts:44-75 | A full run means no waiting migration threw. An aborted run names the first migration that threw, records its failure and touches nothing after it. Only waiting migrations with an `exec` change records, and those that completed carry the finishing time. |
| Migration.InitSpec | src/migration/migration.service.ts:78-89 | Startup exits, having run nothing, exactly when a record kept by the cleanup has failed. Records of removed files are gone. Only waiting migrations with an `exec` change records. |
| Migration.MigrationService.constructor | src/migration/migration.service.ts:13-14 | The service starts with no records and no files. |
| Migration.MigrationService.GetMigrationFiles | src/migration/migration.service.ts:22-27 | The file list becomes `MigrationFiles` of the directory listing. |
| Migration.MigrationService.ClearMigrations | src/migration/migration.service.ts:29-33 | The table after the delete is `Cleared`. |
| Migration.MigrationService.ExecMigrations | src/migration/migration.service.ts:35-76 | The loop's table and status are those of `ExecFrom` over the waiting migrations. |
| Migration.MigrationService.OnModuleInit | src/migration/migration.service.ts:78-89 | Startup's table and result are those of `Init`. |
| TagCache.StripHolds | src/common/tagCacheManager.service.ts:41-45 | Removing a key from several tag sets removes exactly those memberships, and no empty set is left behind. |
| TagCache.LinkHolds | src/common/tagCacheManager.service.ts:52-55 | Adding a key to several tag sets adds exactly those memberships, creating missing sets. |
| TagCache.StripStep | src/common/tagCacheManager.service.ts:76-80 | Removing the key from one more tag set, as the loop body does, extends the removal by that tag. |
| TagCache.LinkStep | src/common/tagCacheManager.service.ts:52-55 | Adding the key to one more tag set, as the loop body does, extends the addition by that tag. |
| TagCache.Texts | src/common/tagCacheManager.service.ts:115-117 | The key texts are no more than the parts, and every primitive part contributes its text. |
| TagCache.EmptyValid | src/common/tagCacheManager.service.ts:12-14 | The empty cache satisfies the index invariant: the two tag indices agree and hold no empty set. |
| TagCache.UnlinkedSpec | src/common/tagCacheManager.service.ts:39-46 | Removing a key from the tag sets it is recorded under removes it from every tag set and from nothing else. |
| TagCache.SetKeySpec | src/common/tagCacheManager.service.ts:38-59 | After `set`, the key holds the value with the current time and is listed under exactly the given tags. Other keys keep their entries and tags, and the index stays valid. |
| TagCache.LookupSpec | src/common/tagCacheManager.service.ts:31-36 | `get` finds exactly the stored keys and returns the stored value. It refreshes that entry's timestamp and changes nothing else. |
| TagCache.GetAfterSet | src/common/tagCacheManager.service.ts:38-66 | A `get` right after a `set` returns the value that was set. |
| TagCache.DeletedSpec | src/common/tagCacheManager.service.ts:72-83 | `deleteKey` removes the key from the store, from every tag set and from the tag records. Everything else is untouched, and the index stays valid. |
| TagCache.DeleteKeysStep | src/common/tagCacheManager.service.ts:21-29 | Deleting keys one at a time is deleting the whole set at once. |
| TagCache.DeleteKeysSpec | src/common/tagCacheManager.service.ts:21-29 | Deleting any set of keys keeps the index valid. Exactly those keys leave the store and the index; the other entries are kept unchanged. |
| TagCache.CleanupSpec | src/common/tagCacheManager.service.ts:21-29 | `cleanupExpired` removes exactly the entries older than one hour from the store and the index, and keeps the index valid. |
| TagCache.ResetTagSpec | src/common/tagCacheManager.service.ts:93-104 | Resetting one tag removes its keys from the store and the tag from both indices. Other tags keep their key sets, and the index stays valid. |
| TagCache.ResetLeavesStaleListing | src/common/tagCacheManager.service.ts:97-103 | A key removed by one tag stays listed under its other tags, so the tag index can name keys that are no longer stored. |
| TagCache.ResetTagsSpec | src/common/tagCacheManager.service.ts:85-105 | `reset(tags)` keeps the index valid, never adds a tag, and removes the first tag when it had a key set. |
| TagCache.ResetTagsStops | src/common/tagCacheManager.service.ts:94-95 | `reset(tags)` returns at the first tag without a key set; the tags after it are not processed. |
| TagCache.WrappedSpec | src/common/tagCacheManager.service.ts:107-131 | A bypassed key leaves the cache alone and calls `fn`. A truthy cached value is returned without calling `fn`. Otherwise `fn`'s value is returned and stored under the key. |
| TagCache.WrapKeyBypass | src/common/tagCacheManager.service.ts:108-119 | A non-empty object among the parts bypasses the cache, as do parts that are all objects. A key in use is never empty. |
| TagCache.TaggedMemoryCache.constructor | src/common/tagCacheManager.service.ts:12-19 | The cache starts with its three maps empty. |
| TagCache.TaggedMemoryCache.Unlink | src/common/tagCacheManager.service.ts:41-45 | The loop removes the key from the named tag sets, dropping emptied sets, and changes nothing else. |
| TagCache.TaggedMemoryCache.Set | src/common/tagCacheManager.service.ts:38-59 | The new state is `SetKey` of the old state. |
| TagCache.TaggedMemoryCache.LinkTags | src/common/tagCacheManager.service.ts:50-55 | The loop adds the key to the set of every given tag, creating missing sets. |
| TagCache.TaggedMemoryCache.Get | src/common/tagCacheManager.service.ts:61-66 | The result and new state are `Lookup` of the old state. |
| TagCache.TaggedMemoryCache.DeleteKey | src/common/tagCacheManager.service.ts:72-83 | The new state is `Deleted` of the old state. |
| TagCache.TaggedMemoryCache.Del | src/common/tagCacheManager.service.ts:68-70 | The new state is `Deleted` of the old state. |
| TagCache.TaggedMemoryCache.Reset | src/common/tagCacheManager.service.ts:85-105 | With no tags everything is cleared. With tags, the new state is `ResetTags` of the old state. |
| TagCache.TaggedMemoryCache.ResetOne | src/common/tagCacheManager.service.ts:97-103 | The inner loop deletes the tag's keys and strips the tag from their records, then drops the tag: `ResetTag` of the old state. |
| TagCache.TaggedMemoryCache.Wrap | src/common/tagCacheManager.service.ts:107-131 | The value, whether `fn` was called, and the new state are those of `Wrapped`. |
| TagCache.TaggedMemoryCache.CleanupExpired | src/common/tagCacheManager.service.ts:21-29 | The loop deletes the expired keys one by one, and the new state is `Cleanup` of the old state. |
| FetcherService.GameMode | src/pipeline/fetcher.service.ts:55-57 | The OG family is requested with game mode 1001 and OZ with 1002. |
| FetcherService.LoadFromSpec | src/pipeline/fetcher.service.ts:59-105 | A load that ends by its own rule returns the first `k >= 1` pages in order, all successful. The pages before the last held no stored match. The last page holds a stored match, or the next offset passes its count. An error discards everything. |
| FetcherService.LoadSpec | src/pipeline/fetcher.service.ts:54-106 | The same, from offset 0 with the family's game mode. A failing first page gives an empty result. |
| FetcherService.LoadW3cMatches | src/pipeline/fetcher.service.ts:54-106 | The loop's output and end state are those of `Load`. |
| FetcherService.PlayerRows | src/pipeline/fetcher.service.ts:42-46 | One stored player per API player, position by position: name, mmr, and the quantile times 100 rounded down. |
| FetcherService.RowPlayers | src/pipeline/fetcher.service.ts:41-47 | A row holds every player of every team, and only players of its teams. |
| FetcherService.Rows | src/pipeline/fetcher.service.ts:37-48 | One row per match, position by position. |
| FetcherService.ChunkSpec | src/pipeline/fetcher.service.ts:35 | `chunk(xs, n)` gives non-empty chunks of at most `n` items, all but the last exactly `n`, which together are the input in order. |
| FetcherService.InsertAllKeeps | src/pipeline/fetcher.service.ts:36-50 | After `createMany` with `skipDuplicates`, the ids are the stored ones plus those of the rows, and stored rows are kept unchanged. |
| FetcherService.InsertAllFirst | src/pipeline/fetcher.service.ts:49 | An id that was not stored gets the first row that carries it. |
| FetcherService.InsertAllConcat | src/pipeline/fetcher.service.ts:35-51 | Inserting `a + b` is inserting `a`, then `b`. |
| FetcherService.InsertChunks | src/pipeline/fetcher.service.ts:35-51 | Inserting chunk after chunk is inserting all the rows at once. |
| FetcherService.CreateW3CMatches | src/pipeline/fetcher.service.ts:34-52 | The loop over chunks of 50 leaves the table as one `createMany` of all the rows would. |
| FetcherService.ChunksInsertAll | src/pipeline/fetcher.service.ts:35-51 | Inserting the rows of each 50-chunk is inserting the rows of all matches. |
| FetcherService.RowsFlatten | src/pipeline/fetcher.service.ts:35-48 | The rows of the chunks, joined, are the rows of the joined matches. |
| FetcherService.FetchKeepsAndAdds | src/pipeline/fetcher.service.ts:25-32 | Fetching only adds rows: every stored row is kept unchanged, and every OG and OZ match loaded is stored afterwards. |
| MapperService.InsertByTime | src/pipeline/mapper.service.ts:57-59 | Inserting a match adds exactly one element. |
| MapperService.SortByTime | src/pipeline/mapper.service.ts:57-59 | The sort keeps the length. |
| MapperService.InsertByTimePerm | src/pipeline/mapper.service.ts:57-59 | Inserting adds exactly the one match. |
| MapperService.InsertByTimeSorted | src/pipeline/mapper.service.ts:57-59 | Inserting into a list in time order keeps it in time order. |
| MapperService.InsertByTimeBound | src/pipeline/mapper.service.ts:57-59 | Inserting keeps every time under a bound that holds for all matches. |
| MapperService.SortByTimeSpec | src/pipeline/mapper.service.ts:57-59 | `orderBy: { time: 'asc' }` puts the matches in time order and is a permutation of them. |
| MapperService.FilterPendingMembers | src/pipeline/mapper.service.ts:42-56 | The filter keeps exactly the matches that ended at least an hour ago and are unlinked or linked to a process whose download error is set and is not 500, and it adds no copies. |
| MapperService.FilterPendingCount | src/pipeline/mapper.service.ts:42-56 | The filter keeps every copy of a pending match and no copy of any other match. |
| MapperService.PendingSpec | src/pipeline/mapper.service.ts:42-63 | The pending list is in time order. Each match passing the filter appears in it exactly as often as in the table, and no other match appears. |
| MapperService.DownloadCounts | src/pipeline/mapper.service.ts:66-143 | Successes and recorded errors, plus the match that stopped the run, never exceed the pending list, and the counters never decrease. |
| MapperService.RateLimitSkipsSome | src/pipeline/mapper.service.ts:153-158 | After a 429 the reported number of skipped replays is at least 1. |
| MapperService.StoppedStays | src/pipeline/mapper.service.ts:100-112 | Once a 401 or a 429 has stopped the run, later matches change nothing. |
| MapperService.StopIsExclusive | src/pipeline/mapper.service.ts:100-112 | A run never records both a 401 and a 429: the first of them ends the loop. |
| MapperService.ExistingFilesNeedNoRequest | src/pipeline/mapper.service.ts:70-75 | When every replay file already exists, the outcome does not depend on the HTTP replies, and no file is lost. |
| MapperService.StepRecords | src/pipeline/mapper.service.ts:67-141 | A downloaded replay leaves its process with no download error, linked to the match. A recorded failure had to request the file, got a status other than 0, 401 and 429, stores that status and links the match. No other process changes, and a match that counts nothing changes nothing. |
| MapperService.ProcessW3CLoop | src/pipeline/mapper.service.ts:28-163 | The `for` loop with its early exits gives `ProcessW3C`: nothing when the service is unavailable, else the run over the pending list. |
| MapperService.DownloadSplit | src/pipeline/mapper.service.ts:66 | Running the loop over a list is running it over a prefix and then over the rest. |
| WikiData.Entries | src/common/wikiData.service.ts:46-65 | An entry comes from some tree file whose path is a data path and whose type and key are not skipped, and every such file gives an entry. |
| WikiData.GroupLast | src/common/wikiData.service.ts:66-74 | When a `dataKey` and key occur more than once, the group keeps the blob of the last file. |
| WikiData.GroupFrom | src/common/wikiData.service.ts:66-74 | Every grouped blob comes from an entry with that `dataKey` and key. |
| WikiData.FetchTree | src/common/wikiData.service.ts:35-44 | A truncated listing is an error, and only a truncated one. |
| WikiData.FetchTreeSpec | src/common/wikiData.service.ts:35-75 | Every grouped file is a `data/...json` file of the tree whose type and key are not `artifacts`, `misc` or `changelogs`, and its `dataKey` is `<type>_<version>`. |
| WikiData.StripJson | src/common/wikiData.service.ts:51 | Removing the last extension from `<stem>.json` gives back the stem. |
| WikiData.JoinPath | src/common/wikiData.service.ts:51 | Joining the four path parts with `/` gives `data/<type>/<version>/<key>`. |
| WikiData.EntryOfPath | src/common/wikiData.service.ts:47-63 | A path `data/<type>/<version>/<key>.json` with no `/` in its parts is read back into exactly that type, version and key, with the blob's sha and url. |
| WikiData.DataPath | src/common/wikiData.service.ts:48 | A stem that starts with `data`, followed by `.json`, passes the path filter. |
| WikiData.Ids | src/common/wikiData.service.ts:260-262 | `map(pickId)` keeps the length and takes the id of each item, in place. |
| WikiData.Bonuses | src/common/wikiData.service.ts:227 | The bonus ids keep the order and length of the bonuses. |
| WikiData.HandleContent | src/common/wikiData.service.ts:199-257 | `races` gives race ids, `ultimates` gives ultimate groups and any other key gives a race mapping. A file whose shape does not match its key is refused, and only such a file (the source is more lenient under `races`, see Left out). |
| WikiData.RacesContent | src/common/wikiData.service.ts:201-204 | An id is in the races content exactly when some race of some group has that id. |
| WikiData.UltimatesContent | src/common/wikiData.service.ts:206-212 | Each spell key maps to the ids of its variants. A key listed twice keeps its last list. |
| WikiData.UltimateEntries | src/common/wikiData.service.ts:207-211 | Entry `i` of the ultimates is spell `i`'s key with its variant ids. |
| WikiData.RaceForts | src/common/wikiData.service.ts:241 | `slice(-3)` keeps the last three fort ids, or all of them when there are fewer. |
| WikiData.BonusIndexKeys | src/common/wikiData.service.ts:244-254 | `bonusByItemId` has a key exactly for the unit, hero, upgrade and spell ids of the bonuses. |
| WikiData.BonusIndexCovers | src/common/wikiData.service.ts:244-254 | Every item id of a bonus is a key of `bonusByItemId`. |
| WikiData.BonusIndexValue | src/common/wikiData.service.ts:244-254 | Each item id maps to the id of a bonus that lists the item. |
| WikiData.BonusEntriesFrom | src/common/wikiData.service.ts:245-253 | Each generated pair holds an item id and the id of a bonus that lists it. |
| WikiData.UncachedGetData | src/common/wikiData.service.ts:165-170 | No rows is the error "No data found", and it is the only way to get that error. |
| WikiData.ReduceNoNoData | src/common/wikiData.service.ts:172-186 | The `reduce` never gives the no-data error. |
| WikiData.ReduceOk | src/common/wikiData.service.ts:172-186 | Rows whose content has the kind their key calls for always give a mapping, unless a key is `raceData` or a name inherited from `Object.prototype`. |
| WikiData.AccumulateRaces | src/common/wikiData.service.ts:173-179 | Only a row keyed `races` sets the races, to its race ids. |
| WikiData.AccumulateUltimates | src/common/wikiData.service.ts:173-179 | Only a row keyed `ultimates` sets the ultimates, to its groups. |
| WikiData.ReduceRacesLast | src/common/wikiData.service.ts:172-186 | The races of the mapping are those of the last row keyed `races`. |
| WikiData.ReduceRacesNone | src/common/wikiData.service.ts:181-185 | Without a row keyed `races`, the races list stays empty. |
| WikiData.ReduceUltimatesLast | src/common/wikiData.service.ts:172-186 | The ultimates of the mapping are those of the last row keyed `ultimates`. |
| WikiData.ReduceUltimatesNone | src/common/wikiData.service.ts:181-185 | Without a row keyed `ultimates`, the ultimates stay empty. |
| WikiData.AccumulateRaceData | src/common/wikiData.service.ts:176-178 | A race row sets `raceData` at its own id. Every other id is unchanged. |
| WikiData.ReduceRaceIds | src/common/wikiData.service.ts:172-186 | `raceData` has an entry for an id exactly when some race row has that id. |
| WikiData.ReduceRaceLast | src/common/wikiData.service.ts:172-186 | When a race id is stored twice, `raceData` keeps the last row. |
| WikiUpdate.DeleteDataKey | src/common/wikiData.service.ts:146 | `deleteMany({ where: { dataKey } })` removes exactly the rows of that `dataKey` and leaves the values of all other rows alone. |
| WikiUpdate.UpdateData | src/common/wikiData.service.ts:78-163 | The outer loop gives `UpdateRun`. A failed or truncated listing changes nothing. A 429 returns at once without resetting the cache. Otherwise the cache is reset when some `dataKey` was updated. |
| WikiUpdate.UpdateDataKey | src/common/wikiData.service.ts:90-147 | For one `dataKey`, a rate limit gets the as-written cleanup and stops the run. Any other failure deletes the `dataKey`'s rows. |
| WikiUpdate.UpdateItems | src/common/wikiData.service.ts:102-130 | The inner loop skips files whose stored sha matches. It stores the handled content with the new sha. It ends on an HTTP error, on an encoding other than base64 or on content that `HandleContent` refuses. |
| WikiUpdate.ItemsUpToDate | src/common/wikiData.service.ts:103 | When every remaining file has the stored sha, the inner loop writes nothing. |
| WikiUpdate.RunUpToDate | src/common/wikiData.service.ts:90-157 | When every file of every group has the stored sha, the outer loop leaves the table alone. |
| WikiUpdate.UpToDateTreeChangesNothing | src/common/wikiData.service.ts:78-157 | When every blob of the tree has its stored sha, nothing is fetched or written and the cache is not reset, whatever the blob replies would be. |
| WikiUpdate.ItemsUpdated | src/common/wikiData.service.ts:102-130 | The inner loop reports an update only if some file with a changed sha was fetched and stored. |
| WikiUpdate.RunResets | src/common/wikiData.service.ts:90-151 | The outer loop resets the cache only if some file of a later group was fetched and stored. |
| WikiUpdate.ResetNeedsStoredBlob | src/common/wikiData.service.ts:150-151 | `cache.reset(['wikiData'])` happens only after some blob was fetched and stored. |
| WikiUpdate.ItemsKinded | src/common/wikiData.service.ts:115-126 | The inner loop only stores content of the kind its key calls for. |
| WikiUpdate.RunKinded | src/common/wikiData.service.ts:90-148 | The outer loop keeps every stored row of the kind its key calls for. |
| WikiUpdate.UpdateKeepsKinds | src/common/wikiData.service.ts:78-163 | `updateData` keeps the table readable by `uncachedGetData`: `races` holds race ids, `ultimates` holds ultimate groups and every other key holds a race mapping. |
| WikiUpdate.ItemsFrame | src/common/wikiData.service.ts:102-130 | The inner loop removes no row and writes only rows of its own `dataKey`. |
| WikiUpdate.RateLimitDropsStoredRows | src/common/wikiData.service.ts:132-138 | As written, a 429 in a `dataKey` with no file named like the `dataKey` drops every row of that `dataKey`, stored data included. |
| WikiUpdate.RateLimitDropsStoredRowsExample | src/common/wikiData.service.ts:132-138 | A stored `og_1` races row is lost when refreshing it hits the rate limit. |
| WikiUpdate.RateLimitCleanupIntendedSpec | src/common/wikiData.service.ts:134-137 | With the intended cleanup, a 429 keeps every row stored before the run and only drops the partial rows of a `dataKey` that had none. |
| ParserService.EligibleRowsMembers | src/pipeline/parser.service.ts:45-62 | A row is selected exactly when it is stored and meets the `OR` filter: fresh and unprocessed, or `NO_MAPPING` on a map that now has a data key and a version and is not ignored. |
| ParserService.BatchSpec | src/pipeline/parser.service.ts:45-68 | `take: 10` gives at most ten eligible stored rows. The batch is empty exactly when no stored row is eligible. |
| ParserService.BatchEmpty | src/pipeline/parser.service.ts:66-68 | The loop breaks exactly when nothing is eligible. |
| ParserService.OutcomeOf | src/pipeline/parser.service.ts:139-155 | A replay of a known, mapped map counts as parsed exactly when the interpreter returns a result. It is an unclassified error exactly when the interpreter faults. |
| ParserService.UnlinkSpec | src/pipeline/parser.service.ts:310-315 | `updateMany` sets `mapProcessId` to null on exactly the matches linked to the record and leaves every other match as it was. |
| ParserService.HandleNonExistingMapSpec | src/pipeline/parser.service.ts:307-322 | A missing replay file deletes its record and unlinks its W3Champions matches. Every other record, map and link is unchanged. |
| ParserService.ParseMapReports | src/pipeline/parser.service.ts:125-290 | `parseMap` returns true only for a successful parse. An unclassified error leaves the database as it was. The file is removed only in production, and only after a success, a bad map or a parsing error. |
| ParserService.ParseMapSettles | src/pipeline/parser.service.ts:236-282 | Every outcome except an unclassified error deletes the record or leaves it no longer eligible. A `NO_MAPPING` record's map has lost its data key (src/pipeline/lib/ReplayParser.ts:230-241). |
| ParserService.ParseBatchCounts | src/pipeline/parser.service.ts:70-75 | `countResult` grows by exactly the number of successful parses in the batch, which is at most the batch size. |
| ParserService.UnclassifiedBatchIsInert | src/pipeline/parser.service.ts:283-288 | A batch in which every replay fails with an unclassified error changes nothing and counts nothing. |
| ParserService.RoundsStep | src/pipeline/parser.service.ts:44-76 | A round with fuel left parses the batch and then goes on with the new database and count. |
| ParserService.RoundsAdvance | src/pipeline/parser.service.ts:44-76 | The same, with the batch's result named. |
| ParserService.RoundsStopRule | src/pipeline/parser.service.ts:44-76 | When the loop ends by its own rule, it has counted 1000 successes or nothing is eligible any more. The count never decreases. |
| ParserService.StuckRecordsSpinForever | src/pipeline/parser.service.ts:44-76 | As written, when every eligible record fails with an unclassified error, no number of rounds ends the loop: each round re-selects the same records and changes nothing. |
| ParserService.FreshCrashingReplaySpins | src/pipeline/parser.service.ts:44-76 | One fresh record whose replay crashes the interpreter keeps the loop running for any number of rounds. |
| ParserService.RoundsCappedStep | src/pipeline/parser.service.ts:44-76 | With the cap on attempts, one round parses the batch and adds its size to the attempts. |
| ParserService.RoundsCappedUnfold | src/pipeline/parser.service.ts:44-76 | A round of the capped loop attempts between 1 and 10 records, with no more successes than attempts. |
| ParserService.RoundsCappedBound | src/pipeline/parser.service.ts:44-76 | The capped loop always ends, after fewer than 1010 attempts, and counts no more successes than attempts. |
| ParserService.RoundsCappedStopRule | src/pipeline/parser.service.ts:44-76 | The capped loop stops only at the cap or when nothing is eligible. |
| ParserService.ParseMatches | src/pipeline/parser.service.ts:41-80 | The `while` loop, run for at most `fuel` rounds, gives `Rounds`. |
| ParserService.ParseReplays | src/pipeline/parser.service.ts:70-75 | The `for` loop over a batch gives `ParseBatch`: the database after each `parseMap` and the number of successes. |
| ParserService.HasLeavers | src/pipeline/parser.service.ts:156-165 | `hasLeavers` holds exactly when there are fewer than four players, or some player left before 18 minutes or never upgraded to the second fort. |
| ParserService.HasLeaversCases | src/pipeline/parser.service.ts:156-165 | A player without the second fort marks the match. A full game in which everyone stayed and built the second fort has no leavers. |
| ParserService.Average | src/pipeline/parser.service.ts:146-155 | The average is null exactly when there are no enriched players. |
| ParserService.SumBounds | src/pipeline/parser.service.ts:152-153 | The sum of n values between `lo` and `hi` lies between `n * lo` and `n * hi`. |
| ParserService.AverageBounds | src/pipeline/parser.service.ts:152-153 | The average MMR or quantile lies within any bounds of the players' values. |
| ParserService.Mmrs | src/pipeline/parser.service.ts:147-152 | The MMRs of the enriched players, in order. |
| ParserService.Quantiles | src/pipeline/parser.service.ts:147-153 | The quantiles of the enriched players, in order. |
| ParserService.MatchRowAverages | src/pipeline/parser.service.ts:169-175 | Both averages of the new match row are null exactly when no player was enriched. The duration is the replay's. |
| Analytics.CreateEmptyGroup | src/analytic/analytic.repository.ts:177-188 | `createEmptyGroup` leaves an existing group alone and otherwise adds a zero group. No other key changes. |
| Analytics.Total | src/analytic/analytic.repository.ts:162 | `totalPlayers` is at least the number of groups, since every `groupBy` count is at least 1. |
| Analytics.InSnoc | src/analytic/analytic.repository.ts:190-218 | An element of a non-empty list is in its prefix or is its last row. This is the step that every row-by-row loop lemma uses. |
| Analytics.SumForPositive | src/analytic/analytic.repository.ts:193-194 | A race has picks exactly when it has a player row. |
| Analytics.FoldPlayersKeys | src/analytic/analytic.repository.ts:190-197 | After the players loop, a race has a group exactly when it has a player row. |
| Analytics.FoldPlayersTotals | src/analytic/analytic.repository.ts:190-197 | `totalMatches` and `picks` are the sum of the race's counts, and the event counts are still zero. |
| Analytics.FoldPlayersPlaces | src/analytic/analytic.repository.ts:195 | A group holds a place exactly when a row of its race has that place. It holds the count of the last such row. |
| Analytics.FoldPlayersWins | src/analytic/analytic.repository.ts:196 | `wins` is the count of the race's last place-1 row, or 0. |
| Analytics.FoldEventsKeys | src/analytic/analytic.repository.ts:199-200 | The events loop creates a group for every race it meets, including event types it does not count. |
| Analytics.AddEventKeeps | src/analytic/analytic.repository.ts:199-218 | One event row never touches a group's totals, wins or places. |
| Analytics.FoldEventsKeeps | src/analytic/analytic.repository.ts:199-218 | The events loop never touches a group's totals, wins or places. |
| Analytics.CountedFields | src/analytic/analytic.repository.ts:201-217 | The `switch` sets only the field of its own event type, and only for the three race events. |
| Analytics.FoldEventsCounts | src/analytic/analytic.repository.ts:199-218 | `init`, `repicks` and `bans` hold the count of the race's last event row of that type, or their earlier value. |
| Analytics.GroupedPicks | src/analytic/analytic.repository.ts:234-237 | Every group that holds a place has picks, so the place rates never divide by zero. |
| Analytics.StatOf | src/analytic/analytic.repository.ts:224-238 | The repick rate is 0 without initial picks. The ban rate is 0 without matches. The win rate divides by `picks \|\| 1`. The places are those of the group. |
| Analytics.RaceStats | src/analytic/analytic.repository.ts:160-238 | No player rows give an empty result. Otherwise there is one entry per group. |
| Analytics.RaceStatsSpec | src/analytic/analytic.repository.ts:132-239 | A race has an entry exactly when it has a player row or a race event. Its totals, pick rate, win rate and place rates come from its own player rows. Its repick and ban rates come from its last event of each type, with the source's guards against a zero divisor. |
| Analytics.SumForAtMostTotal | src/analytic/analytic.repository.ts:162 | One race's picks never exceed `totalPlayers`. |
| Analytics.LastPlaceAtMostSum | src/analytic/analytic.repository.ts:196 | A race's place-1 count never exceeds its picks. |
| Analytics.RaceRatesBounded | src/analytic/analytic.repository.ts:227-228 | Pick and win rates stay between 0 and 100. |
| Analytics.PercentBounded | src/analytic/analytic.repository.ts:227-228 | `a / b * 100` lies in [0, 100] when `a <= b`. |
| Analytics.FoldPlayersSnoc | src/analytic/analytic.repository.ts:190-197 | One more player row is one more pass of the loop. |
| Analytics.AddPlayerIs | src/analytic/analytic.repository.ts:191-196 | The in-place field updates of the loop body give the same group as one pass of the loop. |
| Analytics.GroupPlayers | src/analytic/analytic.repository.ts:190-197 | The players loop builds `grouped` as the row-by-row fold. |
| Analytics.CountEvents | src/analytic/analytic.repository.ts:199-218 | The events loop continues the fold over the event rows. |
| Analytics.GetRaceStats | src/analytic/analytic.repository.ts:160-238 | `getRaceStats` after its queries gives `RaceStats`. |
| Analytics.BucketSpec | src/analytic/analytic.repository.ts:257-263 | The `CASE` chain puts a quantile above 90 in bucket 100. Otherwise the first step the quantile does not exceed picks the step before it. |
| Analytics.QuantileGroupSpec | src/analytic/analytic.repository.ts:243-263 | A quantile above 90 is bucket 100 and one up to 20 is bucket 10. Otherwise the bucket is the step below the first step at or above the quantile. |
| Analytics.BucketMonotone | src/analytic/analytic.repository.ts:257-263 | A higher average quantile never lands in a lower bucket. |
| Analytics.BucketAtLeast | src/analytic/analytic.repository.ts:257-263 | From position `i` on, the bucket is at least the step before position `i`. |
| Analytics.WinrateCell | src/analytic/analytic.repository.ts:293-297 | A cell is null without matches, and also when the rate is 0. A shown cell is the win percentage and is at least 0.005. |
| Analytics.CountByBonusKeys | src/analytic/analytic.repository.ts:351-359 | `countByBonus` has exactly the non-empty bonus ids that have rows. |
| Analytics.CountByBonusSums | src/analytic/analytic.repository.ts:351-359 | `countByBonus` holds the sum of each bonus's counts. |
| Analytics.FoldBonusKeys | src/analytic/analytic.repository.ts:374-383 | `bonusMap` has an entry exactly for the bonuses that have rows. |
| Analytics.FoldBonusCount | src/analytic/analytic.repository.ts:375-382 | An entry's count is its reduced count, or 0, and places 1 to 4 are always present. |
| Analytics.FoldBonusPlaces | src/analytic/analytic.repository.ts:384-386 | A place seen in a row holds that row's share of the bonus count, in percent. The other places stay as created: 0 for places 1 to 4, absent otherwise. A zero count writes nothing. |
| Analytics.BonusStats | src/analytic/analytic.repository.ts:389-405 | There is one entry per bonus with rows, and each has a place 1. |
| Analytics.BonusStatsSpec | src/analytic/analytic.repository.ts:337-406 | The match count is the sum of the bonus's rows. The pick rate is that sum over all players. Each place seen holds its share, and the win rate is the place-1 share. The empty id is listed with zero count and zero places. |
| Analytics.BonusTotalPositive | src/analytic/analytic.repository.ts:391-393 | A bonus with rows has a positive total. |
| Analytics.BuildBonusMap | src/analytic/analytic.repository.ts:374-387 | The `bonusMap` loop gives the row-by-row fold. |
| Analytics.HeatmapKeys | src/analytic/analytic.repository.ts:455-461 | An event id has an entry exactly when it has a row. |
| Analytics.HeatmapValues | src/analytic/analytic.repository.ts:455-461 | Rows nest as event id, then level, then average time. A later row for the same event and level overwrites an earlier one. |
| Analytics.BuildHeatmap | src/analytic/analytic.repository.ts:453-463 | The `forEach` gives the row-by-row fold. |
| Interpreter.ObjectIds | src/pipeline/lib/ReplayParser.ts:390-396 | `addObject` keeps only the ids that decode, and every id it keeps is four characters long. |
| Interpreter.LastWithId | src/pipeline/lib/ReplayParser.ts:430-432 | `findLast` gives the last event with the id, or says that no event has it. |
| Interpreter.LastLiveTime | src/pipeline/lib/ReplayParser.ts:435-437 | The time of the last event with the id that is not cancelled, or none when every such event is cancelled. |
| Interpreter.Without | src/pipeline/lib/ReplayParser.ts:564 | Removing a player from the roster order keeps exactly the other ids. |
| Interpreter.WithRace | src/pipeline/lib/ReplayParser.ts:518 | `filter(({ race }) => race)` never adds records. Its members are given by `InterpreterResult.WithRaceMembers`. |
| Interpreter.InsertByTime | src/pipeline/lib/ReplayParser.ts:519 | One insertion step of the stable sort adds one record. Its meaning is given by the `InterpreterResult.Insert*` lemmas. |
| Interpreter.SortByTime | src/pipeline/lib/ReplayParser.ts:519 | The sort keeps the length. Its meaning is given by `InterpreterResult.SortByTimeSpec`. |
| Interpreter.Ranked | src/pipeline/lib/ReplayParser.ts:520-524 | Ranking keeps the number of players. Places and live events are given by `InterpreterResult.RankedSpec`. |
| Interpreter.MaxTime | src/pipeline/lib/ReplayParser.ts:534-536 | `Math.max` over the players' times is one of the times and is at least every other. |
| InterpreterEvents.InsertEventDedup | src/pipeline/lib/ReplayParser.ts:347-358 | An event is dropped exactly when its id is on the shared clock and its type's lag has not passed since the clocked time. A dropped event leaves the record and the clock unchanged. An accepted event is appended and becomes the clock's time for its id. Nothing else in the record changes. |
| InterpreterEvents.FortDroppedWhileClocked | src/pipeline/lib/ReplayParser.ts:9-10 | With an infinite lag, a fortress upgrade whose id is on the clock is always dropped. |
| InterpreterEvents.BaseUpgradeWindow | src/pipeline/lib/ReplayParser.ts:351-353 | A base upgrade is dropped exactly when it comes less than 18 seconds after the clocked time. |
| InterpreterEvents.TowerUpgradeWindow | src/pipeline/lib/ReplayParser.ts:351-353 | A tower upgrade is dropped exactly when it comes less than 75 seconds after the clocked time. |
| InterpreterEvents.FortClockSharedAcrossPlayers | src/pipeline/lib/ReplayParser.ts:346-358 | `lastEventTime` belongs to the parser, not the player: after one player's fortress upgrade, another player's upgrade with the same id is dropped. |
| InterpreterEvents.InitialRaceSharedAcrossPlayers | src/pipeline/lib/ReplayParser.ts:262-268 | When two players start with the same race, only the first gets the initial-race event. |
| InterpreterEvents.RacePickRules | src/pipeline/lib/ReplayParser.ts:254-278 | An unknown or empty picker changes nothing. A known one sets the race. The first race may add an initial-race event at time 0. The same race again changes nothing else. A different race finalizes and may add a repick of the old race at the current duration. |
| InterpreterEvents.BonusPickOnlyListed | src/pipeline/lib/ReplayParser.ts:280-287 | The bonus is set exactly when the player has a race whose game data lists it. Nothing else changes. |
| InterpreterEvents.RaceByUnitRules | src/pipeline/lib/ReplayParser.ts:360-383 | A unit of a race always leaves the player with that race. Without a race, an initial-race event may be added. With another race, the race is finalized and a repick may be added. With the same race, it is finalized only after seven minutes. |
| InterpreterEvents.CancelSpec | src/pipeline/lib/ReplayParser.ts:426-446 | With no event of the id, cancelling changes nothing. Otherwise exactly the latest event with the id is marked cancelled and nothing else in the record changes. Clock entries of other ids are kept. Afterwards the id is on the clock exactly when the last live event with the id has a non-zero time, and then the clock holds that time. |
| InterpreterEvents.LastLiveTimeAt | src/pipeline/lib/ReplayParser.ts:435-437 | There is a last live time exactly when some event with the id is live and every later event with the id is cancelled, and it is that event's time. |
| InterpreterEvents.FortRecordedTwiceAfterForeignCancel | src/pipeline/lib/ReplayParser.ts:430-442 | A repeated cancel by one player clears the shared clock entry after another player has built the same id, so that player's next upgrade is recorded a second time. |
| InterpreterResult.AtTimeConcat | src/pipeline/lib/ReplayParser.ts:519 | Picking the records of one time distributes over concatenation. |
| InterpreterResult.InsertPerm | src/pipeline/lib/ReplayParser.ts:519 | An insertion step adds exactly the one record. |
| InterpreterResult.InsertSorted | src/pipeline/lib/ReplayParser.ts:519 | An insertion step keeps the list ordered by descending time. |
| InterpreterResult.InsertBound | src/pipeline/lib/ReplayParser.ts:519 | An insertion step keeps every time above a common bound. |
| InterpreterResult.InsertStable | src/pipeline/lib/ReplayParser.ts:519 | An insertion step places the new record after the existing records with the same time. |
| InterpreterResult.SortByTimeSpec | src/pipeline/lib/ReplayParser.ts:519 | `sort((a, b) => b.time - a.time)` orders by descending time, is a permutation, and is stable: the records of each time keep their input order. |
| InterpreterResult.WithRaceMembers | src/pipeline/lib/ReplayParser.ts:518 | The records kept for the ranking are exactly those with a race. |
| InterpreterResult.LiveEventsMembers | src/pipeline/lib/ReplayParser.ts:523 | The kept events are exactly the ones not cancelled. |
| InterpreterResult.ResultDataFails | src/pipeline/lib/ReplayParser.ts:526-530 | `resultData` fails, with the ranked count, exactly when fewer than two players have a race. That is its only error. |
| InterpreterResult.ResultDataRanking | src/pipeline/lib/ReplayParser.ts:516-538 | Otherwise the players with a race are ranked. The list is a permutation of them, ordered by descending time, with players of equal time kept in roster order. Places run 1..N and no cancelled event remains. |
| InterpreterResult.RankedSpec | src/pipeline/lib/ReplayParser.ts:517-524 | Sorting and ranking any list of players that all have a race gives such a ranking: a stable reordering by descending time, with places and live events set. |
| InterpreterResult.MaxTimeBounds | src/pipeline/lib/ReplayParser.ts:534-536 | The duration bounds every player's time and is reached by one of them. |
| InterpreterResult.ResultDataDuration | src/pipeline/lib/ReplayParser.ts:532-538 | The duration is the largest time of the players still in the map, and the map name is the last component of the map path. |
| InterpreterResult.OzGuardMissesRaceIds | src/pipeline/lib/ReplayParser.ts:301-302 | `gameData.races[playerState.race]` indexes the race list by a race id. For an id with a non-digit character that is not an inherited name, the guard fails and the action changes nothing. |
| InterpreterResult.OzGuardHitThrows | src/pipeline/lib/ReplayParser.ts:315-320 | When that guard passes, a key that is a known aura or bonus throws, because `race.auras` is undefined. |
| InterpreterResult.ParseFailsOnlyForFewPlayersOffOz | src/pipeline/lib/ReplayParser.ts:541-577 | Away from `oz` maps, a parse never crashes. Its only failure is too few players with a race. |
| InterpreterSteps.ConfigForWellFormed | src/pipeline/lib/ReplayParser.ts:136-173 | The lookup built from the game data maps barrack ids only to barrack tiers and fort ids only to fort tiers. |
| InterpreterSteps.PlayerFollowsTrans | src/pipeline/lib/ReplayParser.ts:385-514 | The allowed evolution of a player record composes. |
| InterpreterSteps.GrowsTrans | src/pipeline/lib/ReplayParser.ts:347-358 | Appending live, non-ultimate events composes. |
| InterpreterSteps.EvolvesTrans | src/pipeline/lib/ReplayParser.ts:451-513 | The allowed effect of the item rules composes. |
| InterpreterSteps.EvolvesFollows | src/pipeline/lib/ReplayParser.ts:451-513 | An item-rule effect is an allowed evolution. |
| InterpreterSteps.InsertEvolves | src/pipeline/lib/ReplayParser.ts:347-358 | `insertEvent` only appends. |
| InterpreterSteps.InsertIfEvolves | src/pipeline/lib/ReplayParser.ts:466-496 | A guarded `insertEvent` only appends. |
| InterpreterSteps.InsertTierEvolves | src/pipeline/lib/ReplayParser.ts:474-504 | A barrack or fort event only appends. |
| InterpreterSteps.TypeSpecificEvolves | src/pipeline/lib/ReplayParser.ts:323-344 | `processTypeSpecificId` keeps identity and time, and it only finalizes races. |
| InterpreterSteps.RaceByUnitEvolves | src/pipeline/lib/ReplayParser.ts:360-383 | `processRaceByUnitId` on an open race keeps identity and time and only appends. |
| InterpreterSteps.ItemRaceEvolves | src/pipeline/lib/ReplayParser.ts:452-464 | The race and bonus part of the item loop keeps identity and time and only appends. |
| InterpreterSteps.ItemEventsEvolve | src/pipeline/lib/ReplayParser.ts:465-504 | The event part of the item loop only appends events of its own types. |
| InterpreterSteps.MarkersEvolve | src/pipeline/lib/ReplayParser.ts:505-512 | Setting the aura or the ultimate adds no event. |
| InterpreterSteps.ItemRuleEvolves | src/pipeline/lib/ReplayParser.ts:451-513 | One id of the item loop records no ultimate use, and it never un-finalizes a race. |
| InterpreterSteps.ItemRulesEvolve | src/pipeline/lib/ReplayParser.ts:451-513 | The same holds for the whole item loop. |
| InterpreterSteps.ItemSetsUltimateSilently | src/pipeline/lib/ReplayParser.ts:509-512 | A purchased id in the ultimate lookup sets the ultimate without recording its use. |
| InterpreterSteps.RacePickEvolves | src/pipeline/lib/ReplayParser.ts:254-278 | A race pick on an open race keeps identity and time and only appends. |
| InterpreterSteps.SelectEvolves | src/pipeline/lib/ReplayParser.ts:411-422 | Action 0x19 keeps identity and time and only appends. |
| InterpreterSteps.InsertIfFollows | src/pipeline/lib/ReplayParser.ts:347-358 | A guarded insert is an allowed evolution and keeps the time. |
| InterpreterSteps.UseUltimateFollows | src/pipeline/lib/ReplayParser.ts:304-314 | Casting an ultimate is an allowed evolution and keeps the time. |
| InterpreterSteps.MmdOzFollows | src/pipeline/lib/ReplayParser.ts:297-321 | When `processMMDtypeOZ` does not throw, it is an allowed evolution and keeps the time. |
| InterpreterSteps.CancelFollows | src/pipeline/lib/ReplayParser.ts:426-446 | Cancelling only sets cancelled flags and keeps the time. |
| InterpreterSteps.EffectFollows | src/pipeline/lib/ReplayParser.ts:398-513 | Every action on the acting player is an allowed evolution that keeps its time. Away from `oz` maps, no action throws. |
| InterpreterSteps.FollowsTrans | src/pipeline/lib/ReplayParser.ts:550-568 | The allowed evolution of the parser state composes. |
| InterpreterSteps.ActionStepFrame | src/pipeline/lib/ReplayParser.ts:385-388 | Actions of unknown or departed players change nothing. Otherwise only the acting player and the clock change, and the player's time becomes the duration. |
| InterpreterSteps.ActionsFollow | src/pipeline/lib/ReplayParser.ts:554-556 | The actions of one command block keep the roster and are an allowed evolution. |
| InterpreterSteps.CommandsFollow | src/pipeline/lib/ReplayParser.ts:553-557 | The command blocks of one time slot keep the roster and are an allowed evolution. |
| InterpreterSteps.LeaveRule | src/pipeline/lib/ReplayParser.ts:559-568 | A leave block removes the player exactly when the player is known and has no race. Everyone else is untouched. |
| InterpreterSteps.WithoutKeepsDistinct | src/pipeline/lib/ReplayParser.ts:564 | Removing an id keeps the roster order free of repeats. |
| InterpreterSteps.LeaveKeepsOrder | src/pipeline/lib/ReplayParser.ts:559-568 | The leave rule keeps the roster order exact. |
| InterpreterSteps.InitialOrder | src/pipeline/lib/ReplayParser.ts:106-120 | The roster lists each player once. No player starts departed or finalized. |
| InterpreterSteps.RunFollows | src/pipeline/lib/ReplayParser.ts:550-568 | Over a whole run, players only disappear, every remaining one evolves as allowed, and the roster order stays exact. Away from `oz` maps, the run never faults. |
| InterpreterSteps.ActionsKeepDuration | src/pipeline/lib/ReplayParser.ts:554-556 | The actions of a command block never change the replay duration. |
| InterpreterSteps.CommandsKeepDuration | src/pipeline/lib/ReplayParser.ts:553-557 | The command blocks of a time slot never change the replay duration. |
| InterpreterSteps.BlockDispatch | src/pipeline/lib/ReplayParser.ts:550-568 | The two independent guards of the block handler act as one dispatch, because no block passes both. Only a time slot advances the duration, by its increment. A block of neither kind changes nothing, and only a time slot can fault. |
| InterpreterSteps.RunDuration | src/pipeline/lib/ReplayParser.ts:550-557 | After a run the duration has grown by exactly the sum of the increments of its time slots. |
| InterpreterSteps.FinalizedRaceStable | src/pipeline/lib/ReplayParser.ts:411-457 | Away from `oz` maps, a finalized race never changes for the rest of the replay. |
| InterpreterSteps.RunSplit | src/pipeline/lib/ReplayParser.ts:550-568 | Running a block stream is running a prefix and then the rest. |
| InterpreterSteps.NoPlayerMarkedLeft | src/pipeline/lib/ReplayParser.ts:559-567 | No player in the map is ever marked as departed: the flag is set only on a record that was just removed. |
| ReplayParserClass.ReplayParser.constructor | src/pipeline/lib/ReplayParser.ts:98-123 | `parseMetadata` creates one fresh record per roster entry. The roster order has no repeats, the duration is 0 and the clock is empty: this is exactly `InitialState`. |
| ReplayParserClass.ReplayParser.InsertEvent | src/pipeline/lib/ReplayParser.ts:346-358 | Performs exactly the dedup step of `InterpreterEvents.InsertEventDedup`. Only the clock field changes. |
| ReplayParserClass.ReplayParser.ProcessRacePick | src/pipeline/lib/ReplayParser.ts:254-278 | Performs exactly the race-pick step of `InterpreterEvents.RacePickRules`. Only the clock changes. |
| ReplayParserClass.ReplayParser.ProcessBonusPick | src/pipeline/lib/ReplayParser.ts:280-287 | Performs exactly the bonus-pick step of `InterpreterEvents.BonusPickOnlyListed`. |
| ReplayParserClass.ReplayParser.ProcessMmdTypeOz | src/pipeline/lib/ReplayParser.ts:297-321 | Performs the `oz` MMD step. It throws exactly when the step faults. |
| ReplayParserClass.ReplayParser.ProcessTypeSpecificId | src/pipeline/lib/ReplayParser.ts:323-344 | Performs exactly the type-specific-id step. |
| ReplayParserClass.ReplayParser.ProcessRaceByUnitId | src/pipeline/lib/ReplayParser.ts:360-383 | Performs exactly the race-by-unit step of `InterpreterEvents.RaceByUnitRules`. |
| ReplayParserClass.ReplayParser.ProcessItemRace | src/pipeline/lib/ReplayParser.ts:452-464 | Performs the race and bonus part of one id of the item loop. |
| ReplayParserClass.ReplayParser.ProcessItemEvents | src/pipeline/lib/ReplayParser.ts:465-512 | Performs the event and marker part of one id of the item loop. |
| ReplayParserClass.ReplayParser.ProcessItems | src/pipeline/lib/ReplayParser.ts:451-513 | The item loop performs the item rules over all ids in order. |
| ReplayParserClass.ReplayParser.AddObject | src/pipeline/lib/ReplayParser.ts:390-396 | The collecting loop of `addObject` yields exactly the decodable ids, in order. |
| ReplayParserClass.ReplayParser.FindLast | src/pipeline/lib/ReplayParser.ts:430 | The backward scan finds the last event with the id. |
| ReplayParserClass.ReplayParser.FindLastLiveTime | src/pipeline/lib/ReplayParser.ts:435-437 | The backward scan finds the time of the last live event with the id. |
| ReplayParserClass.ReplayParser.ProcessCancel | src/pipeline/lib/ReplayParser.ts:426-446 | Performs exactly the cancel step of `InterpreterEvents.CancelSpec`. |
| ReplayParserClass.ReplayParser.ProcessSelect | src/pipeline/lib/ReplayParser.ts:411-422 | Performs exactly the action-0x19 step. |
| ReplayParserClass.ReplayParser.ProcessEffect | src/pipeline/lib/ReplayParser.ts:398-513 | Performs the effect of one action on the acting player, and faults exactly when that effect does. |
| ReplayParserClass.ReplayParser.ProcessAction | src/pipeline/lib/ReplayParser.ts:385-514 | The new parser state is exactly `ActionStep` of the old one, which is framed by `InterpreterSteps.ActionStepFrame`. It faults exactly when that step does. |
| ReplayParserClass.ReplayParser.ProcessCommand | src/pipeline/lib/ReplayParser.ts:554-556 | Runs one command block's actions in order, exactly as `ActionsStep` does. |
| ReplayParserClass.ReplayParser.ProcessCommands | src/pipeline/lib/ReplayParser.ts:553-557 | Runs a time slot's command blocks in order, exactly as `CommandsStep` does. |
| ReplayParserClass.ReplayParser.ProcessBlocks | src/pipeline/lib/ReplayParser.ts:550-569 | The block loop with the leave rule is exactly `Run`, whose properties are given by `InterpreterSteps.RunFollows`. |
| ReplayParserClass.ReplayParser.Parse | src/pipeline/lib/ReplayParser.ts:541-578 | From a freshly created parser, `parse` followed by `resultData` gives exactly `Interpreter.Parse`, whose failure and ranking rules are given by `InterpreterResult.ResultDataFails`, `ResultDataRanking` and `ParseFailsOnlyForFewPlayersOffOz`. |
| ReplayParserClass.ActionsErrStays | src/pipeline/lib/ReplayParser.ts:554-556 | An exception in one action ends the command block with that exception. |
| ReplayParserClass.CommandsErrStays | src/pipeline/lib/ReplayParser.ts:553-557 | An exception in one command block ends the time slot with that exception. |
| ReplayParserClass.CommandsPrefixErr | src/pipeline/lib/ReplayParser.ts:553-557 | A fault in a prefix of the command blocks is the fault of the whole time slot. |
| ReplayParserClass.RunErrStays | src/pipeline/lib/ReplayParser.ts:550-569 | An exception in a prefix of the blocks is the outcome of the whole parse loop. |
| GameIds.WordChars | src/pipeline/lib/ReplayParser.ts:39-40 | The `\w` filter after `String.fromCharCode` keeps only word characters and never lengthens the input. |
| GameIds.Reverse | src/pipeline/lib/ReplayParser.ts:41-43 | Reversal keeps the length and mirrors the positions. |
| GameIds.PackedChars | src/pipeline/lib/ReplayParser.ts:51-55 | Every character the packed loop emits is a byte. |
| GameIds.GameIdOf | src/pipeline/lib/ReplayParser.ts:35-59 | `toGameId` yields only four-character ids, and only for inputs of length 4 or 2. Any other length gives `null`. |
| GameIds.ToGameId | src/pipeline/lib/ReplayParser.ts:35-59 | The method with the packed loop computes exactly `GameIdOf`. |
| GameIds.WordCharsKeepsWords | src/pipeline/lib/ReplayParser.ts:39-40 | Word-character codes pass through the filter unchanged. |
| GameIds.FourCodesDecodeReversed | src/pipeline/lib/ReplayParser.ts:36-47 | Four word-character codes decode to those characters in reverse order. |
| GameIds.FourCodesNeedWordChars | src/pipeline/lib/ReplayParser.ts:36-47 | A four-element id with any non-word code decodes to `null`. |
| GameIds.WordCharsDropsNonWord | src/pipeline/lib/ReplayParser.ts:39-40 | A non-word code makes the filtered string shorter than the input. |
| GameIds.PackedLengthAtLeast | src/pipeline/lib/ReplayParser.ts:51-55 | The packed loop emits at least k characters exactly when the value is at least 9·256^(k-1). |
| GameIds.PackedIdRange | src/pipeline/lib/ReplayParser.ts:48-57 | A two-element id decodes exactly when its value lies in [9·256^3, 9·256^4). |
| GameIds.PackedRoundTrip | src/pipeline/lib/ReplayParser.ts:48-57 | Decoding a packed 32-bit value in range and packing the result gives the value back. |
| GameIds.PackIdRoundTrip | src/pipeline/lib/ReplayParser.ts:48-57 | Packing an id of bytes whose first code is above 8 and decoding it gives the id back. |
| Lookup.Tiered | src/pipeline/lib/ReplayParser.ts:138-151 | The `.map((id, idx) => [id, tiers[idx]])` pairs each id with the tier at its position. |
| Lookup.PairWith | src/pipeline/lib/ReplayParser.ts:194 | `items.map((id) => [id, r.id])` pairs exactly the given ids with the race id. |
| Lookup.UnionOf | src/pipeline/lib/ReplayParser.ts:127-135 | `new Set(flatMap(...))` holds exactly the ids some race lists. |
| Lookup.BarrackTiersOf | src/pipeline/lib/ReplayParser.ts:136-152 | The barrack index holds exactly the last three barrack ids of some race, each mapped to a barrack tier. |
| Lookup.BarrackIndexed | src/pipeline/lib/ReplayParser.ts:136-152 | Every key of the barrack index is one of a race's last three barracks, with a barrack tier. |
| Lookup.BarrackCovered | src/pipeline/lib/ReplayParser.ts:136-152 | Every one of a race's last three barracks is a key of the index. |
| Lookup.BarrackTiersPositional | src/pipeline/lib/ReplayParser.ts:136-152 | When no barrack id is shared, the j-th of a race's last three barracks maps to the j-th tier. |
| Lookup.FortTiersOf | src/pipeline/lib/ReplayParser.ts:161-173 | The fort index holds exactly the last two fort ids of some race, each mapped to a fort tier. |
| Lookup.FortIndexed | src/pipeline/lib/ReplayParser.ts:161-173 | Every key of the fort index is one of a race's last two forts, with a fort tier. |
| Lookup.FortCovered | src/pipeline/lib/ReplayParser.ts:161-173 | Every one of a race's last two forts is a key of the index. |
| Lookup.TieredMember | src/pipeline/lib/ReplayParser.ts:138-151 | Every tiered pair joins a listed id with a listed tier. |
| Lookup.TieredCovers | src/pipeline/lib/ReplayParser.ts:138-151 | Every listed id occurs in some tiered pair. |
| Lookup.FortTiersPositional | src/pipeline/lib/ReplayParser.ts:161-173 | When no fort id is shared, the j-th of a race's last two forts maps to the j-th tier. |
| Lookup.UltimatesToKey | src/pipeline/lib/ReplayParser.ts:174-179 | The ultimates index holds exactly each key and its listed ids. Each maps to some key that lists it, and to its own key when no id is listed under two keys. |
| Lookup.RaceByUnitOwner | src/pipeline/lib/ReplayParser.ts:186-196 | `raceByUnit` holds exactly the heroes, units and buildings of some race, each mapped to an owning race. When ids are not shared, each maps to its own race. |
| Lookup.RaceByPickerOwner | src/pipeline/lib/ReplayParser.ts:180-185 | `raceByPicker` holds exactly the races' bonus pickers, each mapped to a race that has that picker. |
| Lookup.BonusByUnitEntries | src/pipeline/lib/ReplayParser.ts:197-201 | `bonusByUnit` holds exactly the items some race's bonus table lists, each mapped to a bonus that a race's table gives it. |
| Lookup.BonusByUnitExact | src/pipeline/lib/ReplayParser.ts:197-201 | When no item has two bonuses, every entry of every race's table is in the index unchanged. |

## Left out

- Replay container decoding (`w3gjs` raw, metadata and game-data parsers), file reading and the event-emitter wiring in `parse`: the model takes the decoded roster and block stream as inputs.
- `parseGameData`'s Prisma upserts and the `wikiData` lookup it performs: the game data and the map family are parameters of the interpreter.
- The `gameIdCache` memo in `toGameId`: it stores results and cannot change them.
- All database access (Prisma and Kysely): rows read are inputs, and rows written are outputs or fields of a modelled database value. The content of the match and player creation transaction in `parseMap` is reduced to the record state and the reported outcome.
- Rate limiting (Bottleneck and axios-rate-limit wrappers): the repository implements no token bucket. Whether the service is available and each request's status are inputs.
- HTTP, GitHub, JSON and base64 decoding: responses and decoded texts are inputs.
- Clocks and timers: `Date.now`, `new Date()`, `dayjs` and `setInterval` are replaced by an explicit `now`. The hourly cleanup timer is not modelled, only `cleanupExpired` itself.
- Concurrency: the `@Cron` scheduling, the `working` promise gate in the wiki service, the `Promise.all` fan-outs and the Promise branch of `wrap`.
- Floating point: averages, rates and the quantile are modelled over exact reals (`ParserService.Average`, `Analytics.Percent`, `(oldMmrQuantile * 100.0).Floor` in `FetcherService`), so rounding error is not modelled. The `toFixed` percentages and the SQL percentiles are left out.
- `getHeroBuyStats` and the other query-only repository methods: their meaning lives in SQL.
- The grouping inside `getRacesStatsByQuantile` beyond the bucket rule and one winrate cell: it is a query result.
- Logging and console output, and `process.exit`, which is modelled as the returned gate outcome.
- The HTTP front end, admin pages, dumps, CSV export, one-off repair migrations and type-only files: they hold no core logic.
- JavaScript object key order (integer-like keys first): records are association lists in insertion order.
- Strings are sequences of UTF-16 code units. `ToLower` folds only ASCII letters, and lengths count code units.
- Dto.ReadFilter: the `class-validator` whitelist and `forbidNonWhitelisted` options are not modelled. Only the stated bounds and defaults are.
- Dto.ReadSearch: the whitelist options are not modelled, as for `Dto.ReadFilter`, and the inherited fields have the gaps listed for `Dto.ReadAnalytic`.
- Dto.ReadAnalytic: checks `playerId` as an integer, while `@IsNumber` also accepts a fractional number. The filter holds integer player ids, and a fractional id matches no player row. Date parsing by `@Type(() => Date)` is not modelled: `dateFrom` and `dateTo` arrive as time values.
- PrismaFilter.MatchFilter: fractional ids and platform names outside the enumeration are not modelled.
- PrismaFilter.PlayerFilter: carries no contract. It is a plain record copy, and its meaning is stated by `PrismaFilter.PlayerFilterMeaning`.
- Guards.IsTypedAction: carries no contract. It is a one-line equality used only inside the interpreter.
- FetcherService.Rows: the season is kept as a number, while the source stores `String(season)`.
- BufferLogger.BufferedLogger.GetLogs: promises the entries of all levels with their counts, but not the order the source's sort gives. Its comparator is not a consistent order over wall-clock times.
- Migration.SortSpec: orders names by code units in place of `localeCompare`.
- Migration.MigrationService.ExecMigrations: the dynamic `import` of a migration module is an outcome parameter (it exports `exec` and completes, it lacks `exec`, or it throws).
- MapperService.ProcessW3CLoop: the thrown 401 is modelled as an `aborted` result, not an exception.
- AuthGuard.CanActivate: base64 decoding is a parameter, and setting the `WWW-Authenticate` header is a flag in the result.
- WikiData.UncachedGetData: `getData` is only the cache wrap around it. Caching is modelled by `TagCache.TaggedMemoryCache.Wrap`.
- WikiData.HandleContent: refuses a race-shaped or ultimates-shaped file under the key `races`. The source does not fail there: `Object.values(data).flat().map(({ id }) => id)` turns such a file into a list of nested ids and `undefined` entries and stores it. The model has no value for such a list, so `WikiUpdate.UpdateItems` ends that dataKey as failed where the source stores the list and continues. A wrong-shaped file under `ultimates` or a race key makes the source throw, as the model refuses it.
- WikiData.UncachedGetData: returns `OffShape` where the source, which never fails on a non-empty row list, stores a value the mapping's shape cannot hold. That happens for a `raceData` row, a key inherited from `Object.prototype`, a `races` or `ultimates` row of the wrong kind, or non-race content under another key.
- ParserService.ParseMatches: the loop is run with a fuel bound on the number of rounds, because as written it need not terminate (see Findings).
- ParserService.ParseMap: the `cache.reset([map.mapVersion])` after each successful parse is not modelled. The parse result holds no cache state, and the reset's meaning is given by `TagCache.ResetTagsSpec`.
- ParserService.ParseReplays: each replay's interpreter outcome is an input. A deleted replay file is recorded in a set of removed files, not performed.
- TagCache.TaggedMemoryCache.Reset: the order in which the source visits map entries is not modelled. Results are stated as sets and maps.

Behaviour of the code as written that a reader might not expect:
- A leave block removes a player only when that player has no race. Players with a race stay in the map and are never marked as departed (`InterpreterSteps.NoPlayerMarkedLeft`).
- In `processRaceByUnitId` the seven-minute rule applies to the same race. A different race always repicks and finalizes.
- `processMMDtypeOZ` indexes the list of race ids by a race id, as JavaScript property access on an array. The guard therefore almost never passes, and when it does, the aura lookup throws.
- The mapper's `downloadError: { not: 500 }` follows SQL, so a process with no download error is not pending again.
- The admin guard splits the decoded credentials at every colon and compares only the first two pieces (`AuthGuard.CanActivateAsWritten`). `AuthGuard.CanActivate` is the corrected guard (see Findings).

## Findings

| source | as written | input that shows it | evidently intended | confidence | as-written member | corrected member |
|---|---|---|---|---|---|---|
| src/pipeline/parser.service.ts:44-76 | Only successes raise `countResult`. A record that fails with an unclassified error keeps its state, so it is selected again. | One fresh record whose replay makes the interpreter throw a `TypeError`: every round selects it again and the loop never ends. | The loop ends after a bounded number of attempts. | not executed | ParserService.FreshCrashingReplaySpins, ParserService.StuckRecordsSpinForever | ParserService.RoundsCappedBound, ParserService.RoundsCappedStopRule |
| src/common/wikiData.service.ts:132-138 | On a 429 the cleanup tests `dbData[dataKey]`, but `dbData` is keyed by file key, so the test almost always fails and every row of the `dataKey` is deleted. | A stored `og_1` races row whose refresh hits the rate limit is deleted. | Only the partial rows of a `dataKey` that had nothing stored are dropped. | not executed | WikiUpdate.RateLimitDropsStoredRowsExample, WikiUpdate.RateLimitDropsStoredRows | WikiUpdate.RateLimitCleanupIntendedSpec |
| src/admin/auth.guard.ts:26-32 | `split(':')` compares only the first two pieces. | `ADMIN_PASSWORD=a:b` with credentials `admin:a:b` is refused. | Split at the first colon only, as section 2 of RFC 7617 specifies. | not executed | AuthGuard.ColonPasswordRejected | AuthGuard.CanActivateSpec |
| src/admin/auth.guard.ts:26-29 | With `ADMIN_PASSWORD` unset, the second piece is `undefined` on both sides of the comparison. | Decoded credentials `admin` with no colon, against `ADMIN_LOGIN=admin`, are admitted. | An unset password admits nobody, and credentials need a colon. | not executed | AuthGuard.MissingPasswordAdmits | AuthGuard.NoColonRejected |
