# RustResort: verified models

RustResort is a single-user ActivityPub server. This project models the parts of it that carry real
invariants and proves what they keep. Every module follows one component of the server; SQL tables
are maps or sequences, a transaction is one step, and where requests interleave each SQL statement
is a step of its own.

| file | component |
|---|---|
| `D1Sync.dfy`, `SqlText.dfy` | the D1 sync: diff or full dump, history key, upload, promotion, pruning, with a stop possible after any effect; the SQL text it writes |
| `ImageSwap.dfy` | avatar and header replacement: upload, compare-and-set on the account row, clean-up, any number of calls interleaved |
| `PageLoop.dfy`, `Paging.dfy`, `Threads.dfy`, `Ordering.dfy` | timeline paging with muted threads, the cursor queries behind it, the walk up a reply chain, SQL ordering |
| `RateLimiter.dfy` | the federation rate limiter |
| `TimelineCache.dfy`, `ProfileCache.dfy` | the two caches |
| `Polls.dfy`, `Idempotency.dfy` | ballots and their counts, idempotency reservations |
| `Hashtags.dfy`, `HashtagIndex.dfy` | the hashtag scanner, and the index kept beside the statuses |
| `Addresses.dfy`, `Follows.dfy` | account addresses and the table of accounts followed |
| `Activities.dfy`, `Inbox.dfy`, `InboxCache.dfy`, `InboxExamples.dfy` | the inbox processor |
| `OAuthRequests.dfy`, `OAuth.dfy` | scopes, authorization codes and tokens |
| `Text.dfy`, `Wrappers.dfy` | white space, words, ASCII case; optional values and errors |

Code that mutates state is a class whose methods are proved against specification functions; the
properties of those functions, over all inputs and all runs, are the lemmas listed below. Clocks,
generated ids, faults of the outside world, the URL parser, HTML cleaning, hashing and the
`sqldiff`/`wrangler` tools are parameters. Where a lemma assumes a law of a parameter, the law is a
named predicate: `Lawful` (diff, dump and apply), `PicksOldest` (eviction), `PicksNewest`
(`ORDER BY ... LIMIT 1`), `CaseBlind` (the URL parser), `Sound` (the comparison of addresses, the OAuth checks).
`D1Sync.LawfulToolsExist`, `Follows.RulesAreSound` and `OAuth.RulesAreSound` show that they are met.

## Where the code differs from what it is meant to do

Some natural properties do not hold of the code. For each of them the model keeps the code as it is,
and the exact condition under which the property holds is proved, together with a failing case.

- **Home and public timelines** are ordered by `created_at` but their cursor compares ids. Reading on
  from a cursor works exactly when the ids below it descend down the listing
  (`Paging.IdCursorResumesFromIff`); a backdated status is otherwise skipped
  (`Paging.BackdatedIdIsSkipped`). Hashtag timelines always work. Favourites and bookmarks work from the
  top and from every listed status, ties included; a cursor whose mark has since been removed falls
  back to comparing status ids, which works exactly when the smaller ids are at the end of the list
  (`Paging.UnmarkedResumesIff`, `Paging.UnmarkedCursorDoesNotResume`).
- **Periodic pruning of the rate limiter** is invisible exactly when `max_requests >= 1` or the window
  is zero (`RateLimiter.PruneUnobservableIff`). Counts stay within the maximum exactly when it is at
  least one (`RateLimiter.AlwaysBoundedIff`). The bound on accepted calls in one window length is
  `2 * max_requests - 1`, and it is attained.
- **Reply loops**: a status and its parent have one thread root exactly when the status is not in a
  loop of two or more (`Threads.RootOfParentIff`); in a loop, muting one status leaves the other visible.
- **Muting follows the root as it was then.** When the missing parent of a muted thread is stored later,
  or a member is deleted, the root moves. What is hidden stays hidden exactly under the conditions of
  `Threads.InsertKeepsHiddenIff` and `Threads.DeleteKeepsHiddenIff`; `Threads.ArrivingParentUnmutes` is a
  failing case.
- **Hashtags behind markup**: a `#` inside an HTML tag that another hashtag is read through is missed;
  the scan is complete exactly when there is none with a tag (`Hashtags.ScanIsCompleteIff`,
  `Hashtags.MarkupHidesHash`).
- **D1 sync keys** are hashes of the payload text alone. A change made, undone and made again finds its
  old key, so it is never sent, although the snapshot moves on (`D1Sync.RepeatedChangeIsNotSent`, reachable
  by `D1Sync.RepeatedChangeAfterFirstSync`). A lost snapshot is repaired by the full dump exactly when the
  remote has no table that the local database lacks (`D1Sync.LostSnapshotRepairedIff`,
  `D1Sync.DroppedTableSurvivesDump`).
- **Stored idempotency responses** are lost to the 30-day trigger of migration 009; they stay exactly
  as long as no insert comes along after that age (`Idempotency.ResponseStaysIff`).
- **Editing a status with media** does not reindex its hashtags; the index stays right exactly when the
  new content has the same tags (`HashtagIndex.MediaUpdateKeepsIndexIff`,
  `HashtagIndex.MediaEditLeavesStaleTag`).
- **Undoing a follow** restores the follower table exactly when the undo names no older row of the same
  actor under another spelling of the address (`Inbox.UndoRestoresIff`, `InboxExamples.UndoTakesBothRows`).
- **Update activities** have a handler, but the persistence decision drops them before it is reached, so
  no run changes the profile cache (`Inbox.ProfilesNeverChange`); `Inbox.UpdateHandlerRefreshes` says what
  the handler would have done.
- **IPv6 hosts**: the URL parser keeps the brackets and the candidate spellings add them again, so the
  lookup of an IPv6 target finds only the target as written. Lookup and delete agree exactly when the
  row names its port as the target does, or there is none (`Follows.LookupAgreesWithDeleteIff`,
  `Follows.Ipv6RowIsRemovedUnfound`).
- **Port 80**: the inbox's own address matcher reads authorities as `http`, so an explicit port 80 is
  invisible to it; the exact disagreement with the database's matcher is `Inbox.MatchersDisagreeIff`, a
  case of it `InboxExamples.MatchersDisagreeOnPort80`.
- **A database error after the row was changed** would make the avatar roll-back delete the current
  image (`ImageSwap.CommittedErrorDangles`); the safety theorems assume that an error means no change.

## Model

| member | source | states |
|---|---|---|
| D1Sync.IdleIsSound | src/data/sync.rs:24-66 | before the first sync and after a promoted one the sync invariant holds |
| D1Sync.StepKeepsInv | src/data/sync.rs:67-178 | every effect of a cycle, every local write and a crash between any two effects keep the invariant |
| D1Sync.RemoteIsAlwaysAccountedFor | src/data/sync.rs:67-178 | over every run, whenever a snapshot exists the remote equals it, or equals the source of an uploaded, unpromoted payload whose key is still in history |
| D1Sync.CycleOutcome | src/data/sync.rs:67-178 | what one uninterrupted cycle leaves in remote, snapshot and history |
| D1Sync.QuietCycleSyncsIff | src/data/sync.rs:94-178 | from a quiet state a cycle brings the remote up to date exactly when the key is new or nothing changed |
| D1Sync.RetryAppliesOnce | src/data/sync.rs:103-127 | a retry after an unpromoted upload promotes without applying the payload again |
| D1Sync.LostSnapshotRepairedIff | src/data/sync.rs:460-543 | exact condition under which the full dump repairs a lost snapshot |
| D1Sync.DroppedTableSurvivesDump | src/data/sync.rs:506-543 | a failing case: a table dropped locally survives on the remote |
| D1Sync.OneCycleRecovers | src/data/sync.rs:426-458 | wherever a run was cut short, the next uninterrupted cycle that meets the hypotheses makes local, remote and snapshot agree |
| D1Sync.RepeatedChangeIsNotSent | src/data/sync.rs:199-214 | for any two databases and any history without the two keys: a change repeated after being undone is not sent, the snapshot moves on, and no later cycle sends it |
| D1Sync.RepeatedChangeAfterFirstSync | src/data/sync.rs:67-178 | a fresh installation is in such a state after its first sync, so the failure is reachable |
| D1Sync.Syncer.KeyExists | src/data/sync.rs:329-355 | finds a key exactly when history holds it, as one step |
| D1Sync.Syncer.Execute | src/data/sync.rs:129-162 | payload and history row go up together, or the failure leaves either both or neither |
| D1Sync.Syncer.PromoteSnapshot | src/data/sync.rs:426-458 | stage, remove, rename as separate steps; success leaves the source as snapshot |
| D1Sync.NewestRowsStay | src/data/sync.rs:357-378 | for distinct stamps a prune leaves exactly the retained number of rows, unchanged, each newer than each row that went; 0 retains all |
| D1Sync.Syncer.PruneSyncHistory | src/data/sync.rs:357-378 | pruning keeps the newest retained rows; it can fail without effect, or be applied and reported as failed |
| D1Sync.Syncer.SyncToD1 | src/data/sync.rs:24-178 | whatever fails, the effects are a run of the step machine; success means promoted, a duplicate means nothing was sent |
| SqlText.EscapedLiteralReadsBack | src/data/sync.rs:195-197 | an escaped literal is read back as the value it was made from, and ends where it was meant to |
| SqlText.HistoryRowReadsBack | src/data/sync.rs:224-245 | key, name, time and mode in the history INSERT are read back unchanged, whatever characters they hold |
| SqlText.WrapSyncSql | src/data/sync.rs:216-259 | the script is the table statement, the payload ended by a line break, and an INSERT whose literals read back |
| SqlText.CanonicalizeTwice | src/data/sync.rs:207-214 | the canonical form is canonical, so a payload and its canonical form share a key |
| SqlText.CanonicalKeepsText | src/data/sync.rs:207-214 | the form keeps every character but white space, and every non-blank line, in order |
| SqlText.SameFormIff | src/data/sync.rs:207-214 | two payloads share a form exactly when they have the same non-blank lines up to white space at the ends; so they carry the same text |
| SqlText.BlankIff | src/data/sync.rs:94-98 | the payloads skipped as blank are those with an empty canonical form |
| ImageSwap.IdleIsSound | src/service/account.rs:162-232 | with no call under way and nothing orphaned the invariant holds |
| ImageSwap.StepKeepsInv | src/service/account.rs:162-311 | every await of every call, with any outcome, keeps each stored object owned by exactly one of row, call and leak |
| ImageSwap.WinTrades | src/data/database.rs:771-821 | a won compare-and-set exchanges the call's new object for the row's old one |
| ImageSwap.RowNamesStoredObjects | src/service/account.rs:162-311 | under any interleaving, failures and crashes, the account row names only objects in storage |
| ImageSwap.StorageSettles | src/service/account.rs:162-311 | once all calls are done, storage holds exactly the row's objects and what faults orphaned; without faults exactly the row's objects |
| ImageSwap.OneWinnerPerImage | src/data/database.rs:771-821 | over every run, of all calls that ever read one image, or none, at most one replaces it |
| ImageSwap.LosersAreToldSo | src/service/account.rs:186-215 | every other call that had read the image by then is never told Ok |
| ImageSwap.WinnerIsInstalled | src/data/database.rs:771-821 | the winner's key is what its column then shows and what its caller is told; the other column is untouched |
| ImageSwap.LoneCallReplaces | src/service/account.rs:162-311 | an undisturbed call installs the new object, removes the old one, and touches nothing else |
| ImageSwap.CommittedErrorDangles | src/service/account.rs:186-232 | if an error is reported for a change that was made, the roll-back deletes the current image |
| ImageSwap.Server.UpdateKeyIfMatches | src/data/database.rs:771-821 | updates the column exactly when it still holds the expected key |
| ImageSwap.Server.Replace | src/service/account.rs:176-232 | from the upload on: Ok exactly when the compare-and-set went through, the losing object handed to clean-up |
| ImageSwap.Server.UpdateImage | src/service/account.rs:162-311 | whatever the other calls do meanwhile, the invariant holds, the call ends owning nothing, and Ok means installed |
| PageLoop.FilterMutedThreads | src/service/timeline.rs:361-382 | keeps exactly the statuses whose thread root is not muted, in order |
| PageLoop.PushUntilFull | src/service/timeline.rs:343-351 | pushing stops at the limit and loses nothing before it |
| PageLoop.FetchLimitIs | src/service/timeline.rs:327-330 | three times the limit, never more than 200, for every limit |
| PageLoop.VisibleMembers | src/service/timeline.rs:361-382 | a row is shown exactly when it is there and its thread is not muted |
| PageLoop.PageTurn | src/service/timeline.rs:335-341 | reading a page splits the remaining rows into the page and what its last id leads to |
| PageLoop.StayOnTrack | src/service/timeline.rs:334-356 | one turn of the loop keeps the filtered goal in reach, and a full result or a short page has reached it |
| PageLoop.CollectVisibleStatuses | src/service/timeline.rs:308-359 | terminates; never shows a muted thread; equals the first `limit` unmuted rows whenever the query resumes correctly, for every limit, mute set and cursor |
| PageLoop.FollowPages | src/data/database.rs:2580-2681 | following the cursor with any page size reads the whole list once, in order |
| Paging.IdCursorResumesIff | src/data/database.rs:1592-1674 | an id cursor over a listing read from the top resumes after every row exactly when ids descend down it |
| Paging.IdCursorResumesFromIff | src/data/database.rs:1592-1720 | read from a cursor, listed or not, exactly when the ids below the cursor descend |
| Paging.BackdatedIdIsSkipped | src/data/database.rs:1592-1674 | a status whose id and date disagree is skipped |
| Paging.MarkedResumes | src/data/database.rs:2580-2681 | favourites and bookmarks resume after every row of the list, ties on the timestamp included |
| Paging.MarkedResumesFromListed | src/data/database.rs:2580-2681 | and so does every further page, from any listed status |
| Paging.UnmarkedResumesIff | src/data/database.rs:2580-2681 | a cursor that is not, or no longer, marked resumes exactly when the smaller ids are at the end of the list |
| Paging.UnmarkedCursorDoesNotResume | src/data/database.rs:2580-2681 | a failing case: two favourites and a cursor whose mark is gone |
| Paging.ListingAdvances | src/data/database.rs:1592-1720 | every further page selects strictly less, so the loop terminates on every table |
| Paging.ListingsThatFillPagesExactly | src/service/timeline.rs:45-128 | for every listing and every cursor, exactly when pages are filled without gaps or repeats |
| Threads.ResolveThreadRootUri | src/data/database.rs:851-869 | the walk terminates on every reply graph and returns the root |
| Threads.RootOfParentIff | src/data/database.rs:851-869 | a status and its parent share a root exactly when the status is not in a reply loop of two or more |
| Threads.RootIdentifiesThread | src/data/database.rs:851-869 | without loops, two statuses share a root exactly when they are in one thread |
| Threads.MuteThroughAnyMember | src/service/status.rs:835-848 | muting through any member hides exactly its thread, unmuting through any other restores it |
| Threads.LoopEscapesMute | src/service/status.rs:835-848 | with two statuses replying to each other, muting one leaves the other visible |
| Threads.RootAfterInsert | src/data/database.rs:851-869 | storing a missing status moves the threads that ended at it to its own root, and no others |
| Threads.InsertKeepsHiddenIff | src/service/timeline.rs:361-382 | storing a missing status keeps everything hidden that was, exactly when its URI is not on the mute list or its own root is |
| Threads.DeleteKeepsHiddenIff | src/service/timeline.rs:361-382 | deleting a status keeps everything hidden that was, exactly when its thread is not muted or its URI is on the mute list |
| Threads.ArrivingParentUnmutes | src/service/status.rs:835-848 | a failing case: the missing parent of a muted status arrives and is itself a reply |
| Ordering.AheadIsStrictTotal | src/data/cache.rs:515-530 | the order (created_at, id) descending is a strict total order |
| Ordering.CutOffIsBehindKept | src/data/cache.rs:515-530 | `LIMIT -1 OFFSET n` removes exactly what is behind everything kept |
| Ordering.TopStreams | src/data/cache.rs:515-530 | keeping the newest n one insert at a time equals keeping the newest n of all |
| RateLimiter.Limiter.CheckAndIncrement | src/federation/rate_limit.rs:108-132 | accepts, counts, makes room and evicts as the step function whose properties follow |
| RateLimiter.CountGovernsCheck | src/federation/rate_limit.rs:108-142 | the reported count is below the maximum exactly when the next request is accepted, which then counts one more; no other key changes unless evicted |
| RateLimiter.Limiter.EvictOldest | src/federation/rate_limit.rs:89-105 | drops the entry with the oldest window, if there is one |
| RateLimiter.EvictionSparesOthers | src/federation/rate_limit.rs:89-132 | a request loses sight of another open window only for a new key at the cap, of one only, and of the oldest |
| RateLimiter.OthersKeepTheirEntry | src/federation/rate_limit.rs:108-132 | entries that stay are unchanged, and below the cap or for a tracked key all stay |
| RateLimiter.StepKeepsBounds | src/federation/rate_limit.rs:30-132 | tracked keys never exceed the cap, counts never exceed the maximum |
| RateLimiter.RunsStayBounded | src/federation/rate_limit.rs:30-166 | the same over every run |
| RateLimiter.AlwaysBoundedIff | src/federation/rate_limit.rs:30-132 | both bounds hold over every run exactly when the maximum is at least one |
| RateLimiter.PruningNeverShows | src/federation/rate_limit.rs:80-166 | a run and the run without its prunes answer every check and count alike, even at the cap |
| RateLimiter.ZeroLimitShowsPruning | src/federation/rate_limit.rs:30-39 | with a maximum of zero and a real window pruning is observable |
| RateLimiter.PruneUnobservableIff | src/federation/rate_limit.rs:80-166 | exact condition under which pruning is unobservable |
| RateLimiter.RateBound | src/federation/rate_limit.rs:30-39 | at most `2 * max - 1` accepted calls of a key in any half-open interval of one window, across any prunes |
| RateLimiter.RateBoundIsTight | src/federation/rate_limit.rs:30-39 | the bound is attained |
| TimelineCache.Cache.InsertStatus | src/data/cache.rs:459-537 | upsert by id, TTL prune and size limit as one step; a duplicate URI leaves the cache alone |
| TimelineCache.Cache.GetByUri | src/data/cache.rs:593-634 | finds a row with that URI exactly when there is one not older than the TTL |
| TimelineCache.RemovalFreesUri | src/data/cache.rs:653-666 | removing a URI removes one row at most and frees the URI for an insert under any id |
| TimelineCache.InsertKeepsBounds | src/data/cache.rs:459-537 | never more than `max_items` rows, nor two rows with one URI |
| TimelineCache.InsertDropsOnlyOldOrLast | src/data/cache.rs:459-537 | an insert drops another row only after a week, or with as many rows ahead of it as the cache holds |
| TimelineCache.InsertStores | src/data/cache.rs:459-537 | the new row is there as inserted unless that many rows are ahead of it; a URI held under another id changes nothing |
| TimelineCache.StreamingIsBatch | src/data/cache.rs:459-537 | after any inserts with distinct ids and URIs, none expired, exactly the `max_items` greatest under (created_at, id) remain |
| TimelineCache.ReinsertionForgets | src/data/cache.rs:468-535 | with a repeated id the cache can hold an older row than one it evicted |
| ProfileCache.Cache.PruneExpiredIfNeeded | src/data/cache.rs:902-912 | prunes at most once a minute and records when |
| ProfileCache.PrunesOnceAMinute | src/data/cache.rs:894-912 | expired rows go when none were pruned in the last minute, and only then; no other row ever does |
| ProfileCache.Cache.Get | src/data/cache.rs:1037-1088 | answers from unexpired rows only, whatever was pruned |
| ProfileCache.Cache.GetByUri | src/data/cache.rs:1093-1147 | the newest unexpired row of the actor |
| ProfileCache.Cache.Insert | src/data/cache.rs:1150-1200 | upsert followed by the deferred prune |
| ProfileCache.Cache.UpdateFromActivity | src/data/cache.rs:1207-1295 | rewrites all live rows of the actor, one insert at a time, to the patched fields, and no others |
| ProfileCache.EachMemberItsField | src/data/cache.rs:1238-1290 | each member of an Update sets its own field, a missing member none |
| ProfileCache.UpdateTouchesOnlyItsActor | src/data/cache.rs:1207-1295 | an Update refreshes exactly its actor's unexpired rows, and none when it names another actor |
| ProfileCache.StepSeesOnlyLive | src/data/cache.rs:894-1295 | caches with the same live rows answer alike and keep the same live rows |
| ProfileCache.DeferredPruneNeverShows | src/data/cache.rs:894-1295 | over every run with a monotone clock the cache behaves as one that prunes before each call, for any last prune time |
| ProfileCache.BackwardClockShowsPrune | src/data/cache.rs:902-912 | with a clock that steps back the prune is observable |
| Polls.Store.CastBallot | src/data/database.rs:3882-4018 | the ballot loop with its roll-back: the whole ballot or nothing |
| Polls.Store.InsertPoll | src/data/database.rs:1098-1129 | inserts the poll and its options in order, or nothing |
| Polls.VoteKeepsInv | src/data/database.rs:3882-4018 | a vote keeps all counts equal to the vote rows |
| Polls.CreateKeepsInv | src/data/database.rs:1098-1129 | so does creating a poll with its options |
| Polls.RunKeepsInv | src/data/database.rs:3882-4018 | and every run of both |
| Polls.ErrorsChangeNothing | src/data/database.rs:4006-4018 | any error leaves every table as it was |
| Polls.CountsAgree | src/data/database.rs:3985-4003 | after every run: votes equal rows and the sum over options, voters equal distinct voters, and in a single-choice poll both are equal |
| Polls.VoteIsWholeBallot | src/data/database.rs:3882-4018 | a voter's rows come from one ballot |
| Polls.BallotIsFinal | src/data/database.rs:3882-4018 | no later operation adds to a ballot or takes from it |
| Polls.LateVoteIsRefused | src/data/database.rs:28-36 | a vote at or after the stored expiry, in a poll marked expired, or with an unreadable expiry, is refused |
| Polls.FirstVoteCounts | src/data/database.rs:3882-4018 | before the expiry a first vote for an option of the poll goes through and counts once |
| Polls.CreatedPollIs | src/data/database.rs:1098-1129 | a new poll has its options with their titles in order, no votes, and its expiry |
| Idempotency.Store.ReserveKey | src/data/database.rs:1450-1471 | reserves exactly a free slot or one pending for more than five minutes |
| Idempotency.Store.StoreResponse | src/data/database.rs:1474-1507 | stores the response, inserting the row if it is missing |
| Idempotency.Store.ClearPendingKey | src/data/database.rs:1510-1524 | removes only a pending reservation |
| Idempotency.ResponseStaysIff | migrations/009_status_create_idempotency.sql:14-20 | a stored response stays, and its slot stays taken, exactly as long as no insert prunes it after thirty days |
| Idempotency.StoredForThirtyDays | src/data/database.rs:1421-1507 | for thirty days after the row was made that is unconditional |
| Idempotency.OldResponseIsForgotten | migrations/009_status_create_idempotency.sql:14-20 | after that the next insert makes the slot reservable again |
| Idempotency.ReservationsAreApart | src/data/database.rs:1450-1471 | two successful reservations with no clear between them are more than five minutes apart |
| Idempotency.ReservationLifetime | src/data/database.rs:1450-1524 | a reservation bars others for exactly five minutes or until cleared; a stored response bars them and is not cleared |
| Hashtags.SkipHtmlTag | src/data/database.rs:48-65 | finds the end of a closed, quote-aware HTML tag, or nothing |
| Hashtags.FirstCloseEnds | src/data/database.rs:48-65 | the first `>` outside quotes ends the tag |
| Hashtags.QuotedIsPassed | src/data/database.rs:48-65 | anything inside quotes is passed over, a `>` and the other quote included |
| Hashtags.UnclosedQuote | src/data/database.rs:48-65 | a tag whose quote is never closed has no end |
| Hashtags.BoundaryDecides | src/data/database.rs:38-46 | a `#` opens a tag unless `&`, `/` or a tag character stands right before it |
| Hashtags.TagAlphabet | src/data/database.rs:38-40 | the ends of the ranges of tag characters, and their neighbours |
| Hashtags.ReadTagAt | src/data/database.rs:82-100 | reads the tag behind a `#` through markup |
| Hashtags.ExtractHashtags | src/data/database.rs:67-116 | the scan always advances and equals its declarative form |
| Hashtags.TagIsLongestPrefix | src/data/database.rs:67-116 | the tag is the lower-cased, unique longest hashtag prefix of the text without closed HTML tags |
| Hashtags.FirstOccurrencesOrdered | src/data/database.rs:67-116 | the output has no duplicates, misses nothing and is in order of first occurrence |
| Hashtags.ExtractedAreTags | src/data/database.rs:67-116 | extracted tags are non-empty, lower-case, pairwise different, and need a `#` |
| Hashtags.ScanIsCompleteIff | src/data/database.rs:67-116 | the scan reads the tag behind every boundary `#` exactly when no `#` with a tag stands in the text that another tag is read through |
| Hashtags.PlainScanIsComplete | src/data/database.rs:67-116 | so it misses none in content without markup |
| Hashtags.MarkupHidesHash | src/data/database.rs:67-116 | a failing case: a `#` inside an HTML tag that a hashtag is read through |
| HashtagIndex.ReplaceIndexes | src/data/database.rs:935-974 | reindexing makes a status's rows exactly its tags and touches no other status |
| HashtagIndex.StepKeepsIndex | src/data/database.rs:979-1256 | every insert, update and delete but the media variant keeps the whole index in step; any error, also of media or poll, changes nothing |
| HashtagIndex.RunKeepsIndex | src/data/database.rs:979-1256 | the same over every run |
| HashtagIndex.MediaUpdateKeepsIndexIff | src/data/database.rs:1260-1361 | the media variant keeps the index exactly when the tags do not change |
| HashtagIndex.MediaEditLeavesStaleTag | src/data/database.rs:1260-1361 | a failing case: a status posted with a tag and emptied with its media stays listed under it |
| HashtagIndex.SelectBatch | src/data/database.rs:354-448 | the batch is strictly ascending, no longer than the limit, leaves out nothing below its last id, and nothing at all when short |
| HashtagIndex.MissingIff | src/data/database.rs:354-448 | what the backfill query leaves out needs no rows |
| HashtagIndex.Database.IndexMissing | src/data/database.rs:354-448 | a status without rows gets exactly its tags |
| HashtagIndex.Database.Backfill | src/data/database.rs:354-448 | terminates, indexes every status that had no rows, leaves all others alone |
| Addresses.MatchIffSameAccount | src/data/database.rs:227-243 | two addresses match exactly when they stand for one account, so matching is an equivalence |
| Addresses.ExplicitPortFolds | src/data/database.rs:141-163 | the explicit port does not depend on letter case |
| Addresses.DecimalReadsBack | src/data/database.rs:141-163 | a formatted port parses back to itself |
| Addresses.PortReadsBack | src/data/database.rs:141-163 | a port behind a host, or behind a bracketed literal, is read back exactly when it fits 16 bits |
| Addresses.NoPort | src/data/database.rs:141-163 | two colons without brackets name no port, nor does none |
| Addresses.FormatUnique | src/data/database.rs:184-225 | for hosts that are no IPv6 literals the spelling determines user, host and port |
| Addresses.CandidatesAre | src/data/database.rs:184-225 | the candidates are the target as written and its account under each port taken for the same |
| Addresses.BareLookupAgrees | src/data/database.rs:184-243 | for plainly spelt rows of any host and targets without an IPv6 host the candidate lookup and the matcher agree |
| Addresses.Ipv6LookupIsLiteral | src/data/database.rs:165-225 | for an IPv6 target the lookup finds a row exactly when it is the target as written |
| Addresses.LookupAgreesIff | src/data/database.rs:184-243 | for every plainly spelt row and target, exactly when lookup and matcher agree |
| Addresses.Ipv6LookupMisses | src/data/database.rs:165-171 | a failing case: one IPv6 address with and without its port |
| Follows.RulesAreSound | src/data/database.rs:227-243 | the matcher of the source compares accounts, for any default port |
| Follows.Store.InsertIfAbsent | src/data/database.rs:2135-2179 | inserts exactly when no row matches and the id is unused |
| Follows.Store.Delete | src/data/database.rs:2212-2227 | removes exactly the matching rows, one case-insensitive DELETE each |
| Follows.Store.GetFollowUri | src/data/database.rs:2182-2209 | the URI of the newest row under any candidate spelling |
| Follows.InsertAddsTheAccount | src/data/database.rs:2135-2179 | an insert reports success exactly when the account was absent, and adds that account alone |
| Follows.DeleteRemovesTheAccount | src/data/database.rs:2212-2227 | a delete removes that account alone |
| Follows.DeleteRemovesOneRow | src/data/database.rs:2212-2227 | and that is at most one row |
| Follows.RunRefinesSet | src/data/database.rs:2135-2227 | over every run the table refines a set of accounts with one row each |
| Follows.LookupFindsWhatDeleteRemoves | src/data/database.rs:2182-2227 | among plainly spelt rows of any host, the lookup of a target without an IPv6 host finds a row exactly when a delete would remove one |
| Follows.LookupAgreesWithDeleteIff | src/data/database.rs:2182-2227 | for every plainly spelt target, IPv6 included, what is found would be removed, and exactly when the two agree |
| Follows.Ipv6RowIsRemovedUnfound | src/data/database.rs:2182-2227 | a failing case: an IPv6 row that is removed and cannot be found |
| Inbox.RefusalsChangeNothing | src/federation/activity.rs:369-402 | a refused activity changes nothing; Forbidden is returned exactly for known activities of blocked domains |
| Activities.KindsHaveNames | src/federation/activity.rs:283-297 | a type is known exactly by its name |
| Activities.TargetForms | src/federation/activity.rs:136-173 | the forms in which a Delete and a Follow name their target |
| Activities.NamedIsMentioned | src/federation/activity.rs:1091-1137 | a text around the user's address in `to`, `cc` or a Mention tag is a mention |
| Activities.MentionIsNamed | src/federation/activity.rs:1091-1137 | and there is no mention without one |
| Activities.OwnStatusIsLocal | src/federation/activity.rs:1158-1167 | every status under `/users/` on the own domain is local |
| Activities.ForeignStatusIsNotLocal | src/federation/activity.rs:1158-1167 | one on another domain is local only if it contains the local address |
| Inbox.ProfilesNeverChange | src/federation/activity.rs:405-511 | no run of the inbox changes the profile cache, although an Update handler exists |
| Inbox.UpdateHandlerRefreshes | src/federation/activity.rs:632-641 | what is lost: the handler would have brought the cached profile up to date |
| Inbox.NotifiesExactly | src/federation/activity.rs:518-990 | an accepted activity appends exactly one notification with the actor as origin and kind and status read off the activity, if it concerns the local user and is no repeated follow, and none otherwise |
| Inbox.FollowNoticeNeedsUndo | src/federation/activity.rs:696-775 | over every run a follower does not notify as a new one again until an Undo has removed the row |
| Inbox.StatusLostIffOwnerDeletes | src/federation/activity.rs:644-693 | over every run a stored status is lost exactly when it is remote and its owner's Delete was accepted |
| Inbox.FollowerLostOnlyToItsActor | src/federation/activity.rs:798-896 | over every run a follower row stays as it is until its own actor's Undo names it |
| Inbox.FollowerGainedOnlyFromItsActor | src/federation/activity.rs:696-775 | over every run a new follower row comes from its own actor's Follow |
| Inbox.FollowRecords | src/federation/activity.rs:696-775 | what an accepted Follow records, and when it is an error |
| Inbox.UndoRemovesExactly | src/federation/activity.rs:798-896 | an accepted Undo removes a row exactly when the address is the actor's and the id is the row's or none |
| Inbox.UndoForms | src/federation/activity.rs:798-896 | the forms of an Undo and what each names |
| Inbox.CachedComeFromFollowees | src/federation/activity.rs:594-628 | over every run a newly cached status is a followee's post filed under its sender |
| InboxCache.FreshPostLostIffOwnerDeletes | src/federation/activity.rs:644-672 | apart from new posts, a fresh cached post is lost exactly to its owner's accepted Delete |
| InboxCache.CachedPostLostOnlyTo | src/federation/activity.rs:594-672 | over every run a cached post is lost only by age, to its owner's Delete, or to a followee's post that replaces or outranks it |
| InboxCache.FolloweePostIsCached | src/federation/activity.rs:594-628 | a followee's post is cached under its sender with its own date or the time of arrival, cleaned, and notifies nobody |
| Inbox.DropRestoresIff | src/data/database.rs:2246-2287 | removing rows after one was added gives back the table exactly when no older row is removed with it |
| Inbox.UndoRestoresIff | src/federation/activity.rs:798-896 | Follow then Undo restores the follower table exactly when the Undo names no older row |
| Inbox.UndoTakesOlderRow | src/data/database.rs:2264-2287 | an older row of the actor with the same activity id goes with it |
| InboxExamples.UndoTakesBothRows | src/data/database.rs:2264-2287 | a failing case from the empty table: two follows under one id from two ports, one undo, both rows gone |
| Inbox.ReadAlike | src/federation/activity.rs:31-106 | the two modules parse an address alike, up to brackets and a hidden port 80 |
| Inbox.SameActorIff | src/federation/activity.rs:98-130 | two addresses are one actor exactly when they stand for one account, so ownership is an equivalence |
| Inbox.OwnsIff | src/federation/activity.rs:650-663 | a post belongs to the actors that stand for its account under their own scheme, and to no others |
| Inbox.MatchersDisagreeIff | src/federation/activity.rs:98-130 | for one user at one host, exactly when the two address matchers disagree |
| InboxExamples.MatchersDisagreeOnPort80 | src/federation/activity.rs:98-130 | a failing case: one actor with and without port 80, under https |
| Inbox.Processor.HandleCreate | src/federation/activity.rs:518-625 | the Create handler: its two notification branches and the cache insert |
| Inbox.Processor.HandleDelete | src/federation/activity.rs:644-693 | the Delete handler on cache and table |
| Inbox.Processor.HandleFollow | src/federation/activity.rs:696-775 | the Follow handler: validation, a taken address, the new row and its notification |
| Inbox.Processor.DeleteFollowers | src/data/database.rs:2246-2287 | both follower deletes remove exactly the actor's rows, or those with the Follow's id |
| Inbox.Processor.HandleUndo | src/federation/activity.rs:798-896 | the Undo handler in its three forms |
| Inbox.Processor.ProcessActivity | src/federation/activity.rs:369-424 | block check, decision and dispatch as the step function of the lemmas above |
| OAuthRequests.NormalizeKeepsScopes | src/api/mastodon/apps.rs:77-85 | normalizing keeps the scopes, changes no scope decision and is idempotent |
| OAuthRequests.RequestedIs | src/api/mastodon/apps.rs:546-560 | exactly the scopes asked for, or the fallback's when none are |
| Text.WordsKeepText | src/api/mastodon/apps.rs:77-91 | splitting loses white space only |
| OAuthRequests.ValidatedRequestIsSound | src/api/mastodon/apps.rs:278-334 | a validated request names a registered app and redirect URI and asks for scopes of that app |
| OAuthRequests.ValidRequestIsAccepted | src/api/mastodon/apps.rs:278-334 | a request in order is accepted with the app, redirect URI and scopes it names |
| OAuth.RulesAreSound | src/api/mastodon/apps.rs:77-91 | the checks of the source satisfy the laws the safety proofs rely on |
| OAuth.StepKeepsInv | src/api/mastodon/apps.rs:336-640 | issuing, selecting, deleting and minting, one SQL statement at a time, keep the invariant |
| OAuth.RunKeepsInv | src/api/mastodon/apps.rs:336-640 | and so does every interleaving |
| OAuth.RunKeepsSpent | src/data/database.rs:2991-3025 | a code whose row is gone stays gone, and no later step lets another request take it |
| OAuth.CodeTakenOnce | src/data/database.rs:2991-3025 | once a request has taken an authorization code, no other request takes one with that text at any later time, also if the first was then refused its token (section 4.1.2 of RFC 6749) |
| OAuth.TokensComeFromDistinctCodes | src/api/mastodon/apps.rs:524-640 | tokens map one-to-one to consumed codes of their app, with scopes within the code's and the app's |
| OAuth.TokensNeedTheSecret | src/api/mastodon/apps.rs:524-543 | over every run a token goes back to a request with the client id and secret of its app |
| OAuth.OrderlyRequestIsServed | src/api/mastodon/apps.rs:524-640 | a token request in order is given its token, with exactly the scopes it asked for |
| OAuth.GrantIsRedeemable | src/api/mastodon/apps.rs:278-640 | a code granted for scopes of an app is traded within ten minutes, by the same client and redirect URI, for a token with just those scopes |
| OAuth.LateRequestIsRefused | src/data/database.rs:2991-3007 | a code selected ten minutes after its issue or later is purged and the request refused |
| OAuth.Server.Select | src/data/database.rs:2976-3011 | the SELECT by code text |
| OAuth.Server.Take | src/data/database.rs:3011-3025 | the DELETE whose affected rows decide who took the code |
| OAuth.Server.Consume | src/data/database.rs:2991-3025 | with other requests in between, a code is returned only for the app and redirect URI it was issued to, before it expires |

## Left out

- URL parsing, host names and percent-encoding: a parameter that gives a host or rejects the text; `extract_actor_address`, `is_local_follow_target` and the block-list candidates of an actor are parameters of the inbox.
- SHA-256, ULIDs, HTML cleaning and RFC 3339 parsing: abstract functions or fresh values.
- SQLite, `sqldiff`, `wrangler` and object storage: only the semantics used; a script is taken to be applied as a whole or not at all.
- Database errors other than violated constraints, except where a step machine has them as outcomes (`ImageSwap`, `D1Sync`).
- Several clock readings inside one locked call are taken as one (rate limiter, timeline cache, profile update).
- RateLimiter.RateBound: says nothing of a key that was evicted with its window open, reset or cleared; the limiter forgets such a key.
- TimelineCache.StreamingIsBatch: assumes distinct ids and URIs and no expiry, because `TimelineCache.ReinsertionForgets` shows that it fails otherwise.
- SqlText.WrapSyncSql: the fixed words of the two statements are parameters; nothing is said of how SQL reads the payload between them.
- Threads.MuteThroughAnyMember: the reply table is the same when muting and when reading; what a change between them does is `Threads.InsertKeepsHiddenIff` and `Threads.DeleteKeepsHiddenIff`.
- Inbox.MatchersDisagreeIff: assumes that the URL parser reads the port that the text of the authority names.
- Addresses.LookupAgreesIff: speaks of plain spellings; a port with leading zeros, say, is matched but not among the candidates.
- Paging.MarkedResumes: assumes one row per status and a table that does not change between pages.
- D1Sync.RemoteIsAlwaysAccountedFor: assumes of a run that a sync in doubt is a retry on the uploaded source and that a key is found only for what the remote already holds; `D1Sync.RepeatedChangeIsNotSent` shows why.
- OAuth.TokensComeFromDistinctCodes: tokens of the client-credentials grant are modelled but carry no code; revocation and expiry of tokens are not.
- Inbox.StatusLostIffOwnerDeletes: counts only what the inbox does; deletes by the local user and cascades to attachments, polls and notifications are outside.
- Inbox.CachedComeFromFollowees: visibility, attachments and reply target of a cached status are not modelled.
- HashtagIndex.StepKeepsIndex: full-text search and status edit history are not modelled.
- The separate `create_poll`, which is not transactional, and deletion of polls with their statuses.
- The account's other fields, and `upsert_account`, which writes the whole row outside the compare-and-set protocol.
- After a lost compare-and-set the account is read once more to choose between two errors; the model reports one.
- Sending the Accept, delivery queues, signatures, sessions, WebFinger and actor fetching.
- OAuth scope routing per endpoint, the consent page and its cookie: finite tables and rendering.
- HTTP handlers, JSON shaping, metrics, lists, filters, scheduled statuses, conversations, backups and Turso replication: single statements or plumbing.
- List and account timelines, and the merging of cached with stored statuses: thin uses of the queries modelled.
