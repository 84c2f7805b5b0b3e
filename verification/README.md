# SMAFE in Dafny

SMAFE extracts feature vectors from audio files, stores them in PostgreSQL, keeps an index of
nearest neighbours and places tracks on a map. This project models the parts of it whose
correctness depends on long runs of small steps, and proves what they are for.

**The neighbour index** (`FileJoin`, `Store`, `Meetings`, `TopkIndex`, `Cache`, `JobOrder`,
`Completeness`, `Daemon`, `LostRows`, `History`). The distance daemon takes one track at a time,
computes the distances to all lower tracks and stores the k best. A row in the other direction is
stored only while it beats a limit in a cache that is cleared, reloaded from the table, cut and left
short. The main theorem is about every run (`History.AnyHistory`): any mixture of files and feature
vectors that other programs store, before a job, between its choice and its claim, before and after
its own vector is fetched, when it has chosen its tracks and between any two of its distances; rounds
of the job loop with filters by type, jobs that another process takes, jobs that fail at any point,
daemon restarts, bulk mode and purges. After each of them the table answers every query within the
first k as if the distances of all pairs that met in a finished job had been stored, no ordered pair
has two rows, and no pair has met twice (`History.Ask`). Queries join the rows with the file table, also the
query that reloads a cached list, so a track with several files is found several times. The promise is
therefore about files, and it survives that files are added later (`TopkIndex.IndexWithFile`); what it
means for the k nearest tracks is settled by `Cache.SkipLosesTrackIff`, and when a query within a
collection may rely on it by `TopkIndex.CollectionAnswer`.

The invariant for the cache is weak on purpose: a cached list is sorted and is made of values that
are recorded for its track. It survives the insertion loop that drops a value not below any kept one,
and lists that outgrow k. Two things break it, and both conditions are exact. A job that fails leaves
its distances behind, because the queue is dropped and the cache is not undone
(`Daemon.Daemon.FailTask`). A lower track that arrives between the choice of a job and the choice of
its tracks is met before its own turn; its own job then pushes distances behind a list that is not
empty, and the cache stays sound if and only if they are in order there (`Daemon.Daemon.RunTask`).
`Cache.SkipHarmsIff` says when a later skip then loses a row, and `LostRows` runs one small case of
each from an empty store. A run ends a process whose cache is not sound, as an operator would have to;
the next one starts with an empty cache and on a table that has lost nothing, so the promise goes on.
In a calm run, without failures and without such late tracks, the cache is always sound.

Which pairs meet is settled exactly: in a calm run a job meets the lower tracks whose jobs are done
(`JobOrder.AsProcessedAfterJobIff`), and answers over all processed tracks are complete for all
distance functions if and only if the jobs ran in increasing track order
(`Completeness.TableCompleteIffInOrder`). When tracks arrive in that order, the jobs run in it, and no
late track can come. In general, failed and late jobs included, the answers over a list of tracks are
complete if and only if each of them has met exactly the others
(`Completeness.TableCompleteIffAllMet`). Values pass through "%f", that is six decimals, on their way
into the table.

**The live query** (`LiveQuery`). Threads take loop iterations in any order, sort their private
lists and contribute their first k in any order of the critical sections; what is sent is always the
k nearest of the loaded vectors, each with its own distance.

**The command line** (`OptionSyntax`, `Spellings`, `Getopt`, `Argtable`, `Matching`, `ArgParse`). `Scanner` permutes argv in
place, call by call. A whole scan is proved equal to a recursive reference parser, whose division of
the arguments is a stable partition, and which parses a command line piece by piece: whatever stands
before it, a "--" ends the scan if and only if no option is waiting for it as its argument. The
matcher for untagged arguments, with its two indices and its tentative error, is proved equal to a
greedy reference matching, and counts and errors of the table grow by one for each argument. The
whole of `arg_parse` registers no error if and only if the command line fits the table and gives no
declared option that reads as the scanner's code for a bad one, which is '?' (`ArgParse.ArgParse`,
`ArgParse.QuestionMarkRefused`); every entry then holds the arguments of exactly its options, in order,
and behind them the untagged arguments it has accepted.

**Adding and deleting files** (`Collections`, `Intake`), **the map** (`Bubbles`), **the copy of queued
distances** (`CopyBuffer`) and **loading in pages** (`Loading`) are store state machines: their
invariants are proved for any sequence of jobs, failed ones rolled back. `SharedTables` ties the
tables of the add-file program to those of the daemon and its jobs for the map to the map program,
`CopyBuffer.CommitThroughBuffer` the chunks on the connection to the rows of a commit. The buffer of
the copy has no room for the zero byte behind its text: it is overrun if and only if some lines of one
chunk fill it exactly, which 163840 rows do (`CopyBuffer.FullBuffer`).

**The Somlib files** (`Text`, `Somlib`, `SomlibSyntax`, `SomlibRoundTrip`). The writer and the parser are modelled
character by character, and a label survives the trip if and only if it consists of words joined by
single spaces.

**Numeric kernels** (`Segments`, `BarkBands`, `Statistics`, `StatisticsLaws`) over exact reals: which segments of a
song are analysed, the rescaling in place, the half-overlapping frames, the summation of spectrum
bins into Bark bands, and the seven statistical descriptors.

`Wrappers`, `Strings`, `Arithmetic`, `Ordering` and `Distances` hold what several modules share: options,
searching a text, quotients, a theory of sorting and of "the first k" for any total order, and distance values.

Objects whose methods change their fields are classes here too, loops are loops, and arrays that are
changed in place are arrays. `dafny verify dfyconfig.toml` checks the whole project.

Where code and comments disagree, the model follows the code. Comments inside `calcDistsToAllFvs`
(smafedistd/src/smafedistd.cpp:1082-1099) still tell of versions that met all other tracks and wrote
no reverse rows; the loop meets lower ids only (line 1033) and decides a reverse row for each. Another
(lines 1162-1163) claims that a recorded distance always finds its place in the cached list; one
that is not below any kept value does not, and is not kept. A third gives the copy buffer 10 MB
(smafestore/src/smafestoredb_pq.cpp:2376); it has 5 MiB.

## Model

| member | source | states |
|---|---|---|
| `Ordering.SortSorts` | smafedistd/src/smafedistd.cpp:1207-1211 | sorting gives an ordered rearrangement, for every total order |
| `Ordering.SortIsCanonical` | smafedistd/src/smafedistd.cpp:1207-1211 | there is only one ordered rearrangement, so any correct sort computes it |
| `Ordering.TopKAppend` | smafestore/src/smafestoredb_pq.cpp:2272-2347 | two lists with the same first k still have the same first k after one more value |
| `Ordering.TopKIgnores` | smafedistd/src/smafedistd.cpp:1105-1130 | a value that at least k recorded values do not exceed changes no first-k answer |
| `Ordering.TopKIgnoresIff` | smafedistd/src/smafedistd.cpp:1105-1130 | one more value leaves the first k alone if and only if there are k values that do not exceed it |
| `Ordering.TopKTwice` | smafestore/src/smafestoredb_pq.cpp:2482-2511 | the first k of the first k are the first k |
| `Ordering.TopKLeast` | smafedistd/src/smafedistd.cpp:1481-1502 | nothing that is left out comes before one of the first k |
| `Ordering.TopKMap` | smafedistd/src/smafedistd.cpp:1716-1730 | a monotone change of the values, such as printing, commutes with taking the first k |
| `Ordering.WindowWithin` | smafestore/src/smafestoredb_pq.cpp:2283-2300 | the first k decide every page, by limit and offset, within them |
| `Ordering.WindowContinues` | smafestore/src/smafestoredb_pq.cpp:2283-2300 | a page, by limit and offset, continues the elements before it |
| `Distances.SixDecimalsMonotone` | smafestore/src/smafestoredb_pq.cpp:2403-2404 | printing a distance with "%f" never reverses an order |
| `Distances.SixDecimalsIdempotent` | smafestore/src/smafestoredb_pq.cpp:2403-2404 | a value read back from the table prints as itself |
| `Distances.RoundsToNearest` | smafestore/src/smafestoredb_pq.cpp:2403-2404 | rounding gives the nearest integer and, of two equally near ones, the even one |
| `Distances.SixDecimalsNear` | smafestore/src/smafestoredb_pq.cpp:2403-2404 | printing changes a distance by half a millionth at most |
| `FileJoin.JoinMember` | smafestore/src/smafestoredb_pq.cpp:2283-2300 | an entry is in the join exactly when its track has a file |
| `FileJoin.FirstOfSortedJoin` | smafestore/src/smafestoredb_pq.cpp:2489-2496 | the first k of any list ordered by distance have the same first k rows in the join as all entries, if each has a file |
| `FileJoin.FirstOfJoin` | smafedistd/src/smafedistd.cpp:1716-1730 | so have the k nearest entries in the order of (distance, track, segment) |
| `FileJoin.CopiesIgnoredIff` | smafedistd/src/smafedistd.cpp:1105-1130 | copies of a value, one for each file, leave the first k alone if and only if k values do not exceed it |
| `FileJoin.AnotherFile` | smafestore/src/smafestoredb_pq.cpp:1511-1540 | when stored and true entries agree on the first k rows of the join, they still do after one more file of any track |
| `FileJoin.OneFileEach` | smafestore/src/smafestoredb_pq.cpp:2283-2300 | with one file for each track the join repeats and drops nothing |
| `Store.Store.FinishTransaction` | smafestore/src/smafestoredb_pq.cpp:111-138 | a commit appends the whole queue in order, a rollback nothing, and both empty the queue |
| `Store.Store.CopyDistsToDb` | smafestore/src/smafestoredb_pq.cpp:2370-2480 | the rows of the queue reach the table in order, printed to six decimals |
| `Store.Store.InsertDistanceRecord` | smafestore/src/smafestoredb_pq.cpp:2349-2368 | a record counts as recorded from the moment it is queued |
| `Store.Store.QueryNn` | smafestore/src/smafestoredb_pq.cpp:2272-2347 | the rows of a track joined with the files of its neighbours, all or those of a collection, nearest first, behind an offset and up to a limit, whatever the order of equal ones |
| `Store.Store.PurgeDistanceTable` | smafestore/src/smafestoredb_pq.cpp:2482-2511 | exactly the first k rows of one track remain, for some list of its rows ordered by distance, and every other track keeps its list |
| `Store.PurgeLeavesFirst` | smafestore/src/smafestoredb_pq.cpp:2489-2496 | deleting by the other track's id what comes after the first k leaves the first k, because no id occurs twice |
| `Store.NeighbourTracksDistinct` | smafestore/smafestore.dump.sql:511-517 | the key of the distance table lets no neighbour occur twice in a track's list |
| `Store.TrackLists` | smafestore/src/smafestoredb_pq.cpp:1115-1181 | the two track queries give each track with a feature vector once, the lower ones or all |
| `Store.Store.GetOpenTask` | smafestore/src/smafestoredb_pq.cpp:675-745 | a job is found exactly when an open one passes the filters by distance type and feature vector type, and it is the first of those by type, distance type and track |
| `Store.FirstMeaning` | smafestore/src/smafestoredb_pq.cpp:687-721 | a filter passes the asked distance types and feature vector types, and the first job has the least vector type, then the least distance type, then the least track |
| `Store.FirstIsFirstOfKind` | smafestore/src/smafestoredb_pq.cpp:687-721 | the filters never let a job overtake one of the same kind with a lower track |
| `Store.Store.AddFeatureVector` | smafestore/src/smafestoredb_pq.cpp:1810-1851 | a new vector opens one job for each distance type and nothing else, whichever jobs are claimed |
| `Store.JobClaimed` | smafedistd/src/smafedistd.cpp:1613-1638 | taking a job off the open ones keeps one job for each vector and distance type |
| `Store.JobFinished` | smafedistd/src/smafedistd.cpp:1760-1778 | so does moving it to the finished ones |
| `Meetings.MetByMembers` | smafedistd/src/smafedistd.cpp:1033 | a track has met another one if and only if the job of the higher of the two has compared them |
| `Meetings.MetByAfterJob` | smafedistd/src/smafedistd.cpp:1025-1063 | a job adds its track to those that the lower ones have met, and the lower ones to those of its track |
| `Meetings.MeetingsAfterJob` | smafedistd/src/smafedistd.cpp:1033-1063 | a job repeats no pair that has met before, whatever jobs were done, failed or late |
| `TopkIndex.StartOfJob` | smafedistd/src/smafedistd.cpp:1700-1715 | the promise between jobs is the promise inside a job that has met nobody yet |
| `TopkIndex.ReverseRowRecorded` | smafedistd/src/smafedistd.cpp:1130-1137 | recording a reverse row, which the join repeats for each file, keeps every answer right and every ordered pair unique |
| `TopkIndex.ReverseRowSkipped` | smafedistd/src/smafedistd.cpp:1105-1130 | skipping it keeps every answer right too, when the cached list is full and its last value is not above the distance |
| `TopkIndex.DominatedValue` | smafedistd/src/smafedistd.cpp:1112-1117 | such a cached list, although not the exact first k, proves that k recorded values are not above the distance |
| `TopkIndex.ForwardValues` | smafedistd/src/smafedistd.cpp:1716-1730 | the forward rows chosen by distance, track and segment give the same first k rows of the join as all candidates would |
| `TopkIndex.EndOfJob` | smafedistd/src/smafedistd.cpp:1025-1211 | after a job the table keeps the whole promise for the longer list of meetings, whichever lower tracks the job has met |
| `TopkIndex.IndexWithFile` | smafestore/src/smafestoredb_pq.cpp:1511-1540 | a file stored later changes what queries give but keeps the promise of the table |
| `TopkIndex.MidJobWithFile` | smafestore/src/smafestoredb_pq.cpp:1511-1540 | also when it is stored in the middle of a job |
| `TopkIndex.CollectionAnswer` | smafestore/src/smafestoredb_pq.cpp:2302-2318 | the first m rows of a query within a collection are right, although the table was made for all files, when everything is recorded or they end at or below the k-th distance over all files |
| `TopkIndex.PurgedIndex` | smafestore/src/smafestoredb_pq.cpp:2482-2511 | purging a track, with equal distances in any order, changes no first-k answer |
| `Cache.FirstAbove` | smafedistd/src/smafedistd.cpp:1148-1165 | the insertion point is the first kept value above the new one |
| `Cache.InsertedList` | smafedistd/src/smafedistd.cpp:1147-1165 | an insertion keeps the list sorted and made of recorded values |
| `Cache.ShorterList` | smafedistd/src/smafedistd.cpp:1168-1175 | so does dropping the largest |
| `Cache.OfferedKeepsList` | smafedistd/src/smafedistd.cpp:1139-1177 | the whole update of one list does, with a value that is not kept and with a list that outgrows k |
| `Cache.OfferedIsFirsts` | smafedistd/src/smafedistd.cpp:1139-1177 | a sorted list that does not refuse a distance takes it in at its place, or leaves it out when no kept value is above it; the largest goes when the list is full and a value may be removed, and the counter grows by a value put between two kept ones and falls by one that is dropped |
| `Cache.ReloadedList` | smafedistd/src/smafedistd.cpp:935-947 | a list reloaded from the table is sorted and made of recorded values |
| `Cache.FetchedKeepsCache` | smafedistd/src/smafedistd.cpp:923-1008 | fetching a vector, with or without reload, with or without memory for it, keeps the cache sound while rows are still queued |
| `Cache.OfferedKeepsCache` | smafedistd/src/smafedistd.cpp:1130-1177 | a reverse row together with its cache update keeps all lists sound |
| `Cache.MetAllKeepsPromise` | smafedistd/src/smafedistd.cpp:1025-1204 | meeting any lower tracks in turn, with every fetch, limit test and list update of the code and with files stored before each of them, keeps all answers right and all lists sound |
| `Cache.ForwardSoundIff` | smafedistd/src/smafedistd.cpp:1716-1730 | pushing the forward distances keeps the cache sound if and only if they are in order behind what the job's own list holds already |
| `Cache.JobKeepsPromise` | smafedistd/src/smafedistd.cpp:1025-1730 | a whole job keeps every answer right, and the cache sound if and only if that is so |
| `Cache.SoundAfterRollbackIff` | smafedistd/src/smafedistd.cpp:1828-1850 | when a failing job drops its queue, the cache is sound if and only if its lists are sorted and no value of a dropped row stands in its list more often than in the table |
| `Cache.SkipHarmsIff` | smafedistd/src/smafedistd.cpp:1105-1130 | with any cache, a skip loses a row that an answer needs if and only if the list of the track is not reloaded, is full and ends at or below the distance, while fewer than k recorded values do |
| `Cache.CacheWithFile` | smafestore/src/smafestoredb_pq.cpp:1511-1540 | a file stored later keeps every cached list sound |
| `Cache.SkipLosesTrackIff` | smafedistd/src/smafedistd.cpp:935-947 | counted by tracks instead of files, a skip by a reloaded list loses one of the k nearest if and only if fewer than k recorded tracks are as near, which cannot be while each has one file |
| `Cache.TwoFilesFillTheList` | smafestore/src/smafestoredb.cpp:497-510 | it can be with two files: one neighbour fills the list for k = 2 and the next, farther track is skipped |
| `JobOrder.PairMetIff` | smafedistd/src/smafedistd.cpp:1033 | when each job meets the lower tracks done before it, two processed tracks have met if and only if the lower id was processed first |
| `JobOrder.EveryPairMetIffInOrder` | smafedistd/src/smafedistd.cpp:1033 | then all pairs have met if and only if the jobs ran in increasing track order |
| `JobOrder.LowerTracksAreDone` | smafedistd/src/smafedistd.cpp:1582-1584 | when no job is claimed or failed, every lower track with a vector has its job done before the first open job of its kind |
| `JobOrder.FreshTracksIff` | smafedistd/src/smafedistd.cpp:1683-1692 | the lower tracks that a job queries are those whose jobs are done if and only if that still holds at the query |
| `JobOrder.FrozenTracks` | smafedistd/src/smafedistd.cpp:1693-1704 | with the frozen list of bulk mode the same tracks are met, when that list covers the finished jobs |
| `JobOrder.AsProcessedAfterJobIff` | smafedistd/src/smafedistd.cpp:1025-1063 | after a job the pairs that met still follow from the order of the jobs if and only if it has met exactly the lower tracks whose jobs were done |
| `JobOrder.AllMetIffInOrder` | smafedistd/src/smafedistd.cpp:1033 | as long as they do, each processed track has met exactly the others if and only if the jobs ran in increasing track order |
| `JobOrder.EachPairOnce` | smafedistd/src/smafedistd.cpp:1033 | and then each unordered pair meets exactly once, in the job of the higher id |
| `Completeness.WrongPairIsSeen` | smafedistd/src/smafedistd.cpp:1033 | a pair of asked tracks that has not met, or a met track that is not asked for, leaves a wrong answer under some distance function |
| `Completeness.CompleteIffAllMet` | smafedistd/src/smafedistd.cpp:1025-1211 | the pairs that met give every answer over a list of tracks, whatever the distances are, if and only if each of them has met exactly the others, failed and late jobs included |
| `Completeness.TableCompleteIffAllMet` | smafedistd/src/smafedistd.cpp:1025-1211 | the same for every table that keeps the promise |
| `Completeness.TableCompleteIffInOrder` | smafedistd/src/smafedistd.cpp:1025-1211 | so the answers over all processed tracks are right, whatever the distances are, if and only if the jobs ran in increasing track order |
| `Completeness.CompleteAnswers` | smafedistd/src/smafedistd.cpp:1025-1211 | in that case every first-k query gets the k nearest over all other processed tracks |
| `Daemon.Daemon.constructor` | smafedistd/src/smafedistd.cpp:727-732 | a new process has an empty cache, which is sound on the tables that an earlier one left |
| `Daemon.Daemon.GetFeatureVector` | smafedistd/src/smafedistd.cpp:923-1008 | the cached list of the track becomes that of the table exactly when it is absent, empty or of a track out of memory, unless the table is assumed to start empty; no other list changes, and at most that track enters the buffer |
| `Daemon.Daemon.FetchFails` | smafedistd/src/smafedistd.cpp:923-1008 | a fetch that throws changes no list |
| `Daemon.Daemon.DecideReverseRow` | smafedistd/src/smafedistd.cpp:1105-1192 | a distance that a full list ends at or below changes nothing; every other one is queued as a row, and the list of the track becomes the first of its values and the new one, with the exact length and counter |
| `Daemon.Daemon.OfferToCache` | smafedistd/src/smafedistd.cpp:1146-1177 | the insertion loop, the counter of removable values and the cut have the specified joint effect |
| `Daemon.Daemon.MeetTracks` | smafedistd/src/smafedistd.cpp:1025-1204 | the loop over the tracks computes exactly the distances to the lower ones and leaves cache, counter and queue as meeting them one by one does, each with the files of its moment |
| `Daemon.Daemon.CalcDistsToAllFvs` | smafedistd/src/smafedistd.cpp:1015-1211 | the distances to all lower tracks in order, and the exact cache, counter and queue that the reverse rows lead to |
| `Daemon.Daemon.StoreForwardRows` | smafedistd/src/smafedistd.cpp:1716-1730 | the nearest become rows, and their distances are pushed behind whatever the job's own list holds |
| `Daemon.Daemon.FinishBulkMode` | smafedistd/src/smafedistd.cpp:1523-1548 | bulk mode ends exactly if this process has dropped the index, which then exists again |
| `Daemon.Daemon.CheckBulkMode` | smafedistd/src/smafedistd.cpp:1596-1611 | bulk mode goes on exactly while there is no frozen list yet, the job's track is in it, or the index has not been dropped |
| `Daemon.Daemon.ClaimTask` | smafedistd/src/smafedistd.cpp:1613-1638 | the job is taken off the open ones, or nothing changes when another transaction is in the way; no row is committed |
| `Daemon.Daemon.ChangeKind` | smafedistd/src/smafedistd.cpp:1651-1677 | a change of kind empties the cache, a change of the vector type the buffer, and a sound cache stays sound |
| `Daemon.Daemon.FetchCurrent` | smafedistd/src/smafedistd.cpp:1679-1681 | the fetch of the job's own vector has its exact effect and keeps the cache sound |
| `Daemon.Daemon.ChooseTracks` | smafedistd/src/smafedistd.cpp:1683-1704 | the lower tracks of that moment, or the list that bulk mode freezes once |
| `Daemon.Daemon.RunTask` | smafedistd/src/smafedistd.cpp:1706-1778 | the distances, the forward rows and the commit of a claimed job: exactly its pairs meet, the table keeps the promise for them, cache and new rows are exactly those of the code, and the cache is sound if and only if the new distances are in order behind the job's own list |
| `Daemon.Daemon.FinishTask` | smafedistd/src/smafedistd.cpp:1744-1778 | the queued rows and the finished job are committed together, and bulk mode goes on exactly if this process owns the drop of the index |
| `Daemon.Daemon.AbandonTask` | smafedistd/src/smafedistd.cpp:1706-1756 | a job may stop after any number of tracks, before or after the fetch of the next one, or behind any of its forward rows; what the cache holds is always recorded or queued |
| `Daemon.Daemon.FailTask` | smafedistd/src/smafedistd.cpp:1828-1850 | a job that fails at any point commits nothing and keeps the promise; the cache is sound afterwards if and only if its lists are sorted and it keeps no value of a dropped row |
| `LostRows.RolledBackJobHidesRow` | smafedistd/src/smafedistd.cpp:1828-1850 | the input that shows it, run from an empty store through a failing job, a fetch and a limit test: with k = 1 and distances 3 and 5 a track loses its only neighbour |
| `LostRows.LateTrackHidesRow` | smafedistd/src/smafedistd.cpp:1582-1730 | the input that shows a late track: with k = 2 it arrives between the choice of a job and the choice of its tracks, its own list becomes [5, 3], and the distance 4 is refused although the nearest are 3 and 4 |
| `History.Ask` | smafestore/src/smafestoredb_pq.cpp:2272-2347 | a query for any page within the first k gets the rows that a table of all met pairs would give |
| `History.AskCollection` | smafestore/src/smafestoredb_pq.cpp:2302-2318 | a query for a page of a collection does, when everything is recorded or the page ends at or below the k-th distance over all files |
| `History.NextInOrder` | smafestore/src/smafestoredb_pq.cpp:714-721 | taking the first open job keeps the jobs in increasing track order |
| `History.Arrivals` | smafewrapd/src/smafewrapd.cpp:1068-1184 | any number of files and feature vectors stored by other programs leave tables, promise and cache intact, between jobs and in every window of one |
| `History.ChosenAreDone` | smafedistd/src/smafedistd.cpp:1683-1704 | in a calm run a job chooses exactly the lower tracks whose jobs are done, in bulk mode too |
| `History.OwnListEmpty` | smafedistd/src/smafedistd.cpp:1716-1730 | the cached list of a track that nobody has met is empty, so that its forward distances keep the cache sound |
| `History.ProcessNext` | smafedistd/src/smafedistd.cpp:1577-1859 | one pass of the job loop: choice, claim, fetch, choice of tracks and calculation, with arrivals before and after each of them, a lost claim, and a failure at any point |
| `History.MainLoopRound` | smafedistd/src/smafedistd.cpp:1552-1862 | a round with any filters and any number of such jobs keeps the promise; in a calm run the cache is sound after each of them |
| `History.Purge` | smafedistd/src/smafedistd.cpp:758-815 | a purge of any tracks, types and distance types keeps the promise of the table |
| `History.DaemonProcess` | smafedistd/src/smafedistd.cpp:1552-1862 | a whole process with any number of rounds does, in initial, regular or bulk mode, the latter for one type among those that the filter lets through |
| `History.AnyHistory` | smafedistd/src/smafedistd.cpp:1025-1211 | any run of arrivals, processes with arrivals in every window and failing jobs, and purges from an empty store keeps the promise for the pairs that met; in a calm run these follow from the order of the jobs, and with ordered arrivals every answer is complete |
| `LiveQuery.MergeStep` | smafedistd/src/smafedistd.cpp:1296-1303 | a critical section that contributes the first k of a private list keeps the first k of everything |
| `LiveQuery.PendingMerge` | smafedistd/src/smafedistd.cpp:1296-1303 | what a thread contributes and what is still pending make up what was pending |
| `LiveQuery.WholeSchedule` | smafedistd/src/smafedistd.cpp:1244-1245 | any assignment of the iterations handles every vector exactly once |
| `LiveQuery.NearestByFields` | smafedistd/src/smafedistd.cpp:1287-1303 | the first k entries are vectors with their own distances, as many as there are up to k, and nothing left out comes before them |
| `LiveQuery.Query.CollectDistances` | smafedistd/src/smafedistd.cpp:1238-1294 | the private lists together hold one entry for each vector, for any order and any threads |
| `LiveQuery.Query.MergeList` | smafedistd/src/smafedistd.cpp:1296-1303 | one critical section changes the shared list but not the first k of what is shared and pending |
| `LiveQuery.Query.MergeLists` | smafedistd/src/smafedistd.cpp:1296-1303 | for any order of the critical sections the shared list keeps the first k of everything |
| `LiveQuery.Query.Answer` | smafedistd/src/smafedistd.cpp:1481-1502 | for every schedule of the threads the k nearest are sent: loaded vectors with their own distances, none more often than loaded, in the order of (distance, track, segment), and none that is left out comes before them |
| `OptionSyntax.Cluster` | lib/argtable/src/getopt.c:730-926 | a cluster of short options takes at most one following argument |
| `OptionSyntax.LookUpMeaning` | lib/argtable/src/getopt.c:611-647 | a long option is found if and only if it is the first exact name or, without one, the only entry that the text abbreviates |
| `OptionSyntax.ReferenceIsStable` | lib/argtable/src/getopt.c:474-579 | options with their arguments and non-options both keep their order, and nothing is lost or doubled |
| `OptionSyntax.ReferenceMore` | lib/argtable/src/getopt.c:474-579 | a command line is parsed piece by piece: arguments that end the scan leave only non-options behind them, an option that misses its argument takes the next one, and otherwise the parses are joined |
| `OptionSyntax.AfterDashes` | lib/argtable/src/getopt.c:533-549 | everything after a "--" that is no option's argument is a non-option, whatever options and non-options stand before it, as Guideline 10 of section 12.2 of POSIX.1-2008 XBD asks |
| `OptionSyntax.DashesAsArgument` | lib/argtable/src/getopt.c:730-926 | a "--" that an option is waiting for is its argument, and the rest is parsed as usual |
| `OptionSyntax.DashesEndIff` | lib/argtable/src/getopt.c:533-549 | a "--" ends the scan if and only if no option is waiting for it |
| `OptionSyntax.OnlyDashesEnd` | lib/argtable/src/getopt.c:533-579 | without POSIXLY_CORRECT nothing else ends a scan early |
| `OptionSyntax.WaitingIff` | lib/argtable/src/getopt.c:596-926 | an option is waiting for its argument exactly when the scan reports a missing argument last |
| `Spellings.ShortSpellings` | lib/argtable/src/getopt.c:884-926 | the argument of a short option, behind any characters that take none, is the same in the same element or, if required, in the next one; an optional one is only taken from the same element, and a required one that is nowhere is reported as missing |
| `Spellings.FlagsOnly` | lib/argtable/src/getopt.c:730-757 | characters without arguments are reported one by one, undeclared ones as such |
| `Spellings.PlainArgument` | lib/argtable/src/getopt.c:515-579 | a text without a dash in front, and the dash alone, is a non-option |
| `Spellings.LongSpellings` | lib/argtable/src/getopt.c:596-728 | so is the argument of a long option behind a "=" or, if required, in the next element; an option without arguments refuses one |
| `Spellings.LongRefused` | lib/argtable/src/getopt.c:596-728 | a name that is unknown or abbreviates several options is refused and takes no argument |
| `Getopt.Scanner.Exchange` | lib/argtable/src/getopt.c:299-353 | two adjacent segments of any lengths trade places, each in its order, nothing else moves, and the bounds follow the non-options |
| `Getopt.Scanner.SwapBlocks` | lib/argtable/src/getopt.c:322-346 | the inner loop swaps two blocks of equal length and nothing else |
| `Getopt.BottomShort` | lib/argtable/src/getopt.c:318-332 | swapping the shorter bottom segment away reduces the exchange to a smaller one |
| `Getopt.TopShort` | lib/argtable/src/getopt.c:333-347 | and so does swapping the shorter top segment down |
| `Getopt.Scanner.SkipNonOptions` | lib/argtable/src/getopt.c:515-531 | afterwards all skipped non-options are one block right before the scan position |
| `Getopt.Scanner.CheckForEnd` | lib/argtable/src/getopt.c:533-569 | a scan that ends leaves the position at the first non-option of a divided list |
| `Getopt.DashesStep` | lib/argtable/src/getopt.c:538-549 | "--" joins the options and every later argument the non-options |
| `Getopt.EndStep` | lib/argtable/src/getopt.c:554-561 | at the end of argv the position backs up over exactly the skipped non-options |
| `Getopt.RequireOrderStep` | lib/argtable/src/getopt.c:566-569 | with POSIXLY_CORRECT the first non-option ends the scan without any exchange |
| `Getopt.Scanner.FindLongOption` | lib/argtable/src/getopt.c:611-645 | one pass with an early exit finds what the two-step lookup defines |
| `Getopt.Scanner.ReadShort` | lib/argtable/src/getopt.c:884-926 | one option character, with the rest of its element or the next element as its argument, is taken off as the reference does |
| `Getopt.Scanner.DecodeShort` | lib/argtable/src/getopt.c:884-926 | the scan goes on behind the option character with its event reported |
| `Getopt.Scanner.ReadLong` | lib/argtable/src/getopt.c:596-728 | one long option, with its argument after "=" or in the next element, is taken off as the reference does, and optopt becomes the value of the option that misses its argument or refuses one, or zero |
| `Getopt.Scanner.DecodeLong` | lib/argtable/src/getopt.c:596-728 | so is a long option, with its argument after "=" or in the next element |
| `Getopt.Scanner.Next` | lib/argtable/src/getopt.c:474-926 | each call reports the next event of the reference parse, or the scan is complete; optopt changes with a bad option only |
| `Getopt.Scanner.Run` | lib/argtable/src/getopt.c:474-926 | a whole scan terminates and leaves the program name, all options with their arguments and all non-options, each in original order, with the index at the first non-option; every "--" that ends it has all later arguments behind it |
| `Argtable.End.RegisterError` | lib/argtable/src/argtable2.c:51-68 | the end entry shows all errors while they fit; then its last place says that there were more |
| `Argtable.ShownMeaning` | lib/argtable/src/argtable2.c:51-68 | as many errors as there is room for are shown in order, and the last place says so when some are left out |
| `Argtable.FirstAccepting` | lib/argtable/src/argtable2.c:384-438 | the entry that takes an argument is the first that can, not before that of the last argument |
| `Argtable.AcceptedIsValid` | lib/argtable/src/arg_str.c:42-65 | an accepted argument goes to an untagged entry whose scan function takes its text |
| `Argtable.AcceptedInOrder` | lib/argtable/src/argtable2.c:384-438 | accepting entries never decrease, and nothing is accepted behind a rejected argument |
| `Argtable.AcceptedWithinMaximum` | lib/argtable/src/arg_str.c:42-65 | no count passes its maximum |
| `Argtable.MatchAccounts` | lib/argtable/src/argtable2.c:376-456 | counts and errors of the table together grow by one for each argument, and only untagged entries count |
| `Matching.MatchIsGreedy` | lib/argtable/src/argtable2.c:384-438 | as long as every argument is accepted, the next one goes to the first entry with room that takes it, not before that of the last; it is rejected if and only if there is none |
| `Matching.RejectedErrors` | lib/argtable/src/argtable2.c:396-453 | the first rejected argument gets the error of the last untagged entry that could have taken it, every later one that of an argument without an entry |
| `Matching.ValuesInOrder` | lib/argtable/src/argtable2.c:384-438 | an entry counts the arguments that it accepts and stores them in order |
| `Matching.ErrorsInOrder` | lib/argtable/src/argtable2.c:440-453 | the errors are those of the rejected arguments, in order |
| `Argtable.EntryPassed` | lib/argtable/src/argtable2.c:396-436 | the tentative error is always that of the last untagged entry that refused the argument |
| `Argtable.OfferRefused` | lib/argtable/src/argtable2.c:396-436 | an entry that refuses leaves argument and obligations as they were and hands on its error |
| `Argtable.OfferEnd` | lib/argtable/src/argtable2.c:440-453 | when the table is used up, what remains are the tentative error and one error for each argument behind it |
| `Argtable.Table.OfferArguments` | lib/argtable/src/argtable2.c:384-438 | the loop with two indices and a tentative error follows the greedy matching and terminates |
| `Argtable.Table.RegisterUnmatched` | lib/argtable/src/argtable2.c:440-453 | the tentative error and every argument left are registered |
| `Argtable.Table.ParseUntagged` | lib/argtable/src/argtable2.c:376-456 | counts, values and errors grow by exactly what the reference matching of all arguments says; the growth of all counts and of the error list adds up to the number of arguments, and tagged entries do not count |
| `Argtable.Table.ParseCheck` | lib/argtable/src/argtable2.c:460-474 | the post-parse errors are appended in table order |
| `Argtable.CheckErrorsMeaning` | lib/argtable/src/argtable2.c:460-474 | an entry is reported if and only if it is checked and has too few values |
| `ArgParse.AllocLongOptions` | lib/argtable/src/argtable2.c:113-199 | the array of long options that the scanner gets, with the names of an entry split at the commas |
| `ArgParse.NamesOfJoined` | lib/argtable/src/argtable2.c:163-176 | names without commas, the last of them not empty, come out of the list as they were |
| `ArgParse.LongOptionsAgree` | lib/argtable/src/argtable2.c:113-199 | each of its elements belongs to the entry that its value names, with that entry's name and kind of argument |
| `ArgParse.LongOptionsListed` | lib/argtable/src/argtable2.c:113-199 | every name of every entry stands in the array, in order |
| `ArgParse.AllocShortOptions` | lib/argtable/src/argtable2.c:202-243 | the option string that the scanner gets |
| `ArgParse.ShortOptionsAgreeIff` | lib/argtable/src/argtable2.c:202-243 | for every table the scanner knows a character if and only if some entry declares it, and it reads it as the first such entry asks if and only if the declaration has two colons already or no further colon follows it |
| `ArgParse.WhoAsksForW` | lib/argtable/src/getopt.c:757-759 | a table asks for "-W name" as a long option only if entries declare both the characters W and ; |
| `ArgParse.FindShortOption` | lib/argtable/src/argtable2.c:76-85 | the first entry that declares the character |
| `ArgParse.HandleEvent` | lib/argtable/src/argtable2.c:295-367 | what each return of the scanner does to counts, values and errors; a declared option that reads as the code for a bad one is refused like a bad one |
| `ArgParse.ParseTagged` | lib/argtable/src/argtable2.c:258-372 | the whole scan hands every option of the reference parse to its entry, in order |
| `ArgParse.HandledWithinMaximum` | lib/argtable/src/argtable2.c:258-372 | no option is counted beyond its maximum |
| `ArgParse.EventErrors` | lib/argtable/src/argtable2.c:295-367 | which errors each option registers, under which code, entry and text |
| `ArgParse.KeptValues` | lib/argtable/src/argtable2.c:258-372 | every entry counts the options that its scan function takes while there is room, and stores exactly their arguments, in order |
| `ArgParse.AllKept` | lib/argtable/src/argtable2.c:258-372 | all options are kept when each is taken and none comes too often |
| `ArgParse.NoErrorIffFit` | lib/argtable/src/argtable2.c:258-372 | the tagged part registers no error if and only if every option is known, has a value that its entry takes and does not come too often, and none of them reads as the code for a bad option; then it counts them all |
| `ArgParse.NoErrorIffFits` | lib/argtable/src/argtable2.c:491-545 | a parse registers no error if and only if that holds, every other argument is accepted and no checked entry has too few values |
| `ArgParse.ParsedValues` | lib/argtable/src/argtable2.c:491-545 | after a parse every entry holds the arguments of the options that it keeps, followed by the untagged arguments that it accepts |
| `ArgParse.FitsKeepsAll` | lib/argtable/src/argtable2.c:491-545 | when the parse registers no error, every option is kept |
| `ArgParse.QuestionMarkRefused` | lib/argtable/src/argtable2.c:317-333 | the input that shows it: the argument "-?" fits a table that declares the option ? and is refused, under whatever character an earlier bad option has left |
| `ArgParse.ArgParse` | lib/argtable/src/argtable2.c:491-545 | the whole parse: options, then the other arguments, then the check exactly when no error was registered; every entry holds the arguments of the options it keeps, all of them when there is no error, and then those of the untagged arguments it accepts; the result is zero if and only if the command line fits the table and gives no option that reads as the code for a bad one, and the caller's argv is left alone |
| `Collections.DeleteRowsMembers` | smafewrapd/src/smafewrapd.cpp:1258-1281 | a deletion removes exactly the rows that its condition picks |
| `Collections.DeleteOneRow` | smafestore/src/smafestoredb.cpp:485-495 | the removal step affects 0 or 1 rows, since the key lets no mapping occur twice |
| `Collections.OthersUntouched` | smafewrapd/src/smafewrapd.cpp:518-542 | a job on one file leaves every other file in order |
| `Collections.RemovedDropped` | smafestore/src/smafestoredb.cpp:485-495 | dropping the removed mapping after the default one was added leaves the file in order |
| `Collections.DeletionLeavesOrder` | smafewrapd/src/smafewrapd.cpp:1258-1286 | a deletion with the insertion that follows it leaves the file in a collection, and in the removed one exactly when in no other |
| `Collections.CollectionFiles.EnsureCollectionFile` | smafestore/src/smafestoredb_pq.cpp:1568-1600 | the mapping exists afterwards, once |
| `Collections.CollectionFiles.EnsureReserved` | smafestore/src/smafestoredb_pq.cpp:1602-1664 | a reserved mapping is added only if it is missing and, if asked, only to a file without any other |
| `Collections.CollectionFiles.RemoveFromRemovedIfNecessary` | smafestore/src/smafestoredb.cpp:485-495 | one row is affected exactly when the file is in the removed and in another collection |
| `Collections.CollectionFiles.FileAdded` | smafewrapd/src/smafewrapd.cpp:518-542 | the file keeps its collections and gains the default and the named one, but is never left in the removed one |
| `Collections.CollectionFiles.FileDeleted` | smafewrapd/src/smafewrapd.cpp:1258-1286 | exactly what was named is gone, and every file stays in order |
| `Intake.Database.FindFile` | smafestore/src/smafestoredb_pq.cpp:331-363 | a file is found exactly when all four identifying texts match, which no file without guid does |
| `Intake.Database.FindOrStoreTrack` | smafewrapd/src/smafewrapd.cpp:463-505 | a known fingerprint gets its track, an unknown one a new track, never a second |
| `Intake.Database.StoreFile` | smafestore/src/smafestoredb_pq.cpp:1511-1540 | storing fails exactly when guid or external key is taken |
| `Intake.Database.StoreRecords` | smafewrapd/src/smafewrapd.cpp:446-516 | a known file adds nothing; a new one gets a record on the track of its fingerprint |
| `Intake.Database.CollectionId` | smafewrapd/src/smafewrapd.cpp:518-527 | a collection name keeps its id, and a new name gets one that no other name has, the reserved ones included |
| `Intake.Database.StoreVector` | smafestore/src/smafestoredb_pq.cpp:1810-1851 | a new vector keeps exactly one job for each vector and distance type |
| `Intake.Database.Missing` | smafewrapd/src/smafewrapd.cpp:470-498 | exactly the requested types that were delivered and are not stored yet |
| `Intake.Database.StoreMissing` | smafewrapd/src/smafewrapd.cpp:558-650 | the vectors afterwards are the old ones and the requested ones; it fails exactly when nothing is new although an extractor raised an error |
| `Intake.Database.AddFile` | smafewrapd/src/smafewrapd.cpp:1068-1184 | an add job keeps all tables in order, adds only missing types, reuses track and file records, takes nothing away, creates a job for the map exactly for a new track with a vector, is refused when the file limit is reached, and leaves everything untouched when it fails |
| `Intake.StaysBacked` | smafewrapd/src/smafewrapd.cpp:446-516 | with an add job every feature vector still belongs to the track of some file |
| `Intake.Database.DeleteFile` | smafewrapd/src/smafewrapd.cpp:1252-1326 | a delete job succeeds exactly for existing files, touches only their mappings, keeps every file in order, and creates a job for the map exactly when no file of the track is left outside the removed collection |
| `Intake.RunJobs` | smafewrapd/src/smafewrapd.cpp:1068-1326 | any run of jobs keeps one track per fingerprint, one vector per track and type, one job per vector and distance type, at most one job that adds a track to the map, a file for every vector, every file in order and the file limit |
| `SharedTables.SameConsistency` | smafestore/src/smafestoredb_pq.cpp:1810-1851 | the job table that the add-file program keeps is the one the daemon relies on, if and only if no job is done twice or has two states |
| `SharedTables.TracksHaveFiles` | smafewrapd/src/smafewrapd.cpp:446-516 | the daemon finds a file for every track with a vector if and only if the add-file program keeps one |
| `SharedTables.StoreVector` | smafestore/src/smafestoredb_pq.cpp:1810-1851 | storing a vector with its jobs does the same to the tables of both programs |
| `SharedTables.UpdateMap` | smuiupdated/src/smuiupdated.cpp:769-1000 | the jobs for the map that the add-file program has created may run in any order, each at most once: no track is added while it is in a bubble, and all counts stay right |
| `Bubbles.GrowIff` | smuiupdated/src/smuiupdated.cpp:593-632 | adding a track keeps the counts right if and only if the track was in no bubble of the layer |
| `Bubbles.ShrinkOk` | smuiupdated/src/smuiupdated.cpp:679-712 | removing a track keeps the counts right, and a bubble that loses its last track vanishes without a dangling reference |
| `Bubbles.ResizedDensity` | smuiupdated/src/smuiupdated.cpp:611-616 | a change of count leaves size squared over count as it was |
| `Bubbles.ShrinkUndoesGrow` | smuiupdated/src/smuiupdated.cpp:688-712 | deleting a track right after adding it restores its bubble, size included |
| `Bubbles.BestUnit` | smuiupdated/src/smuiupdated.cpp:559-582 | the first prototype with the least distance; none exactly when no distance is below the start value |
| `Bubbles.GetNearestBubble` | smafestore/src/smafestoredb_pq.cpp:1082-1113 | the bubble found is within the range on coordinates, none is nearer and none as near is larger; none is found exactly when all are out of range |
| `Bubbles.DistanceLaws` | smafestore/src/smafestoredb_pq.cpp:1089-1097 | the distance is zero exactly at the same place, does not change when the axes are exchanged, is the offset on a common row, and its square is the sum of the squares along both axes |
| `Bubbles.DistanceGrows` | smafestore/src/smafestoredb_pq.cpp:1089-1097 | it grows strictly with either offset |
| `Bubbles.NoneNearerOnBothAxes` | smafestore/src/smafestoredb_pq.cpp:1089-1097 | no bubble stands at smaller offsets from the place than the nearest one |
| `Bubbles.ChosenOnMap` | smuiupdated/src/smuiupdated.cpp:593-621 | the second try in twice the range makes no difference: the chosen bubble is the nearest of all |
| `Bubbles.MapDatabase.Position` | smuiupdated/src/smuiupdated.cpp:583-586 | the place of a prototype is on the map and determines the prototype |
| `Bubbles.MapDatabase.GrowBubbles` | smuiupdated/src/smuiupdated.cpp:593-621 | in every layer a nearest bubble in range grows, or one in twice the range when there is none; it fails only if a layer has none in that range either |
| `Bubbles.LayerAfterAdd` | smuiupdated/src/smuiupdated.cpp:593-632 | a layer is right after an add if and only if the track was unplaced in it |
| `Bubbles.MapDatabase.PerformAddTrack` | smuiupdated/src/smuiupdated.cpp:511-632 | the track is put at the place of the first best unit and, in every layer, into the bubble that is the nearest of all to that place on coordinates, the larger among equals; no other track moves; it fails only for an unknown track, without a best unit, or without a bubble in twice the range |
| `Bubbles.MapDatabase.PerformDeleteTrack` | smuiupdated/src/smuiupdated.cpp:639-714 | it succeeds exactly for a track placed in every layer, which is then in no bubble, its former ones shrunk |
| `Bubbles.MapDatabase.ProcessAddJob` | smuiupdated/src/smuiupdated.cpp:817-863 | a committed add job puts the track at its best unit and keeps the map consistent if and only if the track was unplaced; a failed one changes nothing |
| `Bubbles.MapDatabase.ProcessDeleteJob` | smuiupdated/src/smuiupdated.cpp:927-974 | a delete job keeps the map consistent whether it commits or rolls back |
| `Bubbles.RunJobs` | smuiupdated/src/smuiupdated.cpp:769-1000 | any run of jobs that adds no track twice, and none that is in a bubble at the start, keeps all counts right, and size squared over count of every surviving bubble |
| `CopyBuffer.IntRoundTrip` | smafestore/src/smafestoredb_pq.cpp:2403-2404 | an id printed in decimal reads back |
| `CopyBuffer.FixedRoundTrip` | smafestore/src/smafestoredb_pq.cpp:2403-2404 | a distance of either sign printed with "%f" reads back as the nearest millionth |
| `CopyBuffer.LineRoundTrip` | smafestore/src/smafestoredb_pq.cpp:2403-2404 | a copy line is one line and reads back as its record |
| `CopyBuffer.LineColumns` | smafestore/src/smafestoredb_pq.cpp:2381-2404 | the columns of a line are the two tracks, the vector type, the distance type and the value, in the order of the COPY command |
| `CopyBuffer.CopyRoundTrip` | smafestore/src/smafestoredb_pq.cpp:2399-2437 | the text of all lines reads back as the queue in order, with six decimals |
| `CopyBuffer.PutLine` | smafestore/src/smafestoredb_pq.cpp:2407-2428 | a line that does not fit is preceded by a flush, sent text and buffer together grow by that line, and a zero byte ends the text |
| `CopyBuffer.CopyDists` | smafestore/src/smafestoredb_pq.cpp:2370-2438 | no chunk exceeds the buffer or tears a line, together they are all lines in order, which read back as the queue, and the zero byte is written behind the buffer if and only if some lines of one chunk fill it exactly |
| `CopyBuffer.ShortQueueFits` | smafestore/src/smafestoredb_pq.cpp:2395-2428 | a queue whose text is shorter than the buffer never fills it |
| `CopyBuffer.EqualLinesFill` | smafestore/src/smafestoredb_pq.cpp:2407-2428 | n lines of m characters fill a buffer of n * m characters exactly |
| `CopyBuffer.FullBuffer` | smafestore/src/smafestoredb_pq.cpp:2377-2428 | 163840 rows with different keys and lines of 32 characters fill the 5 MiB of the code, so that the zero byte is written behind them |
| `CopyBuffer.CommitThroughBuffer` | smafestore/src/smafestoredb_pq.cpp:111-138 | a commit adds to the table exactly what the database reads from the chunks |
| `CopyBuffer.FateOfStep` | smafestore/src/smafestoredb_pq.cpp:88-138 | one step copies the queue or leaves its fate to the next finish |
| `CopyBuffer.RunSteps` | smafestore/src/smafestoredb_pq.cpp:88-138 | over any run the table gains exactly the rows whose next finish is a commit, in order |
| `Loading.SortedKeys` | smafestore/src/smafestoredb_pq.cpp:2038-2061 | ordering the rows loses and doubles none, and gives one list whatever order they came in |
| `Loading.FeatureTable.Select` | smafestore/src/smafestoredb_pq.cpp:2038-2061 | the rows of a query come in any order, another one each time, unless it asks for one |
| `Loading.FeatureTable.ReadRecords` | smafestore/src/smafestoredb_pq.cpp:2018-2141 | a page holds exactly the rows that LIMIT and OFFSET select, each under its key, and with either of them the rows are ordered |
| `Loading.PagesJoin` | smafestore/src/smafestoredb.cpp:320-322 | a page continues the rows before it, and a short page is the last |
| `Loading.DecodePage` | smafestore/src/smafestoredb.cpp:326-436 | every entry that can be decoded is stored, and a failure is reported only in silent mode |
| `Loading.DecodedJoin` | smafestore/src/smafestoredb.cpp:320-450 | decoding page by page is decoding the longer prefix |
| `Loading.ReadAllFeatureVectors` | smafestore/src/smafestoredb.cpp:304-481 | every page size fills the same map as loading at once, although unordered rows come in another order each time, and terminates; n rows take n / size + 1 queries, exact multiples included |
| `Loading.CollectionReferences` | smafestore/src/smafestoredb.cpp:519-555 | each non-empty collection lists each of its loaded vectors once |
| `Text.TrimWhitespace` | smafeutil/src/smafeutil.cpp:53-67 | the text without white space at both ends |
| `Text.Tokenize` | smafeutil/src/smafeutil.cpp:74-92 | the maximal runs of non-delimiters, in order |
| `Text.TokensOfWord` | smafeutil/src/smafeutil.cpp:74-92 | a word before a space is one token |
| `Text.NatRoundTrip` | smafeutil/src/smafeutil.h:200-221 | a count printed in decimal is a word and reads back |
| `Somlib.Output.WriteHeader` | smafeutil/src/smafeNumericFeatureVector.cpp:61-79 | the six header lines are appended |
| `SomlibSyntax.HeaderText` | smafeutil/src/smafeNumericFeatureVector.cpp:61-79 | the header lines as they stand in the file |
| `Somlib.LowerMeaning` | smafeutil/src/smafeNumericFeatureVector.cpp:65 | capital letters of the type become small ones and nothing else changes |
| `Somlib.Output.WriteEntry` | smafeutil/src/smafeNumericFeatureVector.cpp:81-95 | one line with all values in order and the label at its end |
| `Somlib.Output.WriteAll` | smafeutil/src/smafeTextfileOutput.h:60-87 | a file is written exactly when there are vectors: header, then one line for each |
| `Somlib.SomlibParser.ParseHeader` | smafeutil/src/SmafeSomlibParser.h:67-132 | the last value of each header key counts; it fails without a vector size |
| `Somlib.SomlibParser.ParseMain` | smafeutil/src/SmafeSomlibParser.h:137-220 | the map of all data lines, or failure at the first malformed one |
| `Somlib.SomlibParser.ParseDataLine` | smafeutil/src/SmafeSomlibParser.h:158-207 | a line is skipped, read or refused as the line syntax says |
| `SomlibSyntax.CommentsSkipped` | smafeutil/src/SmafeSomlibParser.h:85-165 | blank lines and lines with a # in front say nothing, and the data part skips header lines |
| `SomlibSyntax.HeaderKeys` | smafeutil/src/SmafeSomlibParser.h:95-117 | each header key sets its own field; sizes must be numbers and the height must be 1 |
| `SomlibSyntax.DataLineOfWords` | smafeutil/src/SmafeSomlibParser.h:158-207 | a data line gives its numbers in order and its label, and is refused if and only if a column is no number or no label follows |
| `SomlibSyntax.LabelOfWords` | smafeutil/src/SmafeSomlibParser.h:191-196 | the label is the remaining words, joined by single spaces |
| `SomlibRoundTrip.EntryReadBack` | smafeutil/src/SmafeSomlibParser.h:158-207 | a written line reads back with its values and its label normalised; a blank label aborts |
| `SomlibRoundTrip.NormalLabelIsClean` | smafeutil/src/SmafeSomlibParser.h:191-196 | what the parser makes of a label is always words joined by single spaces |
| `SomlibRoundTrip.EntryRoundTrip` | smafeutil/src/smafeNumericFeatureVector.cpp:81-95 | a line reads back unchanged if and only if the label is words joined by single spaces |
| `SomlibRoundTrip.HeaderFields` | smafeutil/src/SmafeSomlibParser.h:67-132 | a written header reads back with type, number and size |
| `SomlibRoundTrip.FilledMeaning` | smafeutil/src/SmafeSomlibParser.h:203-204 | for distinct labels the map holds exactly the written vectors |
| `SomlibRoundTrip.FileRoundTrip` | smafeutil/src/SmafeSomlibParser.h:67-220 | a written file reads back as header fields and map |
| `SomlibRoundTrip.WriteThenRead` | smafeutil/src/SmafeSomlibParser.h:67-220 | writer and parser objects together complete the round trip |
| `Segments.CountIsExact` | smafeext/src/smafeRPExtractor.cpp:627-637 | the formula counts exactly the segments that fit between skip-in and skip-out, every step-th one |
| `Segments.EffectiveLeavesSegments` | smafeext/src/smafeRPExtractor.cpp:627-634 | after the reset of the options a segment is left whenever the song has one |
| `Segments.OptionsKeptIff` | smafeext/src/smafeRPExtractor.cpp:627-634 | the options are dropped if and only if the first segment after the skip-in does not end before the skip-out |
| `Segments.SegmentsLastAlike` | smafeext/src/smafeRPExtractor.cpp:581-587 | segments and frames last equally long at the three usual sample rates, and a segment is 256 frames long |
| `Segments.Rescale` | smafeext/src/smafeRPExtractor.cpp:125-129 | exactly the samples of one segment are rescaled in place |
| `Segments.RescaleAll` | smafeext/src/smafeRPExtractor.cpp:654-668 | the segments are pairwise disjoint and every sample is rescaled once or not at all |
| `Segments.GetSegments` | smafeext/src/smafeRPExtractor.cpp:540-668 | it fails exactly for a song that is too long or shorter than a segment, for a zero step or for more than 25 Bark bands; otherwise no segment that fits is missed |
| `Segments.Frames` | smafeext/src/smafeRPExtractor.cpp:134-164 | 511 frames overlap by half, stay inside the segment and cover it to its end |
| `BarkBands.BandsUsed` | smafeext/src/smafeRPExtractor.cpp:561-566 | exactly the bands whose limit is not above half the sample rate |
| `BarkBands.UniqueBand` | smafeext/src/smafeRPExtractor.cpp:31-32 | every bin lies in exactly one of the 25 bands |
| `BarkBands.AdvanceBand` | smafeext/src/smafeRPExtractor.cpp:179-183 | the scan stops at the band of the bin and never reads past the 25 limits |
| `BarkBands.BarkFrame` | smafeext/src/smafeRPExtractor.cpp:170-196 | for every sample rate and 1 to 25 bands, every cell of the row is written: with the sum of the bins that lie in its band, or zero above half the rate |
| `BarkBands.BarkMatrix` | smafeext/src/smafeRPExtractor.cpp:157-199 | the rows of all frames hold the sums of their own frames |
| `BarkBands.BandsAddUp` | smafeext/src/smafeRPExtractor.cpp:176-194 | the band totals add up to the sum of the bins they cover |
| `Statistics.OnePassVariance` | smafeext/src/smafeExtractorUtil.h:182-187 | squares minus rows times mean squared, over rows minus one, is the mean-centred variance |
| `Statistics.VarianceNotNegative` | smafeext/src/smafeExtractorUtil.h:182-187 | the variance is not negative, and zero exactly when all values are equal |
| `Statistics.MeanBetween` | smafeext/src/smafeExtractorUtil.h:157-158 | the mean lies between any bounds of the values |
| `Statistics.MiddleHalves` | smafeext/src/smafeExtractorUtil.h:215-222 | at least half of the values are not above the median and at least half not below |
| `Statistics.KurtosisAtLeast` | smafeext/src/smafeExtractorUtil.h:202-212 | the kurtosis of n values that are not all equal is at least the square of 1 - 1 / n |
| `Statistics.Mirrored` | smafeext/src/smafeExtractorUtil.h:162-212 | mirrored values have the opposite mean and skewness and the same variance and kurtosis |
| `StatisticsLaws.DescriptorsBySums` | smafeext/src/smafeExtractorUtil.h:157-212 | mean, variance, skewness and kurtosis by sums of the powers of the distances from the mean |
| `StatisticsLaws.SkewnessSign` | smafeext/src/smafeExtractorUtil.h:195-201 | the skewness has the sign of the third moment |
| `StatisticsLaws.MirroredMedian` | smafeext/src/smafeExtractorUtil.h:214-222 | mirrored values have the opposite median |
| `Statistics.HigherMoments` | smafeext/src/smafeExtractorUtil.h:162-175 | the second pass computes the third and fourth moment about the mean |
| `Statistics.DescribeColumn` | smafeext/src/smafeExtractorUtil.h:145-228 | two passes and a sort give mean, variance, skewness, kurtosis, median, least and greatest value of the column |
| `Statistics.DescribedMeaning` | smafeext/src/smafeExtractorUtil.h:178-228 | mean and median lie between the reported least and greatest value, which belong to the column and bound it; the higher descriptors are zero when all values are equal |
| `Statistics.GetSSD` | smafeext/src/smafeExtractorUtil.h:128-232 | every column of the matrix is described in its own row of the result |

## Left out

- Several daemons at work at the same time: the UPDATE that claims a job has no status test (smafedistd/src/smafedistd.cpp:1619-1637), so exclusive claiming rests on PostgreSQL; the model has one daemon at a time and atomic transactions, and a claim may be lost to another one.
- History.AnyHistory: a process whose cache is no longer sound ends before its next job; the code goes on, and can then lose rows exactly as Cache.SkipHarmsIff says. Vectors that are stored inside the calculation loop touch no table that the loop reads and count as stored before it. A process that dies in the middle of a job leaves it neither open nor done, like one that fails.
- TopkIndex.ReverseRowSkipped: distances are reals below the largest double, so NaN and infinite distances are not modelled.
- TopkIndex.CollectionAnswer: a page of a collection that ends above the k-th distance over all files is not promised anything; the daemon does not store the rows it would need.
- Bulk mode with several feature vector types that pass the filter: the frozen track list belongs to one type.
- The number of tasks, signals and the end for lack of memory: a round may stop after any job.
- Minimum and maximum distance logging, which reads the ends of a list that is empty for the first track, timing and memory estimates; whether memory is available is an arbitrary choice at each fetch.
- Distances.SixDecimalsMonotone: "%f" is the nearest millionth, ties to even, of the exact value.
- Deque iterators used after an insertion and raw pointers are indices and values.
- LiveQuery.Query.Answer: the range end `std::min(begin()+topk, end())` is read as the smaller of k and the size; the client protocol and its text are not modelled.
- Getopt.Scanner.Run: the flags in the first character of optstring, "W;" options, the long-only variant, the choice between '?' and ':' for a missing argument, the flag field and the messages are not modelled; argc is at least 1 and characters are ASCII. The option strings that argtable builds start with ':' and ask for none of these, except for "W;" when entries declare both characters (ArgParse.WhoAsksForW).
- Getopt.Scanner.Next: the same.
- Getopt.Scanner.ReadShort: the "W;" branch (lib/argtable/src/getopt.c:757-883).
- Getopt.Scanner.DecodeShort: the "W;" branch.
- ArgParse.ArgParse: memory failures, the other entry kinds and the reset functions of user types are not modelled; an end entry has room for at least one error, and the text of an extra argument is looked up by the index of the entry as the code does. A table whose entries declare both 'W' and ';' is outside the model of the scanner, and so is an option character that is not ASCII.
- The table of the command line options of the programs, help and glossary output.
- Intake.Database.AddFile: decoding, hashing and the extractors are parameters, the propagation of jobs to the distance daemon is switched on, and segment vectors are left out.
- Jobs that delete a whole collection.
- Bubbles.MapDatabase.PerformAddTrack: sizes are modelled by their squares, so that the factor under the root is exact; the search range is a number, and distances to the prototypes are a parameter. An error raised as a character pointer ends the program instead of the job; it counts as a failed job here.
- CopyBuffer.CopyDists: a line must fit into the buffer, as the lines of 64-bit ids and finite doubles do; an error of the connection is not modelled. The byte behind the buffer is a place of its own in the model, so that a zero byte written there does no further harm.
- Loading.ReadAllFeatureVectors: the table does not change between two pages; 32-bit ids and the renewed connection are not modelled.
- SomlibRoundTrip.WriteThenRead: the passphrase is empty, the number printer and reader are parameters that must agree on the written values, and the output has no file errors.
- Text.NatRoundTrip: signs in front of header numbers and the 32-bit limit of the vector size are not modelled.
- Segments.CountIsExact: exact arithmetic; the single precision quotient of the code can differ for very long files, and skips of 2^31 and more wrap.
- Statistics.DescribeColumn: the power 3/2 is a parameter that is positive for positive numbers; NaN does not occur over reals.
- FFT, power spectrum, sone and decibel scales, blur matrices and the rhythm features: foreign calls and floating point functions; the spectrum is an arbitrary matrix.
- SQL text, libpq, encryption, archives, audio decoding, sockets, the PHP layer, configuration, logging and licence checks.
