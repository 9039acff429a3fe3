# Verification of the message service's jobs, consumers and scripts

A Dafny 4.11 model of the parts of the message service that carry real logic of their own: the offline
ranking and recommendation mathematics, the cross-table report list, the message consumers and their
retry counters, lazy creation of sharded tables, account deactivation, schema-version recovery, and the
seeding, recounting and link-printing tools. `dafny verify dfyconfig.toml` checks everything.

Each source file has a module of its own. Code that updates variables, dictionaries or rows is written as
methods and classes and proved against specification functions; the properties are then lemmas about
those functions. Protocols whose steps interleave are state machines: one step is what a coroutine does
between two awaits (or one transaction), every await may succeed, fail, or fail after taking effect, and
the theorems quantify over every run of any number of participants. `Runs.dfy` says once what a run is.

| file | source | subject |
|---|---|---|
| `Ndcg.dfy`, `GroupSplit.dfy`, `Sorting.dfy` | `scripts/train_feed_ranker.py` | NDCG over query groups, group-safe splitting, stable sorting |
| `LinUcb.dfy`, `Linear.dfy` | `scripts/train_linucb.py`, `app/services/moment/linucb.py` | replay of bandit arms, vectors and matrices |
| `AlsMatrix.dfy`, `Permutations.dfy` | `scripts/train_als_recall.py` | the compressed sparse user-item matrix |
| `ReportPaging.dfy` | `app/services/admin/report.py` | one page of several tables merged |
| `RetryCount.dfy`, `ViewConsumer.dfy` | `app/consumers/retry.py`, `app/consumers/interaction_view.py` | counted re-publishing, the handler, runs of the queue |
| `Sharding.dfy`, `ShardCreation.dfy` | `app/core/sharding.py`, `app/services/message/dm/dm_content.py` | routing, batch reads, lazy creation of tables |
| `DmContent.dfy` | `app/consumers/dm.py`, `app/services/message/dm/dm.py` | message bodies, dead letters, crashes and redeliveries |
| `Deactivation.dfy`, `CasdoorRetry.dfy` | `app/tasks/scheduler.py`, `app/services/user/deactivation_service.py` | two-phase account deactivation and its compensation job |
| `Migration.dfy` | `app/core/migration.py`, `alembic/versions/` | recovering the schema revision, upgrades and downgrades |
| `RoundRobin.dfy` | `scripts/seed/rr.py` | the deterministic cursor and weighted sampling |
| `NotifyMarkup.dfy`, `QueryDecoding.dfy`, `LinkScan.dfy`, `LinkSafety.dfy`, `Text.dfy` | `app/utils/notify_markup.py`, `app/utils/route_target.py` | route targets and their parameters, printing and recognising links, and where recognised links lead |
| `Recount.dfy` | `scripts/recount_comment_subject.py` | recounting comment counters |
| `SeedBehavior.dfy` | `scripts/seed_feed_behavior.py` | seeding behaviour and taking it back |
| `Runs.dfy`, `Counting.dfy`, `Wrappers.dfy` | | runs of interleaved tasks, counting, `Option` |

## Findings

These promises do not hold of the code as it stands. For each there is a concrete counterexample or an
exact condition under which it does hold, mostly both.

- One error of the bookkeeping after a Casdoor call leaves the expiry job, and the users behind are not
  even purged: nothing catches a failing listing or commit there (`Deactivation.OneErrorStopsTheJob`; who
  is served is said exactly by `Deactivation.UsersFareAloneUntilAnEscape` and `Deactivation.EscapesIff`).
  The compensation job has the same gap: one row whose bookkeeping fails every time starves all others
  (`CasdoorRetry.OneRowStarvesAll`, against `CasdoorRetry.UndisturbedNobodyStarves`).
- A printed notification can be recognised as a link to a target that the safety test refuses. Neither the
  text nor the target is escaped: a text with braces and a target with quotes can each carry a second link
  (`LinkSafety.UnsafeByText`, `LinkSafety.UnsafeByUrl`, `LinkSafety.EvilIsPrinted`). When everything
  recognised is safe is said exactly by `LinkSafety.SafeIff`, and it always is with a text free of braces
  and a target free of quotes (`LinkSafety.OnlySafeLinksArePrinted`).
- A link that passes the safety test is not always one that the pattern recognises, and a link to an
  internal path is read on to a later close unless white space comes before it
  (`NotifyMarkup.SafeIsNotEnough`, `NotifyMarkup.AloneRecognisedIff`, `NotifyMarkup.AppLinkInTextIff`,
  `NotifyMarkup.AppLinksRunTogether`, and for whole texts `NotifyMarkup.LinksAreRecoveredIff`).
- A re-published message does not always count one higher: an `x-death` header that cannot be iterated
  makes the count 0 for ever, so a message that keeps failing is never given up
  (`RetryCount.CountCanStandStill`, `RetryCount.CountedOnceMore`,
  `ViewConsumer.LimitWorksIffDeathsAreReadable`).
- A handler run that is not cancelled can end without an acknowledgement, or with two
  (`ViewConsumer.WhenTheAckIsMissed`, `ViewConsumer.WhenAckedTwice`), and a view can be counted and its
  message sent again, when a commit takes effect and then reports an error
  (`ViewConsumer.WhenCountedAndResent`; `ViewConsumer.CopiesCountOncePerDay` says what the copy does).
- A table can be created twice: when leaving the connection fails after the CREATE, the next call creates
  again (`ShardCreation.CreatedTwice`, with the exact account in
  `ShardCreation.AtMostOneCompletedCreate`).
- A pending deactivation row can disappear although the Casdoor account is still there: the login's read
  and delete are two statements, and the expiry job may mark the row in between
  (`Deactivation.PendingRowCanBeLost`, `Deactivation.RevokeTakesACoolingRow`).
- An acknowledged message can be neither stored nor dead-lettered: the consumer takes every failed commit
  of a dead letter for a duplicate (`DmContent.WhenABodyIsLost` for one delivery,
  `DmContent.WhenAMessageIsLost` for every run).
- The downgrade of `sync_to_prod` is not symmetric to its upgrade in general, because it recreates the
  dropped table from four fixed columns (`Migration.SyncDowngradeUndoes`); cleaning seeded behaviour keeps
  the rows of counters that the run inserted and all of its events
  (`SeedBehavior.CleaningRestoresAllIff`, `SeedBehavior.SeededEventsStay`).

Where the code and its own documentation disagree, the model follows the code: months are taken in the
zone of the process although the comment speaks of UTC+8 (`app/core/sharding.py:106-111`); the resolver
looks for five of the six tables that the sync creates (`app/core/migration.py:39-47`); the cleaning filter
`seed:%` matches none of the keys that are written (`scripts/seed_feed_behavior.py:162`, `229`).

## Model

| member | source | states |
|---|---|---|
| Ndcg.NdcgAtK | scripts/train_feed_ranker.py:90-112 | the mean over the non-empty groups of scores that, times the ideal gain of the group, give the discounted gain of its top k for some descending order of its scores, and are 0 without an ideal gain; the result is in [0, 1] for non-negative labels |
| Ndcg.ScoreIsShare | scripts/train_feed_ranker.py:107-110 | the score of a group is the one number that is the share of the ideal gain that its top k reaches |
| Ndcg.RankingsCompare | scripts/train_feed_ranker.py:107-110 | two rankings of one group compare in NDCG as their discounted gains do |
| Ndcg.GainOfOne | scripts/train_feed_ranker.py:95-96 | one item with label 1 gains the discount of its position |
| Ndcg.GainsAddUp | scripts/train_feed_ranker.py:95-96 | gains add up position by position, with any factor |
| Ndcg.GroupsTile | scripts/train_feed_ranker.py:101-104 | the groups are consecutive stretches of the samples, without gap or overlap |
| Ndcg.GroupIsStretch | scripts/train_feed_ranker.py:101-104 | each group has its size and starts where the ones before it end |
| Ndcg.ArgSortDescending | scripts/train_feed_ranker.py:107 | the ranking lists every position of the group once, scores descending; ties may fall either way |
| Ndcg.IdealTopIsBest | scripts/train_feed_ranker.py:107-110 | no ordering of a group gains more in its top k than the labels in descending order, and equality means the same top-k labels |
| Ndcg.TopIsLargest | scripts/train_feed_ranker.py:108 | the first m of a descending rearrangement sum to at least the first m of any other arrangement, for every m |
| Ndcg.IdealGainPositive | scripts/train_feed_ranker.py:109-110 | the guard `denom > 0` holds exactly when the top k is not empty and some label is positive |
| Ndcg.GroupNdcgRange | scripts/train_feed_ranker.py:107-110 | a group's NDCG is in [0, 1], and 1 exactly when its top k by score carries the top-k labels and one of them is positive |
| Ndcg.PerfectRankingScoresOne | scripts/train_feed_ranker.py:107-110 | scores that rank by label give exactly 1, however ties are broken |
| Ndcg.MeanNdcgRange | scripts/train_feed_ranker.py:98-112 | for any group sizes and any k the mean is in [0, 1], and 1 exactly when there is a non-empty group and every one of them scores 1 |
| GroupSplit.GroupSizes | scripts/train_feed_ranker.py:62-72 | the sizes are the lengths of the maximal runs of equal ids; for adjacent ids one entry per distinct id, adding up to the length |
| GroupSplit.OrderByGroup | scripts/train_feed_ranker.py:142-146 | one stable order is applied to ids, labels and matrix rows alike, and the ids come out sorted |
| GroupSplit.SplitByGroup | scripts/train_feed_ranker.py:75-87 | the index lists are the ascending positions outside and inside the chosen groups |
| GroupSplit.ChosenGroups | scripts/train_feed_ranker.py:80-84 | whatever the shuffle, exactly as many real groups are chosen as the ratio asks for, at least one |
| GroupSplit.ValidCountIs | scripts/train_feed_ranker.py:83 | the number of validation groups is the ratio of all, rounded down, but at least one and at most all |
| GroupSplit.SplitIsGroupSafe | scripts/train_feed_ranker.py:84-87 | the two sides are disjoint, cover all samples and share no group, groups stay adjacent, and it is said exactly when a side is empty |
| LinUcb.Replay | scripts/train_linucb.py:130-158 | the four dictionaries have the same keys and hold, for every arm, I plus one outer product per impression, the reward vector, the count and the sum |
| LinUcb.ContextIsNonzero | app/services/moment/linucb.py:53-71 | the constant feature keeps every context vector away from zero |
| LinUcb.FeaturesAreRecovered | app/services/moment/linucb.py:53-71 | from ten places on every feature can be read back from its own place, and further places are empty |
| LinUcb.VectorIsCut | app/services/moment/linucb.py:67-71 | with fewer places the vector is cut |
| LinUcb.ReplayContext | scripts/train_linucb.py:135-152 | the replay puts text length, age, engagement and author quality into their places, marks long texts as rich and leaves the rest empty |
| LinUcb.ArmMatrixEntries | scripts/train_linucb.py:153-155 | the stored matrix is I + n x xᵀ, entry by entry |
| LinUcb.ArmIsPositiveDefinite | scripts/train_linucb.py:153-155 | A is symmetric and yᵀAy = yᵀy + n (x·y)², positive for every y other than 0 |
| LinUcb.ThetaIsTheSolution | scripts/train_linucb.py:153-158 | Aθ = b holds for θ = (rewardSum/3)·x/(1 + n xᵀx) and for no other θ |
| LinUcb.WidthIsQuadraticForm | app/services/moment/linucb.py:94-99 | z = x/(1 + n xᵀx) solves Az = x, and x·z = xᵀA⁻¹x = xᵀx/(1 + n xᵀx) is the squared confidence width |
| LinUcb.WidthShrinks | app/services/moment/linucb.py:11-16 | the width strictly falls with every impression of a non-zero context |
| LinUcb.ScoreRange | app/services/moment/linucb.py:97-98 | the expected reward of an arm in its own context is in [0, 1) |
| LinUcb.RewardsBounded | scripts/train_linucb.py:157-158 | the reward sum of an arm is between 0 and three per impression |
| LinUcb.ImpressionsAreEvents | scripts/train_linucb.py:130-158 | counts are numbers of events, and the reward sum counts every impression once for each grade it reaches |
| LinUcb.OrderDoesNotMatter | scripts/train_linucb.py:135-158 | counts and reward sums depend on the impressions and not on their order |
| LinUcb.ArmTable.Train | scripts/train_linucb.py:98-201 | without events it is refused, a dry run changes nothing, otherwise exactly the replayed arms are overwritten or inserted |
| LinUcb.TrainingIgnoresOrder | scripts/train_linucb.py:168-200 | the stored rows do not depend on the event order |
| LinUcb.TrainingOverwrites | scripts/train_linucb.py:168-200 | rows are overwritten whatever was stored before, and training again on the same events changes nothing |
| LinUcb.StoredArmIsSound | scripts/train_linucb.py:168-200 | every stored arm was shown, has a bounded reward sum, a symmetric positive definite A and a non-zero context |
| LinUcb.StoredArmSolution | scripts/train_linucb.py:168-200 | the stored A and b determine one θ, which scores the arm's context below 1 |
| AlsMatrix.BuildMatrix | scripts/train_als_recall.py:57-94 | ids are the distinct items and the users with enough rows, ascending, and every stored row is the sorted list of its user's cells between its row pointers |
| AlsMatrix.MatrixMeansWeights | scripts/train_als_recall.py:68-94 | the value at a user and an item is the sum of all input weights of that pair |
| AlsMatrix.RowsAreSorted | scripts/train_als_recall.py:72-80 | a row holds one cell per input row of its user, columns in range and ascending, and the weights of one column ascending |
| ReportPaging.DistinctModels | app/services/admin/report.py:60-69 | every registered report table, each once |
| ReportPaging.ModelsInOrder | app/services/admin/report.py:60-69 | the tables come in the order of their first use |
| ReportPaging.ListReports | app/services/admin/report.py:303-329 | taking the first page·size rows of each table, merging and slicing gives the page of the one global stable sort, newest first with a missing time last, full if there are enough rows; the total is the sum of the sizes of the listed tables |
| ReportPaging.AllRowsCount | app/services/admin/report.py:306-313 | what is sorted holds every row as often as the listed tables together hold it |
| ReportPaging.AllRowsConcat | app/services/admin/report.py:306-311 | equally old rows come table after table |
| ReportPaging.AllRowsOfOne | app/services/admin/report.py:306-311 | one table alone gives its own rows |
| ReportPaging.NewestIsNotOlder | app/services/admin/report.py:312 | the order is by time, and a missing time is older than any other |
| ReportPaging.EveryRowIsOnAPage | app/services/admin/report.py:303-313 | every row of a listed table is on some page, of any size |
| ReportPaging.TruncationIsHarmless | app/services/admin/report.py:306-313 | cutting sorted tables to n rows does not change the first n of the stable merge |
| ReportPaging.PagesListEveryReportOnce | app/services/admin/report.py:303-329 | over a fixed snapshot the pages together hold every row as often as the listed tables do, and are the one stable newest-first order |
| ReportPaging.NoReportTwice | app/services/admin/report.py:60-69 | with each table listed once no report appears twice |
| RetryCount.CountedOnceMore | app/consumers/retry.py:86-124 | the republished count is exactly one higher if and only if `x-death` is readable and holds no count above it |
| RetryCount.ReadableCountsOnceMore | app/consumers/retry.py:86-124 | with readable headers the count is exactly one higher, `x-death` or not, and stays readable |
| RetryCount.UnreadableNeverCounts | app/consumers/retry.py:86-95 | with an unreadable `x-death` every republished message counts 0 |
| RetryCount.CountCanStandStill | app/consumers/retry.py:86-124 | a concrete header for which the count does not rise |
| RetryCount.Republished | app/consumers/retry.py:116-117 | the new headers carry the new count and every other header unchanged |
| RetryCount.CountIsLargest | app/consumers/retry.py:86-95 | for a readable list of deaths the count is the largest of the counter and the counts in the list |
| RetryCount.NumbersAreRead | app/consumers/retry.py:71-75 | what is read from flags, numbers and texts, and what counts as 0 |
| RetryCount.TruncatedIs | app/consumers/retry.py:71-75 | decimal numbers lose what is behind the point, on both sides of zero |
| RetryCount.GivenUpClasses | app/consumers/retry.py:55-68 | exactly seven classes of errors are given up at once |
| ViewConsumer.Handle | app/consumers/interaction_view.py:52-136 | the branches acknowledge, commit, roll back and publish exactly as the predicates of a run say, with an acknowledgement of an absent resource that fails inside the `try`, and with steps that take effect and then report an error |
| ViewConsumer.TryToCount | app/consumers/interaction_view.py:82-102 | the `try` counts the view, or acknowledges the message of an absent resource, and ends with its first step that is not done |
| ViewConsumer.BlankIffStripped | app/consumers/interaction_view.py:57-63 | an id is dropped as blank exactly when stripping leaves nothing of it |
| ViewConsumer.Republish | app/consumers/retry.py:98-129 | a publish error is swallowed, a cancellation is not, and the copy carries the count given |
| ViewConsumer.OrderlyRunsAck | app/consumers/interaction_view.py:52-136 | a run without cancellations, unexpected lookup errors or a failing rollback, close or last ack acknowledges its message once, or twice when the ack of an absent resource takes effect and reports an error |
| ViewConsumer.WhenAckedTwice | app/consumers/interaction_view.py:88-134 | no run acknowledges more than twice, and twice exactly when the ack inside the `try` takes effect, reports an error, and the handling of that error goes through |
| ViewConsumer.WhenTheAckIsMissed | app/consumers/interaction_view.py:52-136 | the four cases, and no others, in which a run that is not cancelled ends without acknowledging |
| ViewConsumer.WhyMessagesAreDropped | app/consumers/interaction_view.py:60-134 | an acknowledged message is neither counted nor sent again for exactly five reasons |
| ViewConsumer.WhenCountedAndResent | app/consumers/interaction_view.py:98-135 | a run counts a view and sends its message again exactly when the commit takes effect and then reports an error worth another attempt |
| ViewConsumer.CopiesCountOncePerDay | app/services/moment/moment_stat.py:106-119 | however often one view is counted, the public counter moves once for the first day not counted before and once for every change of day |
| ViewConsumer.RunsEnd | app/consumers/interaction_view.py:113-135 | as long as `x-death` can be read, whatever the other counts are, every run of the queue is bounded by what its messages are still good for plus the heaviest message per interrupted delivery |
| ViewConsumer.UsualWeights | app/consumers/interaction_view.py:48-49 | a message with a readable `x-death` and a count that is not negative is good for three handler runs at most |
| ViewConsumer.HandledExactly | app/consumers/interaction_view.py:113-135 | in every run of the queue in which a message with readable headers always fails for now, it is handled max(1, 3 - count) times and is gone exactly then |
| ViewConsumer.FreshMessageIsHandledThreeTimes | app/consumers/interaction_view.py:48-49 | in every such run a fresh message is handled three times and is gone exactly then |
| ViewConsumer.LimitWorksIffDeathsAreReadable | app/consumers/interaction_view.py:113-120 | a run of failing deliveries that empties the queue exists if and only if `x-death` can be read |
| Sharding.TimestampIsRecovered | app/core/sharding.py:93-95 | the timestamp is recovered from every key of the 41/10/12 layout, and keys are positive 63-bit numbers |
| Sharding.KeysCountFrom | app/core/sharding.py:33-44 | the moment that keys count from, and what a millisecond is worth |
| Sharding.KeyOrder | app/core/sharding.py:33-44 | keys are ordered as time, then worker, then sequence |
| Sharding.PaddedNames | app/core/sharding.py:114-118 | table numbers are printed with one width and differ when the numbers differ |
| Sharding.SameShard | app/core/sharding.py:106-129 | two keys share a physical table exactly when month and remainder agree |
| Sharding.GroupByShard | app/core/sharding.py:132-141 | each group is the list of keys routed to its table, in order, and there is no empty group |
| Sharding.GroupsKeepEveryKey | app/core/sharding.py:132-141 | a key is in the group of its own table as often as it was asked for, and in no other |
| Sharding.BatchGet | app/services/message/dm/dm_content.py:66-92 | reading by groups returns exactly what routing each key alone returns; unreadable tables are skipped and cleared bodies read as empty |
| ShardCreation.Process.EnsureTable | app/core/sharding.py:174-199 | a cached table is all the call needs, a lock that is held makes it wait, and otherwise it is said exactly, by the outcomes, which of database and table are created and cached; the table is cached only once leaving the connection has succeeded |
| ShardCreation.Process.PrewarmTables | app/core/sharding.py:202-217 | database and tables are created and cached one after the other up to the first statement that fails, nothing else changes, and the loop succeeds exactly when nothing fails |
| ShardCreation.StepKeepsInv | app/core/sharding.py:174-217 | every step keeps: the cache is true, only the lock holder is inside, each coroutine's knowledge, and the account of creations |
| ShardCreation.CachedTablesExist | app/core/sharding.py:174-217 | in every interleaving cached and returned names are names of existing tables, and no table is asked for in a missing database |
| ShardCreation.AtMostOneCompletedCreate | app/core/sharding.py:190-199 | at most one call completes the creation of a table; every CREATE carried out for it, reported as failed or not, is that one, one reported as failed, one whose connection could not be left, or the one about to complete |
| ShardCreation.CreatedTwice | app/core/sharding.py:195-197 | a run in which a table is created twice |
| ShardCreation.StartupNamesAreRouted | app/core/sharding.py:213-216 | each name of the start-up loop is where the keys of its month with one remainder go |
| ShardCreation.StartupCoversTheMonth | app/core/sharding.py:114-118 | every key of the month is routed to a name of the loop |
| ShardCreation.StartupMonthNeedsNoDdl | app/core/sharding.py:202-217 | once the start-up loop has finished, every later call for a key of its month ends at once, changing nothing |
| ShardCreation.StartupCanFinish | app/core/sharding.py:202-217 | from every state of a process that has just started there is a run in which the loop ends with success |
| DmContent.Services.Handle | app/consumers/dm.py:24-50 | the handler does what its steps do one after the other |
| DmContent.Services.Write | app/services/message/dm/dm_content.py:39-63 | errors of the insert are reported, errors of creating the table escape |
| DmContent.StoreKept | app/services/message/dm/dm_content.py:26-32 | a write leaves every other body readable, and the written one reads back |
| DmContent.AcknowledgedIsSafe | app/consumers/dm.py:24-50 | with any crashes and redeliveries an acknowledged message is readable and marked, or dead-lettered, or its dead letter failed with none there; a resolved letter means a delivered message |
| DmContent.WhenAMessageIsLost | app/consumers/dm.py:43-50 | over every run with crashes, redeliveries and attempts of the job: a message ends acknowledged and neither delivered nor dead-lettered exactly when in one of its deliveries the insert is reported as failed, the dead letter fails without effect and rollback and ack go through, and no delivery of it takes effect |
| DmContent.RunIsTold | app/consumers/dm.py:24-50 | at every moment of every run each delivery stands where its own outcomes have brought it, and marks, dead letters and acknowledgements are what the outcomes of the deliveries tell |
| DmContent.WhenABodyIsLost | app/consumers/dm.py:43-50 | the exact outcomes under which one delivery ends acknowledged with neither |
| Deactivation.Store.ExpireJob | app/tasks/scheduler.py:257-294 | the loop does for one due user after the other what the user's steps do, and ends with the first error that escapes |
| Deactivation.Store.DeleteCasdoorWithCompensation | app/tasks/scheduler.py:310-354 | the Casdoor call and the clearing or blaming of the row, as the steps say; errors of listing and commit escape |
| Deactivation.UsersFareAloneUntilAnEscape | app/tasks/scheduler.py:276-292 | a due user fares as if alone in the job exactly as long as no earlier user ends it, is not touched at all after that, and nobody else is touched |
| Deactivation.EscapesIff | app/tasks/scheduler.py:310-354 | the exact row and outcomes with which a user ends the job |
| Deactivation.ExpiryIs | app/tasks/scheduler.py:276-354 | exactly what becomes of the row, the local data and the account of a due user, by the outcomes |
| Deactivation.JobEscapesIff | app/tasks/scheduler.py:276-292 | the job ends in an error exactly when one of its users has those outcomes |
| Deactivation.OneErrorStopsTheJob | app/tasks/scheduler.py:276-292 | one failing listing for the first user leaves the second cooling and untouched, where alone it would end purged and deleted |
| Deactivation.ExpiredEntirely | app/tasks/scheduler.py:276-354 | a cooling user whose steps all succeed ends purged, deleted and without a row, if the listing reaches the row |
| Deactivation.ExpiryStartsIff | app/tasks/scheduler.py:270-274 | the expiry job takes up a user exactly when it lists the row as cooling |
| Deactivation.CompensationStartsIff | app/tasks/scheduler.py:297-307 | the compensation job takes up a user exactly when it lists the row as pending |
| Deactivation.CompensationIs | app/tasks/scheduler.py:310-354 | exactly what it then leaves of row and account, and when an error escapes |
| Deactivation.SubmissionIs | app/services/user/deactivation_service.py:49-81 | a submission leaves a cooling row for a user who had none, and nothing else |
| Deactivation.RevocationIs | app/services/user/deactivation_service.py:84-91 | a login alone takes a cooling row away and leaves a pending one |
| Deactivation.StepKeepsInv | app/tasks/scheduler.py:257-354 | every step of every activity keeps pending rows purged and what each activity knows |
| Deactivation.PendingMeansPurged | app/tasks/scheduler.py:278-286 | in every interleaving a pending row means that local data is purged |
| Deactivation.HowRowsDisappear | app/tasks/scheduler.py:347-353 | a row disappears by clearing after a Casdoor delete, or by a login that saw it cooling |
| Deactivation.RevokeReadCooling | app/services/user/deactivation_service.py:84-91 | every login about to delete a row read it, cooling, earlier |
| Deactivation.PendingIffMarked | app/services/user/deactivation_service.py:127-131 | a row turns from cooling to pending exactly when a move in between marks it |
| Deactivation.RevokeTakesACoolingRow | app/api/pptr_user_gateway.py:1067-1079 | a login deletes a cooling row exactly when the job has not marked it between the login's read and delete |
| Deactivation.PendingRowCanBeLost | app/api/pptr_user_gateway.py:1067-1079 | a run that ends with purged data, a live Casdoor account and no row |
| CasdoorRetry.PendingTable.DeleteWithCompensation | app/tasks/scheduler.py:310-354 | for a row anywhere in the table: success removes it if the listing shows it, failure counts and moves it to the end, errors of listing and commit escape; the alarm is raised from the limit on and changes nothing |
| CasdoorRetry.AttemptIs | app/tasks/scheduler.py:310-354 | exactly what an attempt does to a row that stands anywhere in the table, by its outcomes, and what escapes |
| CasdoorRetry.AttemptOnGoneRow | app/tasks/scheduler.py:310-354 | a row that is gone is no matter after a deletion, and an error when it is to be blamed |
| CasdoorRetry.PendingTable.RetryJob | app/tasks/scheduler.py:297-307 | one run takes the first hundred rows in order up to the first error that escapes, removes the successes and queues the failures behind everything else |
| CasdoorRetry.UntriedStayInFront | app/services/user/deactivation_service.py:111-124 | after k runs, whatever fails in them, the rows whose turn has not come are still in front in their old order, and all others have failed |
| CasdoorRetry.NobodyStarves | app/tasks/scheduler.py:297-307 | once as many rows have moved as there were, only rows whose deletion failed are left |
| CasdoorRetry.UndisturbedNobodyStarves | app/tasks/scheduler.py:297-307 | without errors of listing and commit that is so after ⌈n/100⌉ runs, however many deletions fail |
| CasdoorRetry.NothingMovesIff | app/tasks/scheduler.py:305-354 | a run makes no progress exactly when the bookkeeping of its first row fails without effect |
| CasdoorRetry.OneRowStarvesAll | app/tasks/scheduler.py:305-354 | one row whose bookkeeping fails so every time keeps the table as it is for ever |
| CasdoorRetry.SuccessfulRuns | app/tasks/scheduler.py:297-307 | when all deletes succeed, n rows are gone after ⌈n/100⌉ runs and not before |
| Migration.UpgradeGoesThrough | alembic/versions/20261011_sync_msg_to_prod.py:39-148 | the sync goes through exactly on schemas that meet its preconditions, with this result |
| Migration.PushGoesThrough | alembic/versions/20261013_msg_push_toggles.py:26-57 | the push upgrade goes through exactly when none of its columns is there |
| Migration.PushDowngradeUndoes | alembic/versions/20261013_msg_push_toggles.py:60-64 | the push downgrade undoes the upgrade on every schema |
| Migration.SyncDowngradeUndoes | alembic/versions/20261011_sync_msg_to_prod.py:152-192 | the sync downgrade always goes through after the upgrade and restores the schema exactly when the dropped table was the one it recreates |
| Migration.ResolverFindsThePrefix | app/core/migration.py:71-85 | for every schema the chain goes through and every part of it already run, the resolver names that part's revision |
| Migration.ResolverAnswers | app/core/migration.py:71-85 | table by table, when the resolver gives which answer, and when it fails |
| Migration.LookedForAre | app/core/migration.py:39-47 | the tables it looks for are the first five that the sync creates |
| Migration.VersionsAre | app/core/migration.py:88-110 | the known revisions are those of the chain, and a version row says how many scripts have been run |
| Migration.ChainGoesThroughSomewhere | alembic/versions/20261011_sync_msg_to_prod.py:39-148 | there is a schema on which the whole chain goes through |
| Migration.RemainingScripts | app/core/migration.py:71-85 | the scripts after the resolved revision lead to the end of the chain |
| Migration.Database.RunScript | alembic/versions/20261011_sync_msg_to_prod.py:39-192 | statements run in order until one is refused; what the statements before it did stays |
| Migration.Database.RepairDroppedRevision | app/core/migration.py:88-125 | known revisions and databases without a version table are left alone, anything else is rewritten to the resolved revision |
| Migration.Database.Upgrade | app/core/migration.py:128-132 | later scripts are run up to the head, with the version row moved after each; when a statement is refused the version names the scripts finished before, and of its script just the statements before it are done; a recorded revision outside the chain is an error that changes nothing |
| Migration.Database.UpgradeDropped | app/core/migration.py:128-132 | after any part of the chain, repair and upgrade meet every remaining precondition and end at the head with the schema of the whole chain |
| RoundRobin.Cursor.Pick | scripts/seed/rr.py:28-33 | the element at the cursor modulo the length, and the cursor moves by one; an empty sequence is an error |
| RoundRobin.Cursor.PickN | scripts/seed/rr.py:35-36 | n consecutive picks; a negative n picks nothing |
| RoundRobin.Cursor.Sample | scripts/seed/rr.py:46-65 | the value of the first entry whose accumulated weight exceeds the bucket; the loop always returns, so the fallback is dead; a total of 0 or less is an error |
| RoundRobin.PickingIsEven | scripts/seed/rr.py:35-36 | from any cursor n picks take every position ⌊n/len⌋ to ⌈n/len⌉ times |
| RoundRobin.SamplingIsExact | scripts/seed/rr.py:46-65 | from any cursor, as many samples as the total weight return every entry exactly as often as its scaled weight, if and only if no scaled weight is negative |
| RoundRobin.SamplingWorksIff | scripts/seed/rr.py:52-58 | without negative weights there is something to sample exactly when some weight is scaled to more than nothing |
| RoundRobin.HalfWeightsAreExact | scripts/seed/rr.py:38-43 | weights that are multiples of one half are met exactly: every round returns each entry twice its weight |
| RoundRobin.RoundIsNearest | scripts/seed/rr.py:52-57 | weights are scaled to the nearest integer, and of two equally near ones to the even one |
| NotifyMarkup.RouteIsRecovered | app/utils/route_target.py:32-65 | the route is parsed back from every target built, for all parameters |
| QueryDecoding.QueryIsRecovered | app/utils/route_target.py:32-50 | a target has a query exactly when some parameter has a value, and decoding it gives just those parameters, in order, with their keys and values |
| QueryDecoding.ParametersAreRecovered | app/utils/route_target.py:43-46 | the same of the encoded query alone |
| QueryDecoding.QuotingIsUndone | app/utils/route_target.py:43-46 | unquoting gives back every text, of any characters |
| QueryDecoding.UnescapedAre | app/utils/route_target.py:43-46 | exactly which characters are written as they are |
| NotifyMarkup.EncodedIsInQuery | app/utils/route_target.py:43-46 | an encoded query is free of quotes, white space, braces and question marks |
| NotifyMarkup.BuiltTargetsAreLinks | app/utils/route_target.py:32-70 | every built target is safe and of the form the pattern takes |
| NotifyMarkup.RouteLinksAreRecovered | app/utils/notify_markup.py:42-74 | a text of plain segments and links to built routes is scanned back to the same links in order, without any condition |
| NotifyMarkup.LinksAreRecoveredIff | app/utils/notify_markup.py:42-74 | a text of plain segments and links of all three forms is scanned back to its links in order exactly when after every internal path white space comes before the next close |
| NotifyMarkup.AloneRecognisedIff | app/utils/notify_markup.py:42 | a link that stands alone is recognised as itself exactly when its text has no braces and its target has one of the pattern's forms |
| NotifyMarkup.RecognisedInTextIff | app/utils/notify_markup.py:42 | inside any text a link with a target of the pattern's forms is recognised as itself exactly when it does not lead to an internal path or no link closes after it before the next white space |
| NotifyMarkup.AppLinkInTextIff | app/utils/notify_markup.py:42 | the same for every target that starts with `/app/`, whatever it holds, with the condition that it holds no white space |
| NotifyMarkup.AppLinksRunTogether | app/utils/notify_markup.py:42 | two links to internal paths are scanned as one whenever neither the paths nor the second text hold white space |
| NotifyMarkup.SafeIsNotEnough | app/utils/notify_markup.py:42-61 | a target that passes the safety test and is not recognised |
| NotifyMarkup.SafeInAnyCase | app/utils/notify_markup.py:53-61 | the safety test does not tell capitals from small letters, but for the name of a route |
| NotifyMarkup.LowerIs | app/utils/notify_markup.py:53-61 | capitals of the alphabet are lowered, and nothing else |
| Text.SpacesAre | app/utils/notify_markup.py:53 | the characters that count as white space, one by one |
| Text.StripTakesSpace | app/utils/notify_markup.py:53 | stripping takes white space from both ends, all of it, and nothing else |
| LinkSafety.SafeIff | app/utils/notify_markup.py:42-74 | for every text and safe target, all links recognised in what is printed are safe exactly when those within the text are and those in what is left of the target; what is left depends on how the scan of the text alone ends, and on one look at the target |
| LinkScan.SafeAcrossIff | app/utils/notify_markup.py:42-74 | the same for any beginning of the printed link that ends in a brace, by induction over the scan |
| LinkScan.StepAcross | app/utils/notify_markup.py:42 | the scan of the text sees nothing of what follows it, unless the text ends in the link itself or in an open path that some of the target still belongs to |
| LinkScan.PathAcross | app/utils/notify_markup.py:42 | a path that is still open where the text ends takes the target up to its last close before white space, or nothing of it |
| LinkSafety.SafeWithQuoteFreeUrlIff | app/utils/notify_markup.py:64-74 | with a target free of quotes only the links within the text decide |
| LinkSafety.SafeWithBraceFreeTextIff | app/utils/notify_markup.py:64-74 | with a text free of braces only what the pattern leaves of the target as its own decides |
| LinkSafety.OnlySafeLinksArePrinted | app/utils/notify_markup.py:64-74 | with both, nothing is recognised but the given link, and that just when it is printed and has a form of the pattern; so every recognised link is safe |
| LinkSafety.RecognisedAsGivenIff | app/utils/notify_markup.py:42-74 | the recognised links are the given one and nothing else exactly when the target is safe and has a form of the pattern and the text is not empty and free of braces |
| LinkScan.ReadTargetIsSafe | app/utils/notify_markup.py:42-61 | what the pattern reads from a safe target is safe, even when it stops before its end |
| LinkSafety.TextSmuggles | app/utils/notify_markup.py:64-74 | a text that carries a link of its own is printed so that this link is recognised first |
| LinkSafety.UrlSmuggles | app/utils/notify_markup.py:64-74 | a safe target that carries a second link is recognised as both links |
| LinkSafety.UnsafeByText | app/utils/notify_markup.py:64-74 | whatever the safe target, some texts print a recognised link to a route that is not registered |
| LinkSafety.UnsafeByUrl | app/utils/notify_markup.py:64-74 | some targets pass the safety test and do the same |
| LinkSafety.EvilIsPrinted | app/utils/notify_markup.py:64-74 | a concrete text and a concrete target that do |
| Recount.LoadTruth | scripts/recount_comment_subject.py:53-66 | the grouped counts of visible comments, for the selected areas that have any |
| Recount.CountsAreRows | scripts/recount_comment_subject.py:53-66 | the counts of an area are the numbers of its visible rows, and of those that answer no other |
| Recount.SelectedIs | scripts/recount_comment_subject.py:62-75 | without an object every area is selected, with one just those of it |
| Recount.Tables.Run | scripts/recount_comment_subject.py:69-134 | with apply exactly the selected counters become right, without it nothing changes, and totals and warnings are the same either way |
| Recount.TotalsAreAreas | scripts/recount_comment_subject.py:84-116 | the totals are the numbers of selected areas, and of dynamics, whose counters are wrong |
| Recount.KeysAre | scripts/recount_comment_subject.py:118-123 | the warnings leave out exactly the selected areas |
| Recount.AppliedRunIsRight | scripts/recount_comment_subject.py:84-96 | every selected area carries the from-scratch counts, roots at most all, with every other field and area untouched |
| Recount.StatAgreesWithArea | scripts/recount_comment_subject.py:98-116 | the counter of a dynamic agrees with its area, and nothing else of the row changes |
| Recount.OtherStatsStay | scripts/recount_comment_subject.py:98-116 | a dynamic without a selected area keeps its counters as they are |
| Recount.SecondRunChangesNothing | scripts/recount_comment_subject.py:25-26 | a second applied run changes nothing and finds nothing to change |
| SeedBehavior.Database.Seed | scripts/seed_feed_behavior.py:227-337 | the nested loops with batched flushes write every event once and leave likes, favourites and counters as the visits say |
| SeedBehavior.Database.CleanAndSeed | scripts/seed_feed_behavior.py:211-225 | the run before is taken back and the counters saved first; without moments nothing happens |
| SeedBehavior.Database.Clean | scripts/seed_feed_behavior.py:153-178 | likes and favourites of real users stay as often as they were, all others go, events go by the prefix `seed:` only, and the saved counters are written back |
| SeedBehavior.KeptInOrder | scripts/seed_feed_behavior.py:160-166 | the rows that stay keep their order |
| SeedBehavior.Database.BackupStats | scripts/seed_feed_behavior.py:182-208 | the counters of exactly the given resources that have any are saved |
| SeedBehavior.MarkedOnce | scripts/seed_feed_behavior.py:296-324 | a viewer likes or favours a resource at most once |
| SeedBehavior.MarkedByAll | scripts/seed_feed_behavior.py:301-324 | a row is there exactly for every viewer and resource with such a reaction |
| SeedBehavior.CountersGrowByRows | scripts/seed_feed_behavior.py:127-150 | each resource's counters grow by exactly its like rows, favourite rows and reactions |
| SeedBehavior.EventCount | scripts/seed_feed_behavior.py:267-295 | one event per impression and one more per reaction |
| SeedBehavior.EventsAreWritten | scripts/seed_feed_behavior.py:267-295 | every event is there exactly as often as visits write it: an impression each, and a click with a reaction, by viewer, resource and position |
| SeedBehavior.CleaningRestores | scripts/seed_feed_behavior.py:168-176 | after cleaning every resource that had a row has its old counters again |
| SeedBehavior.CleaningRestoresAllIff | scripts/seed_feed_behavior.py:168-176 | the counters are taken back entirely exactly when every resource with a reaction had a row before |
| SeedBehavior.SeededMarksGo | scripts/seed_feed_behavior.py:165-166 | cleaning removes every like and favourite of a run |
| SeedBehavior.SeededEventsStay | scripts/seed_feed_behavior.py:160-164 | cleaning removes none of the events of a run |

## Left out

- Rounding: floats are exact reals, and 1/log2(i+2) is any positive strictly decreasing sequence; NaN and infinite scores are not modelled.
- Models and libraries: LightGBM, ALS, alembic, SQLAlchemy, RabbitMQ, MySQL, Casdoor and the id generators are what their callers rely on, no more.
- Group sizes fed to the booster, AUC and file output of the rankers; the UCB blend and arm loading of `app/services/moment/linucb.py`.
- ReportPaging.ListReports: models only the list without a resource type; the single-table branch, status parsing and the loading of users and resources are outside it, and every table is taken to answer newest first from one snapshot.
- ViewConsumer.Handle: what an unexpected error does after leaving the handler is the framework's business; here the message simply stays unacknowledged. `number` of a text header stands for what `int()` reads from it, and decimal header values count as finite numbers.
- Sharding.SameShard: the month of a time is a parameter of six characters; the calendar and the zone are not modelled.
- ShardCreation.StepKeepsInv: nothing drops tables, and only one process with its caches is modelled.
- DmContent.AcknowledgedIsSafe: all redeliveries of a key carry the same body, recalls do not clear bodies meanwhile, and the job's attempt on one row is one task.
- Deactivation.StepKeepsInv: whether a listing of a hundred rows reaches a user's row is left open in every step; due dates and the wording of errors are not modelled. That a revoked account is never purged is not claimed: the job does not look again between listing and purging.
- CasdoorRetry.PendingTable.RetryJob: runs alone, rows written in one run sort behind all others, and the order among equal `updated_at` values is the order of writing.
- Migration.Database.Upgrade: only the target `head` and version tables with at most one row are modelled, since what several rows mean is decided by alembic; half-applied scripts, column types, defaults, comments and the columns of indexes are not.
- SeedBehavior.Database.Seed: random draws are parameters, timestamps and folders are left out, and so is a crash between two flushes.
- Recount.Tables.Run: counters are never null, and the areas and comments do not change during a run.
- NotifyMarkup.RouteIsRecovered: parameter values are given as their texts; `jump_target_for` is a lookup in front of the builder and adds nothing hard.
- Route handlers, permission checks, schemas, configuration and the other jobs of the scheduler: parameter plumbing without a deep property.
