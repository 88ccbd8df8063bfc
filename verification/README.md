# A model of librepo's downloader and parsers

librepo downloads repository metadata and packages from lists of mirrors. This project models its
stateful cores in Dafny and proves what they promise over whole runs:

* **The download scheduler** (`librepo/downloader.c`). `Schedule` describes a step of the scheduler on
  values, `Downloader` holds the objects (mirrors, shared mirror lists, targets, the download itself) and
  its methods, with the loops of the source, are proved to make exactly those steps. A run is a list of
  events: a running transfer finishes with some outcome, free slots are refilled, or the run is broken off
  from outside (a signal, an error of the curl multi interface, a speed limit that curl refuses). Which
  transfer finishes and how, what the end callbacks answer and whether a transfer can be set up are
  arbitrary.
  `ScheduleInvariants` has the invariant of every reachable state, `ScheduleTermination` an explicit
  bound on the number of transfers, `ScheduleTheorems` what the caller gets when `lr_download` returns,
  `ScheduleAccounting` the conservation of transfers, `MirrorSearch` and `MirrorSorting` the choice of a
  mirror and the adaptive order. `ScheduleChoice` and `ScheduleOutcomes` say on the fields and counters alone
  what a selection, a refill and a finished transfer do, among others that no free connection stays unused;
  `ScheduleReasons` that a target fails and a run breaks off only for a reason.
* **Pieces of the same file**: the byte-range write callback (`WriteCallback`), resuming and truncating
  (`Resume`), sharing the bandwidth (`SpeedLimit`), one end callback per repository (`MetadataCallback`).
* **The SAX automata** (`librepo/xmlparser.c`, `metalink.c`, `repomd.c`). Documents are trees, flattened
  to start, text and end events. `SaxTable` proves once, for any transition table that is a tree, that two
  counters and a parent table stand in for a stack. `Metalink*` and `Repomd*` prove, for both formats, that
  folding the handlers over a document gives a recursive reading of the tree, exactly when parsing fails
  (the warning callback may stop it at any warning), and that no assertion of a handler fails on any
  prefix of a document.
* **Supporting cores**: the checksum cache in extended attributes (`ChecksumCache`), the order of the
  fastest mirrors (`FastestMirror`), URL variables (`UrlSubstitution`, with rules for every kind of text in
  `UrlExpansion`), path joining (`PathConcat`, with what is joined in `PathJoining`).

## How the objects and the functions fit together

A class whose methods change state keeps the source's fields. `Downloader.LrDownload` also has a ghost
field `view`, the same state on values, which `Valid()` ties to every object; each method states its new
`view` as a function of the old one. All claims about runs are then lemmas about those functions. In a
`view` a connection limit of 0 ("not initialised yet") reads as the configured limit, so
`init_once_allowed_parallel_connections` is invisible there. `starts`, `notes` and `endCalls` record
history only.

Options are assumed to be in the range their setters enforce: at least one parallel connection, and a
limit per host of -1 or at least 1. Targets are not zchunk targets.

## Where the code differs from its description

* The offline branch of `select_next_target` marks a target as failed and calls its end callback
  (librepo/downloader.c:929-970); with failfast off, control then reaches line 972 and the target is
  started all the same. `ScheduleTheorems.BlockedTargetIsReportedTwice` is such a run.
  `ScheduleTheorems.NormalReturn` and `AbortedReturn` give the number of notifications of every target:
  one for its end, and one more for every start if and only if this branch applies to it. The end callback
  of a repository is called exactly once all the same; `MetadataCallback.EachRepositoryReportsOnce` says
  when it comes with the last of its files.
* `sort_mirrors` says that a bad mirror is moved to the end; it is exchanged with the last one
  (librepo/downloader.c:2190-2198). `MirrorSorting.SeriousErrorMovesToEnd` says that this is the same if and
  only if at most one mirror stands behind it, and `MirrorSorting.FirstOfThree` shows the difference.
* `librepo/package_downloader.h:225-227` says that an end of a byte range at or before its start is
  ignored. `lr_writecb` writes one byte or none then. `WriteCallback.DocumentedExactlyWhen` is the exact
  condition under which the two agree.
* A non-empty file without librepo's attribute is emptied before it is downloaded again, but the write
  position stays at its old end (librepo/downloader.c:1584, 1607-1616), so the result starts with zeros:
  `Resume.UnmarkedFile`. Where extended attributes are not stored this happens to an empty file too, once the
  connection is lost: `Resume.LostConnection`. `Resume.RightExactlyWhenTrustworthy` is the exact condition on
  the initial file under which every run ends with the right content.
* A cached checksum is only as good as the modification time: `ChecksumCache.TimeMustNotGoBack` shows a
  wrong answer after a time stamp is set back. `ChecksumCache.RightExactlyWhenAllowed` is the exact
  condition: a write must not give the file the time the cache is stamped with, unless what is cached is
  right for the new content too, or the cache is cleared after it.
* A comment says that removing the stamp alone is sufficient to clear the cache (librepo/checksum.c:307-309).
  `ChecksumCache.StampAloneIsNotEnough` shows a sum that is believed again once another comparison has
  stamped the file. `ChecksumCache.AlwaysRightExactlyWhenSound` is the exact condition on the attributes a
  file starts with.
* The documentation allows any alphanumeric characters and underscores in the name of a URL variable
  (librepo/url_substitution.h:66-67). The code reads an underscore only in front of an alphanumeric
  character (librepo/url_substitution.c:127), so a name with a trailing or a double underscore is not
  substituted: `UrlSubstitution.TrailingUnderscore`. `UrlSubstitution.DocumentedExactlyWhen` says that code
  and documentation agree on a URL, for all variables, if and only if it refers to no such name.

## Model

| member | source | states |
|---|---|---|
| Schedule.Choose | librepo/downloader.c:709-849 | the mirror chosen is free and least in (level, list position); none is chosen exactly when no eligible mirror has a free connection |
| Schedule.BestIsUnique | librepo/downloader.c:734-810 | at most one position is least, so a search that stops in one has made the choice |
| Schedule.ConsiderChanges | librepo/downloader.c:855-984 | considering one target either leaves the state alone or gives up exactly this target, which was waiting; only the offline branch gives up a target that has no mirrors, and a target is started on a mirror exactly when it uses mirrors |
| Schedule.IndexOf | librepo/downloader.c:2177-2180 | the first position of a mirror in its list |
| ScheduleInvariants.InitOk | librepo/downloader.c:2703-2800 | the state lr_download sets up satisfies the invariant |
| ScheduleInvariants.GiveUpKeepsInv | librepo/downloader.c:812-846 | giving up a waiting target keeps the invariant, the count of its notifications included |
| ScheduleInvariants.StartWithinLimits | librepo/downloader.c:337-349 | one more running transfer keeps a mirror within its limit, the per-host limit and the bound on failures plus running transfers |
| ScheduleInvariants.StartKeepsInv | librepo/downloader.c:1695-1717 | starting a transfer on a mirror that is not full keeps the invariant |
| ScheduleInvariants.SettleWithinLimits | librepo/downloader.c:352-359 | recording a success or a failure keeps the mirror within every limit |
| ScheduleInvariants.SettleKeeps | librepo/downloader.c:2399-2411 | the bookkeeping of a finished transfer keeps the invariant of every other target and mirror |
| ScheduleInvariants.ForgiveKeeps | librepo/downloader.c:2442-2462 | another chance for a mirror keeps its connections within the lowered limit, which stays at least one |
| ScheduleInvariants.RetryKeepsInv | librepo/downloader.c:2466-2475 | a target that may be retried goes back to waiting with an attempt it can still afford |
| ScheduleInvariants.ConcludeKeepsInv | librepo/downloader.c:2507-2591 | ending a target as finished with LRE_OK or failed with an error keeps the invariant and notifies it once |
| ScheduleInvariants.FinishKeepsInv | librepo/downloader.c:2241-2600 | every outcome of a finished transfer keeps the invariant, and with failfast no target is failed as long as no error is returned |
| ScheduleInvariants.SelectKeepsInv | librepo/downloader.c:855-984 | choosing the next target keeps the invariant, and a chosen target may be started on its mirror |
| ScheduleInvariants.NobodyMeansStarving | librepo/downloader.c:855-984 | when no target is chosen, every target still waiting has eligible mirrors and all of them are full |
| ScheduleInvariants.PrepareOneKeepsInv | librepo/downloader.c:1451-1733 | starting one transfer, or failing to, keeps the invariant and adds at most one running transfer |
| ScheduleInvariants.PrepareAllKeepsInv | librepo/downloader.c:1796-1818 | refilling the free slots keeps the invariant, the limit on parallel transfers included |
| ScheduleInvariants.ApplyKeepsInv | librepo/downloader.c:2241-2604 | every event keeps the invariant |
| ScheduleInvariants.ExecuteKeepsInv | librepo/downloader.c:2609-2700 | every reachable state satisfies the invariant: counters agree with the running targets, limits hold, attempts are affordable, notifications are counted |
| ScheduleTermination.SettleSpends | librepo/downloader.c:2399-2411 | a transfer that ends costs its target one of the attempts it has left |
| ScheduleTermination.ForgivenMirrorSpends | librepo/downloader.c:2442-2462 | another chance costs the mirror: its limit falls, or it is among its first failures |
| ScheduleTermination.ForgiveLowersPotential | librepo/downloader.c:2442-2462 | a forgiven failure lowers the whole supply although the target gets its attempt back |
| ScheduleTermination.FinishSpends | librepo/downloader.c:2241-2600 | every finished transfer strictly lowers the supply of attempts and second chances, whatever its outcome |
| ScheduleTermination.FinishEnds | librepo/downloader.c:2399-2411 | every finished transfer counts as one ended start |
| ScheduleTermination.SelectCosts | librepo/downloader.c:855-984 | choosing a target never adds to the supply |
| ScheduleTermination.PrepareAllCosts | librepo/downloader.c:1796-1818 | refilling slots never adds to the supply |
| ScheduleTermination.ApplySpends | librepo/downloader.c:2241-2604 | no event adds to ended transfers plus supply, and a report of a running transfer strictly lowers the supply |
| ScheduleTermination.ExecuteSpends | librepo/downloader.c:2609-2700 | over any run, ended transfers plus remaining supply never exceed the initial supply |
| ScheduleTermination.RunningIsAffordable | librepo/downloader.c:1700-1716 | every running transfer is backed by an attempt still in the supply |
| ScheduleTermination.StartsAreBounded | librepo/downloader.c:309-320 | in every run the number of transfers started is at most an explicit function of the targets, their mirror lists and the options |
| ScheduleTermination.ReportsAreBounded | librepo/downloader.c:2609-2645 | the environment can deliver only so many reports before nothing runs, so every run ends |
| ScheduleTheorems.StarvingNeedsRunning | librepo/downloader.c:796-803 | a target can wait for a full mirror only while some transfer is running |
| ScheduleTheorems.PrepareAllStarvesNobody | librepo/downloader.c:1796-1818 | if nothing runs after the slots were refilled without error, no target waits |
| ScheduleTheorems.QuietStays | librepo/downloader.c:2642-2645 | once nothing runs and nothing waits, no event changes anything, and only an interruption from outside is an error |
| ScheduleTheorems.LoweredTightens | librepo/downloader.c:2454-2457 | lowering the connections of a mirror never raises a finite limit |
| ScheduleTheorems.FinishEvolves | librepo/downloader.c:2241-2600 | a finished transfer changes no ended target, raises no limit, loses no mirror and takes back no notification |
| ScheduleTheorems.ExecuteEvolves | librepo/downloader.c:2609-2700 | over any run ended targets stay as they are (the offline exception aside), finite limits never rise, counters never fall, every mirror list stays a permutation of itself |
| ScheduleTheorems.ExecuteFallsThrough | librepo/downloader.c:929-972 | while no error is returned, every offline-blocked target that ended had been started after its first notification |
| ScheduleTheorems.NobodyIsLeftWaiting | librepo/downloader.c:2602-2645 | when lr_download returns TRUE no target waits and nothing runs |
| ScheduleTheorems.NormalReturn | librepo/downloader.c:2703-2883 | on TRUE every target is finished or failed, with failfast all are finished, LRE_OK means finished, and the end callback was called once if and only if the offline branch does not apply, else once more per start; a URL or base URL gets between one and its allowed number of attempts |
| ScheduleTheorems.AbandonNotifies | librepo/downloader.c:2800-2837 | the cleanup after an error notifies exactly the running targets, once each, and marks them unfinished |
| ScheduleTheorems.AbortedReturn | librepo/downloader.c:2796-2837 | after an error every target was notified of its end once, or not at all if it was still waiting, plus once more per start if the offline branch applies to it; running ones are marked unfinished, and LRE_OK still means finished |
| ScheduleTheorems.LimitsHold | librepo/downloader.c:345-359 | in every reachable state a mirror's running count is the number of running targets using it and is within its limit, the per-host limit and the parallel limit; failures plus running of a mirror without success stay below the allowed failures plus the parallel cap |
| ScheduleTheorems.GivesUpOnlyWithoutMirrors | librepo/downloader.c:812-846 | a waiting target is given up only if no mirror is eligible even ignoring fullness, and always then when every target is gone through |
| ScheduleTheorems.BlockedTargetIsReportedTwice | librepo/downloader.c:929-972 | offline with failfast off, a base URL target is notified as failed, started, and notified again as finished |
| ScheduleOutcomes.RetriedExactlyWhen | librepo/downloader.c:309-320 | a failed transfer is tried again if and only if nobody cancelled it and, with n tries counted, a URL that is no file has n below the allowed failures, or a path on mirrors has n below the mirrors to try or no such limit; otherwise the target fails with one notification; and when the download goes on |
| ScheduleOutcomes.MirrorAfterError | librepo/downloader.c:2442-2462 | counters of the mirror after a failure; the second chance exactly when the error was serious, not cancelled, and the mirror has other transfers running or a success and fewer failures than connections at once; its new limit, and that the try does not count |
| ScheduleOutcomes.DirectAfterError | librepo/downloader.c:2399-2411 | a failure without a mirror counts as one more try and leaves mirrors and lists alone |
| ScheduleOutcomes.AfterSuccess | librepo/downloader.c:2545-2591 | a success finishes the target with LRE_OK and one notification and counts for its mirror; the download goes on unless the end callback stops it |
| ScheduleOutcomes.NothingElseChanges | librepo/downloader.c:2399-2600 | other targets and mirrors stay as they are, and just this transfer leaves the running ones |
| ScheduleOutcomes.ListsAfterFinish | librepo/downloader.c:2404-2411 | with adaptive sorting, and only then, the list of this target is sorted for the counters after this transfer |
| ScheduleOutcomes.OtherReports | librepo/downloader.c:2361-2371 | a checksum that cannot be computed ends the download as it stands |
| ScheduleChoice.EligibleExactlyWhen | librepo/downloader.c:734-790 | a mirror can serve a target if and only if its protocol can be used and it is untried and not bad, or is no local path and it and the target have had fewer than the allowed failures |
| ScheduleChoice.ChoosesExactlyWhen | librepo/downloader.c:734-810 | a mirror is chosen if and only if some eligible one has no limit or fewer transfers running than allowed |
| ScheduleChoice.ChoiceIsFirst | librepo/downloader.c:734-810 | the one chosen belongs to the earliest pass, and is the first in the list among those |
| ScheduleChoice.BlockedExactlyWhen | librepo/downloader.c:927-931 | when the offline branch applies |
| ScheduleChoice.StartedOnFields | librepo/downloader.c:1695-1717 | what starting a transfer changes in target, running list, mirror counters and notifications |
| ScheduleChoice.ServedInOrder | librepo/downloader.c:855-984 | a target passed over for a later one waits for mirrors that are all used by as many transfers as they allow |
| ScheduleChoice.NoConnectionIsLeftUnused | librepo/downloader.c:1796-1818 | after filling the free slots as many transfers run as may, or every target still waiting has eligible mirrors and all of them run as many transfers as they allow |
| ScheduleChoice.RefillUsesEveryConnection | librepo/downloader.c:1796-1818 | the same for every refill that lr_perform makes |
| ScheduleReasons.FailsForAReason | librepo/downloader.c:2413-2540 | one event fails a target only if it was cancelled, has used all its tries, or waits with no mirror that can serve it |
| ScheduleReasons.EveryFailureHasAReason | librepo/downloader.c:2609-2700 | over any run, a failed target that the offline branch does not apply to was cancelled at some event, or at some refill no mirror could serve it, or it has used all its tries: exactly the mirrors to try, or the allowed failures of a URL |
| ScheduleReasons.NoCallbackIsIgnored | librepo/downloader.c:2496-2600 | while a run goes on no end callback has asked to stop it, and with failfast nothing has failed |
| ScheduleReasons.RefillBreaks | librepo/downloader.c:1796-1818 | a refill breaks off only at its last notification or because a waiting target cannot be set up or has no mirrors at all |
| ScheduleReasons.EveryEndHasAReason | librepo/downloader.c:2609-2700 | a run that is broken off ended with an interruption, a report that cannot be handled or whose callbacks ask to stop, or a target that cannot be prepared |
| ScheduleReasons.HighWaterMark | librepo/downloader.c:337-343 | the connections a mirror has had at once are raised by every event exactly to the transfers then running |
| ScheduleAccounting.SuccessAccounted | librepo/downloader.c:2399-2411 | a success moves one running transfer to the successes of its mirror and one target to those finished from it |
| ScheduleAccounting.ErrorAccounted | librepo/downloader.c:2399-2475 | a failure, forgiven or not, moves one running transfer to the failures |
| ScheduleAccounting.ExecuteAccounted | librepo/downloader.c:352-359 | over any run the statistics of the mirrors stay in balance with the targets |
| ScheduleAccounting.BooksBalance | librepo/downloader.c:337-359 | in every reachable state a mirror's successes are the targets finished from it, and running, successful and failed transfers of all mirrors together are the transfers started for mirror targets |
| MirrorSearch.LevelIsFirstIteration | librepo/downloader.c:739-786 | the level of a mirror is the first iteration in which the tests of the loop admit it |
| MirrorSearch.PassOver | librepo/downloader.c:739-803 | passing a mirror that is not considered or is full keeps what is known of the search |
| MirrorSearch.PickUp | librepo/downloader.c:805-807 | the first considered mirror that is not full is the least free one |
| MirrorSearch.NextIteration | librepo/downloader.c:809-810 | an exhausted iteration hands its knowledge to the next one |
| MirrorSearch.SearchEnds | librepo/downloader.c:809-812 | when the loops end without a mirror none is free, and the found flag says whether any is eligible |
| MirrorSorting.NeighbourSwap | librepo/downloader.c:2207-2223 | exchanging neighbours changes the number of rank inversions by exactly that pair |
| MirrorSorting.SortMirrorsExchanges | librepo/downloader.c:2167-2223 | sort_mirrors exchanges at most one pair, the reported mirror with another one, forward after a success and backward otherwise, and leaves every other position alone |
| MirrorSorting.ExchangeMovesToEnd | librepo/downloader.c:2190-2196 | exchanging a mirror with the last one moves it to the end if and only if at most one mirror stands behind it |
| MirrorSorting.SeriousErrorMovesToEnd | librepo/downloader.c:2190-2198 | so after a serious error of a mirror without success the list is the one the comment describes if and only if at most one mirror stands behind it |
| MirrorSorting.FirstOfThree | librepo/downloader.c:2190-2198 | of three mirrors the first changes places with the last, which gets ahead of the second |
| MirrorSorting.RankedPair | librepo/downloader.c:2201-2223 | a swap for rank exchanges neighbours, of which the first had the lower rank when both are ranked |
| MirrorSorting.RankCompares | librepo/downloader.c:2136-2152 | the ranks of mirrors with at least three transfers compare as their shares of successes do, multiplied out |
| MirrorSorting.PenalizedExactlyWhen | librepo/downloader.c:2185-2215 | after an error a mirror changes places with the next one if and only if that one has had fewer than three transfers or a higher share of successes, and it has had three itself; with the last one after a serious error without success; and never when it is last |
| MirrorSorting.AwardedExactlyWhen | librepo/downloader.c:2216-2224 | after a success it changes places with the previous one if and only if that one has had fewer than three transfers or a lower share, and it has had three itself; and never when it is first |
| MirrorSorting.SortMirrorsImproves | librepo/downloader.c:2137-2223 | a rank-based swap of two ranked mirrors removes exactly one inversion, any other leaves their number |
| Downloader.LrMirror.InitOnceAllowedParallelConnections | librepo/downloader.c:329-334 | the limit is initialised once and means the same before and after |
| Downloader.LrMirror.IncreaseRunningTransfers | librepo/downloader.c:337-342 | one more running transfer, and the most tried at once keeps up |
| Downloader.LrMirror.UpdateStatistics | librepo/downloader.c:352-359 | one running transfer becomes a success or a failure |
| Downloader.MirrorList.Find | librepo/downloader.c:2177-2180 | the first link holding the mirror |
| Downloader.MirrorList.ChoosePartner | librepo/downloader.c:2182-2223 | the branches pick the pair the specification exchanges |
| Downloader.MirrorList.SortMirrors | librepo/downloader.c:2167-2223 | the shared list is reordered in place exactly as specified |
| Downloader.LrDownload.constructor | librepo/downloader.c:2703-2800 | fresh targets and mirrors represent the initial state |
| Downloader.LrDownload.Visit | librepo/downloader.c:739-807 | one mirror visited in an iteration is taken only if it is the declarative choice |
| Downloader.LrDownload.SearchOnce | librepo/downloader.c:735-808 | one pass over the list either finds the choice or completes the iteration |
| Downloader.LrDownload.SearchMirrors | librepo/downloader.c:734-810 | the nested loops return the declarative choice, and found says whether any mirror is eligible |
| Downloader.LrDownload.ConcludeTarget | librepo/downloader.c:2511-2531 | state and result code of the target are set and the end callback called once, with its answer returned |
| Downloader.LrDownload.SelectSuitableMirror | librepo/downloader.c:709-849 | the chosen mirror, or a target given up exactly when no mirror is eligible, or neither while all are full |
| Downloader.LrDownload.ConsiderTarget | librepo/downloader.c:862-984 | one target of the loop is considered exactly as specified, offline branch included |
| Downloader.LrDownload.SelectNextTarget | librepo/downloader.c:855-984 | the loop over all targets makes exactly the specified selection |
| Downloader.LrDownload.StartTransfer | librepo/downloader.c:1700-1717 | target, running list and mirror counters all move together |
| Downloader.LrDownload.LaunchTransfer | librepo/downloader.c:1468-1717 | the mirror is assigned first, so a transfer that cannot be set up leaves it assigned and starts nothing |
| Downloader.LrDownload.PrepareNextTransfer | librepo/downloader.c:1451-1733 | one transfer is started, or none is left to start, or an error stops the download |
| Downloader.LrDownload.PrepareNextTransfers | librepo/downloader.c:1796-1818 | the free slots are refilled exactly as specified; then a refused speed limit may break the run off, if anything runs |
| Downloader.LrDownload.SettleTarget | librepo/downloader.c:2399-2411 | running list, tried mirrors, statistics and mirror order after a finished transfer |
| Downloader.LrDownload.LowerConnections | librepo/downloader.c:2454-2457 | the limit becomes the connections still running, or one |
| Downloader.LrDownload.SettleError | librepo/downloader.c:2399-2462 | the statistics after a failure and the second chance exactly when it is due |
| Downloader.LrDownload.FinishError | librepo/downloader.c:2413-2543 | a failed transfer is retried or ends its target, and stops the download for the reasons given and no others |
| Downloader.LrDownload.FinishTransfer | librepo/downloader.c:2241-2600 | a finished transfer with any outcome changes the objects exactly as specified |
| Downloader.LrDownload.TakeReport | librepo/downloader.c:2241-2600 | the report of some running transfer is one event of the run and lowers the supply |
| Downloader.LrDownload.TakeReports | librepo/downloader.c:2241-2600 | all pending reports, at least one when something runs, as a list of events that lowers the supply |
| Downloader.LrDownload.CheckTransferStatuses | librepo/downloader.c:2241-2604 | the reports taken in and then a refill, as a list of events |
| Downloader.LrDownload.Perform | librepo/downloader.c:2609-2700 | the loop ends, and what it did is a run of events after which nothing runs or an error was returned; a signal or an error of curl may break it off in any pass |
| Downloader.LrDownload.StopTransfers | librepo/downloader.c:2800-2837 | every running transfer is stopped and its target notified |
| Downloader.LrDownload.Download | librepo/downloader.c:2703-2883 | the whole call is some run from the initial state, ending normally with TRUE or, after an error, in the cleanup of that run; the number of starts respects the bound |
| SpeedLimit.SetMaxSpeedsToTransfers | librepo/downloader.c:1735-1791 | on success every transfer of a limited repository gets a limit whose multiple by the running transfers covers the speed with less than one byte each in excess; when curl refuses a limit, every transfer has its new limit or the one it had; all others keep theirs |
| SpeedLimit.CountPerRepo | librepo/downloader.c:1742-1758 | the table holds exactly the limited repositories with their numbers of running transfers |
| SpeedLimit.DivideUp | librepo/downloader.c:1768-1770 | rounding the quotient up gives a sufficient share |
| SpeedLimit.SharesAddUp | librepo/downloader.c:1760-1788 | all transfers of a repository get the same limit, and the limits add up to at least M and at most M + n - 1 |
| MetadataCallback.LrMetadataTarget.EndFunc | librepo/downloader.c:2966-2983 | one more record is counted and the end callback is called exactly when the last one expected arrives |
| MetadataCallback.Deliver | librepo/yum.c:785-823 | counting the files of a repository and delivering their notifications calls its end callback as often as the specification says |
| MetadataCallback.CalledAtExpected | librepo/downloader.c:2966-2983 | the end callback of a repository is called once if the expected number of notifications arrives, however interleaved, and never otherwise |
| MetadataCallback.CountedEitherWay | librepo/yum.c:931-948 | counting notifications in order of arrival or by target gives the same |
| MetadataCallback.EachRepositoryReportsOnce | librepo/yum.c:931-948 | when the download returns normally, the end callback of every repository with something to download was called exactly once; at least as many notifications arrived as it has files, and just as many if and only if the offline branch applies to none of them |
| WriteCallback.Target.WriteCb | librepo/downloader.c:615-704 | one call keeps the received count, the flag and the file as specified, whatever fwrite takes: past the end of the range it sets the flag and answers 0, and a chunk written short is answered with 0, or with the short count when there is no range |
| WriteCallback.TakenIsSlice | librepo/downloader.c:671-693 | the part of a chunk that is written is exactly its bytes inside the range |
| WriteCallback.WritesExactlyTheRange | librepo/downloader.c:615-704 | for every way of cutting the stream into chunks, if nothing is written short, the file holds exactly the bytes of the range |
| WriteCallback.WritesOnlyTheRange | librepo/downloader.c:615-704 | for every chunking and whatever fwrite takes, the file holds a prefix of the bytes of the range |
| WriteCallback.WritesTheContent | librepo/downloader.c:615-704 | of the content served, what is written is the part from the start of the range, or from the resumed offset, up to and including its end, or all the rest |
| WriteCallback.AnswersExactly | librepo/downloader.c:664-703 | the answer to curl, the flag, the received count and the bytes written, for every chunk, range and result of fwrite |
| WriteCallback.AcceptedErrorMeansComplete | librepo/downloader.c:1859-1870 | for every chunking and whatever fwrite takes: when CURLE_WRITE_ERROR is accepted as success, the file holds the whole range, and nothing that could still arrive belongs to it |
| WriteCallback.ErrorIsAcceptedExactlyWhenNothingIsShort | librepo/downloader.c:1859-1870 | of the write errors, those at the end of the range are accepted and those of a short fwrite are not |
| WriteCallback.DocumentedExactlyWhen | librepo/package_downloader.h:225-227 | for all ways of chunking the stream in which nothing is written short, the bytes written are the documented ones if and only if there is no start, or the end is 0 or behind the start |
| Resume.Transfer.Open | librepo/downloader.c:1574-1635 | file, mark, offset and write position when a transfer is opened, resumed or not; emptying a file without the mark may fail, which ends the download |
| Resume.Transfer.TruncateTransferFile | librepo/downloader.c:2098-2130 | the file is cut, or extended, to the original offset, or left alone when that fails |
| Resume.Transfer.Try | librepo/downloader.c:2480-2498 | one whole attempt from opening the file to success or to being put back, or to a failed truncation, which ends the download |
| Resume.StepKeepsGood | librepo/downloader.c:2480-2498 | after any failed attempt the file still begins with a usable prefix of the content |
| Resume.CompleteIsRight | librepo/downloader.c:1574-1635 | a complete transfer on such a file makes it the content |
| Resume.RunIsRight | librepo/downloader.c:1423-1427 | after any sequence of connection errors and garbage, a finished file is the content |
| Resume.ResumedExactlyWhen | librepo/downloader.c:1574-1625 | a transfer begins behind what is kept if and only if resuming is on, the file has the mark, something is kept and nothing was resumed before; and what becomes of the file otherwise |
| Resume.MarkedWhileIncomplete | librepo/downloader.c:1629-1635 | the mark is on the file while it is incomplete and removed when it is complete |
| Resume.ResumedAtMostOnce | librepo/downloader.c:1576-1580 | over all attempts of a target at most one is resumed |
| Resume.UnmarkedFile | librepo/downloader.c:1607-1616 | a non-empty file without the mark that is resumed ends as its old length in zeros, followed by the content |
| Resume.LostConnection | librepo/downloader.c:1574-1616 | where no mark can be stored, an empty file and one lost connection end in a zero followed by the content |
| Resume.WrongRun | librepo/downloader.c:1607-1616 | for every other initial file there is a run that ends with a wrong file |
| Resume.RightExactlyWhenTrustworthy | librepo/downloader.c:1574-1635 | every run ends with the content if and only if the initial file is empty, or a marked prefix of the content, or not resumed at all |
| ChecksumCache.File.ClearCache | librepo/checksum.c:298-330 | exactly the attributes of the cache are removed |
| ChecksumCache.ClearedExactly | librepo/checksum.c:298-330 | stamp and checksums are gone, and every other attribute is as it was |
| ChecksumCache.File.Compare | librepo/checksum.c:200-294 | the attributes after the comparison and the checksum reported, cached or computed, and whether it is the expected one; reading and fsync may fail |
| ChecksumCache.File.CheckFinishedTransfer | librepo/downloader.c:2024-2092 | the loop over the checksums: content and time stay, and on sound attributes the answer is whether the content matches one of the usable checksums or none is usable |
| ChecksumCache.File.CheckNewFile | librepo/downloader.c:2357-2366 | for every file, whatever is cached in its attributes: a finished transfer is accepted exactly when its content matches one of the usable checksums or none is usable |
| ChecksumCache.ClearedIsSound | librepo/checksum.c:298-330 | clearing makes the attributes of every file sound |
| ChecksumCache.StepIsSound | librepo/checksum.c:200-330 | every allowed write, comparison or clearing keeps each valid cache entry equal to the digest of the content |
| ChecksumCache.RightExactlyWhenAllowed | librepo/checksum.c:234-258 | after an operation every cached comparison is right if and only if the operation did not give new content the time the cache is stamped with for other content |
| ChecksumCache.AlwaysRightExactlyWhenSound | librepo/checksum.c:200-330 | for every file, whatever its attributes: over all sequences of allowed operations every cached comparison is right if and only if no stamped checksum is wrong for the content and no unstamped one for any content |
| ChecksumCache.UnstampedIsBelieved | librepo/checksum.c:234-288 | a checksum without a stamp that some content does not have is believed after that content is written and a comparison of another type has stamped the file |
| ChecksumCache.StampAloneIsNotEnough | librepo/checksum.c:300-309 | removing the stamp alone leaves an old checksum that is believed again later |
| ChecksumCache.StepsAreSound | librepo/checksum.c:200-330 | so does every allowed sequence of them |
| ChecksumCache.CachedAgreesWithUncached | librepo/checksum.c:234-294 | on a file without cached checksums, after any sequence of allowed operations the cached comparison, the uncached one and the digest of the content agree |
| ChecksumCache.TimeMustNotGoBack | librepo/checksum.c:234-258 | a write that sets the time back to a stamped one makes the cached answer wrong |
| FastestMirror.SortSorted | librepo/fastestmirror.c:554-575 | the comparison yields an ascending order with failures last |
| FastestMirror.NearIsPrefix | librepo/fastestmirror.c:703-713 | in sorted order every mirror before a near one is near |
| FastestMirror.Shuffle | librepo/fastestmirror.c:703-719 | for every random generator the near mirrors come first in some order and the rest keep theirs |
| FastestMirror.FastestMirror | librepo/fastestmirror.c:679-726 | sorting and shuffling together |
| FastestMirror.OrderOfResult | librepo/fastestmirror.c:679-726 | the result is a permutation in which mirrors under twice the best time come first, the others ascend and failures are last |
| FastestMirror.OrderInTimes | librepo/fastestmirror.c:679-726 | in times: mirrors below twice the shortest come first, the others from the fastest on, failures last |
| FastestMirror.ApplyOrder | librepo/fastestmirror.c:811-843 | the loops that prepend, delete and reverse give the specified order |
| FastestMirror.ReorderedIsPermutation | librepo/fastestmirror.c:811-843 | no mirror of a handle is lost or doubled |
| FastestMirror.FirstMirrorsInHostOrder | librepo/fastestmirror.c:815-827 | the first mirror of each host stands in the place its host has among the hosts that occur |
| FastestMirror.RestFollows | librepo/fastestmirror.c:829-843 | the mirrors not placed by host stand at the end |
| FastestMirror.RestIsSubsequence | librepo/fastestmirror.c:829-843 | they keep their original order |
| FastestMirror.FirstsAndRest | librepo/fastestmirror.c:811-843 | placed and remaining mirrors together are all mirrors of the handle |
| UrlSubstitution.UrlvarsSet | librepo/url_substitution.c:47-80 | the list represents the map with that name set, replaced or removed |
| UrlSubstitution.Substitute | librepo/url_substitution.c:93-156 | the two-cursor pass equals the recursive expansion over the represented map |
| UrlSubstitution.ReadIsReference | librepo/url_substitution.c:119-142 | what is scanned after a dollar sign expands as the grammar says, unmatched text verbatim |
| UrlSubstitution.ReadVariable | librepo/url_substitution.c:119-142 | the cursor and the value after a dollar sign, brackets and inner underscores included |
| UrlSubstitution.LookUp | librepo/url_substitution.c:129-141 | the value of the first entry with that name |
| UrlSubstitution.EmptyMapCopies | librepo/url_substitution.c:101-102 | without variables the expansion is the URL, so the shortcut is sound |
| UrlSubstitution.BuildAndSubstitute | librepo/url_substitution.c:47-156 | after any sequence of settings the result depends only on the map they denote |
| UrlSubstitution.OnlyReferredNamesMatter | librepo/url_substitution.c:119-142 | two maps that agree on the names referred to give the same result |
| UrlSubstitution.NothingToExpand | librepo/url_substitution.c:143-153 | text without a dollar sign is copied |
| UrlSubstitution.ReferencesAgree | librepo/url_substitution.h:64-68 | at one dollar sign the code reads what is documented if and only if every underscore of the documented name stands before an alphanumeric character |
| UrlSubstitution.DocumentedExactlyWhen | librepo/url_substitution.h:64-68 | the code substitutes what is documented, for all variables, if and only if every documented name in the URL is of that kind, which is if and only if all references agree |
| UrlSubstitution.UnreadableName | librepo/url_substitution.c:127 | for every other URL there are variables for which it is left as it is although the documentation replaces one |
| UrlSubstitution.TrailingUnderscore | librepo/url_substitution.c:127 | the variable a_ is documented and not substituted in a URL that refers to it |
| UrlExpansion.KnownVariable | librepo/url_substitution.c:106-146 | a dollar sign and the name of a variable are replaced by its value, up to where the name ends |
| UrlExpansion.KnownInBraces | librepo/url_substitution.c:106-146 | a name in braces is replaced together with them |
| UrlExpansion.UnknownVariable | librepo/url_substitution.c:106-146 | a name without a value, or a dollar sign without a name, is copied |
| UrlExpansion.UnknownInBraces | librepo/url_substitution.c:106-146 | so is an opening brace without a known name that is closed |
| UrlExpansion.PlainText | librepo/url_substitution.c:106-146 | text up to the next dollar sign is copied |
| PathConcat.StaysWithinCount | librepo/util.c:273-286 | at every step the output and what may still be appended fit in the counted length |
| PathConcat.CountLength | librepo/util.c:197-202 | the length counted beforehand |
| PathConcat.AddPart | librepo/util.c:225-265 | one component trimmed and written behind the offset, leaving what is before it |
| PathConcat.FillBuffer | librepo/util.c:209-265 | the buffer holds the specified join and the offset never leaves it |
| PathConcat.Pathconcat | librepo/util.c:180-291 | the result is the specified join; both assertions on the length hold |
| PathConcat.JoinTwo | librepo/util.c:231-277 | two components are joined by one separator; separators at the seam and at the end are dropped |
| PathConcat.JoinThree | librepo/util.c:231-277 | joining three is extending the join of the first two |
| PathConcat.JoinInStages | librepo/util.c:180-291 | for any number of non-empty components without a question mark, joining the first k of them and then the result with the rest equals joining all at once |
| PathConcat.JoinIsAssociative | librepo/util.c:180-291 | the same for three components |
| PathJoining.JoinOfBodies | librepo/util.c:209-291 | a first component keeps its leading separators and gives its query to the end of the result; in between come the other components, stripped, each behind one separator |
| PathJoining.JoinAfterSlashes | librepo/util.c:240-253 | a first component of separators only leaves just the separator of the next one, and alone it is the result |
| PathJoining.JoinAfterEmpty | librepo/util.c:220-233 | after an empty first component the second is treated as the first, except that no query is looked for in it |
| PathJoining.QueryGoesToTheEnd | librepo/util.c:204-271 | a query of the first component goes to the end of what is joined without it |
| PathJoining.EmptyLast | librepo/util.c:280-284 | an empty last component puts one separator at the end, unless the one before is empty too or nothing was joined |
| PathJoining.JoinOfNothing | librepo/util.c:275-278 | of components that are only separators or empty the result is the first |
| PathJoining.NothingBetween | librepo/util.c:220-253 | between others, a component that is empty or only separators makes no difference |
| PathJoining.SlashesLast | librepo/util.c:248-253 | nor do separators alone at the end |
| PathJoining.EmptyFirst | librepo/util.c:220-226 | an empty component in front makes a difference only to a query, or when there is no text |
| Xml.FindAttr | librepo/xmlparser_internal.h:127-140 | the result is v if and only if the first attribute with that name has the value v, and none if and only if no attribute has the name |
| Xml.AttrIsFirst | librepo/xmlparser_internal.h:127-140 | there is a value if and only if some attribute has the name, and it is the value of the first of them |
| SaxTable.ParentsAreUnique | librepo/metalink.c:499-503 | in a tree-shaped table the parent table gives the state each row comes from |
| SaxTable.LookupFinds | librepo/metalink.c:195-204 | scanning from the first row of a state finds the row for a child's name |
| SaxTable.FirstTableIsFirstRow | librepo/repomd.c:565-569 | the table of first rows has an entry exactly for the states with rows, and it is the first |
| SaxTable.EnterLocated | librepo/metalink.c:183-211 | a start event keeps state and counters located on the explicit stack |
| SaxTable.LeaveLocated | librepo/metalink.c:353-362 | so does an end event, and the parent of a known state exists |
| SaxTable.RunLocated | librepo/repomd.c:225-253 | after any balanced prefix the state and the counters are those of the stack of open elements |
| SaxTable.ElementRestores | librepo/repomd.c:393-402 | a complete element restores state, depth and statedepth |
| SaxParser.ParserData.constructor | librepo/xmlparser.c:32-41 | a fresh parser with an empty buffer |
| SaxParser.ParserData.FillTables | librepo/metalink.c:499-503 | the loop fills both tables as specified |
| SaxParser.ParserData.EnterElement | librepo/metalink.c:183-211 | state, counters and text after a start event, and which of the early returns applies |
| SaxParser.ParserData.LeaveElement | librepo/metalink.c:353-362 | state and counters after an end event, and whether it ended a known element |
| SaxParser.ParserData.CharHandler | librepo/xmlparser.c:55-78 | text is appended while wanted; the buffer grows before it would overflow |
| SaxParser.ParserData.Grow | librepo/xmlparser.c:67-73 | a larger buffer keeps the text |
| MetalinkTable.TableIsTree | librepo/metalink.c:153-170 | the transition table is a tree whose rows for one state stand together |
| MetalinkTable.LookupIsChild | librepo/metalink.c:153-170 | the table search is the child relation of the format |
| MetalinkTable.NoRowsIffLeaf | librepo/metalink.c:153-170 | exactly the leaves have no rows |
| MetalinkProof.ErrorStays | librepo/metalink.c:180-182 | after an error no event changes anything |
| MetalinkProof.SkippedNode | librepo/metalink.c:183-187 | inside an unknown element a subtree adds only its text |
| MetalinkProof.UnknownElement | librepo/metalink.c:190-204 | an unknown element costs one warning and nothing else, or only text inside a leaf |
| MetalinkProof.LeafNodes | librepo/xmlparser.c:55-78 | inside a leaf the content grows by the text of all descendants |
| MetalinkProof.LeafElement | librepo/metalink.c:369-460 | a whole leaf is its start action and then its end action on the text of all its descendants |
| MetalinkProof.StrangerLeavesNoTrace | librepo/metalink.c:199-204 | unknown subtrees leave the metalink unchanged |
| MetalinkProof.IgnoredNode | librepo/metalink.c:213-214 | subtrees of a file that is not wanted leave the metalink unchanged |
| MetalinkExtraction.HashNodes | librepo/metalink.c:266-304 | the children of a verification element add exactly its typed hashes in order |
| MetalinkExtraction.UrlNodes | librepo/metalink.c:309-335 | the children of resources add exactly its URLs in order |
| MetalinkExtraction.AlternateChildren | librepo/metalink.c:411-447 | the children of an alternate set its numbers to the last given and add its hashes |
| MetalinkExtraction.AlternateNodes | librepo/metalink.c:250-259 | each alternate element adds one alternate with its own contents |
| MetalinkExtraction.FileChildren | librepo/metalink.c:173-463 | the children of the wanted file add up to its declarative reading |
| MetalinkExtraction.FileElement | librepo/metalink.c:222-243 | a file element is read if it is the first with the wanted name, and otherwise contributes nothing |
| Metalink.WantedExactlyWhen | librepo/metalink.c:222-243 | a file element is wanted if and only if the first of its attributes called name has the wanted value |
| Metalink.WantedIsFirst | librepo/metalink.c:222-243 | of several wanted files the first is read |
| MetalinkExtraction.FilesChildren | librepo/metalink.c:222-243 | of all children of a files element at most the first wanted file is read |
| MetalinkExtraction.MetalinkChildren | librepo/metalink.c:173-463 | several files elements read like one |
| MetalinkExtraction.ParseIsExtract | librepo/metalink.c:173-463 | folding the handlers over any document that raises no error adds exactly the recursive extraction to the caller's metalink and ends where it began |
| MetalinkErrors.CalmDocument | librepo/metalink.c:227-233 | if warnings never stop the parser and every file is named, parsing raises no error and exactly the warnings counted on the tree |
| MetalinkErrors.CalmNodes | librepo/metalink.c:173-463 | at a file element or below nothing fails, and the warnings are those counted on the tree: all of them in the wanted file, only unknown elements elsewhere |
| MetalinkErrors.FailsExactlyOnNamelessFiles | librepo/metalink.c:227-233 | if warnings never stop the parser, parsing fails exactly on documents with a file without a name |
| MetalinkErrors.FilesAreNamed | librepo/metalink.c:227-233 | whatever the warnings do, success implies that every file is named |
| MetalinkErrors.StopsExactlyAtWarnings | librepo/xmlparser.c:81-117 | the callback makes a difference exactly when it stops the parse at one of the warnings raised otherwise |
| MetalinkErrors.FailsExactlyWhen | librepo/metalink.c:173-463 | for every callback, parsing fails if and only if some file has no name or the callback stops it at one of the warnings counted on the document |
| MetalinkSafety.StartIsSound | librepo/metalink.c:173-342 | a start event keeps the parser data consistent: the pointers in use agree with the state |
| MetalinkSafety.EndIsSound | librepo/metalink.c:345-463 | so does an end event |
| MetalinkSafety.FoldIsSound | librepo/metalink.c:173-463 | and any balanced continuation |
| MetalinkSafety.EveryPrefixIsSound | librepo/metalink.c:173-463 | after every prefix of every document the parser data are consistent and located |
| MetalinkSafety.NoAssertionFails | librepo/metalink.c:173-463 | on every prefix of every document the assertions the next event meets hold, in both handlers |
| MetalinkParser.Handlers.constructor | librepo/metalink.c:466-503 | fresh handlers over the caller's metalink represent the initial parser |
| MetalinkParser.Handlers.StartHandler | librepo/metalink.c:173-342 | the handler equals the specification and its assertions hold |
| MetalinkParser.Handlers.StartSwitch | librepo/metalink.c:216-339 | the switch over the new state |
| MetalinkParser.Handlers.EndHandler | librepo/metalink.c:345-463 | the handler equals the specification and its assertions hold |
| MetalinkParser.Handlers.EndSwitch | librepo/metalink.c:369-460 | the switch over the state left |
| MetalinkParser.Handlers.CharHandler | librepo/xmlparser.c:55-78 | text reaches the buffer only while there is no error |
| MetalinkParser.Handlers.Warning | librepo/xmlparser.c:81-117 | a warning is counted, and an error is latched when the callback asks to stop |
| MetalinkParser.Handlers.Strtoll | librepo/xmlparser.c:120-143 | the number, with a warning when the text is not one |
| MetalinkParser.ParseFile | librepo/metalink.c:466-526 | success happens exactly when every file has a name, none of the warnings counted on the document is refused and the wanted file is there, and then the caller's metalink has gained exactly what the document says about the wanted file |
| RepomdTable.TableIsTree | librepo/repomd.c:193-212 | the transition table is a tree whose rows for one state stand together |
| RepomdTable.LookupIsChild | librepo/repomd.c:237-246 | the table search is the child relation of the format |
| RepomdTable.NoRowsIffLeaf | librepo/repomd.c:232-235 | exactly the leaves have no rows |
| RepomdProof.ErrorStays | librepo/repomd.c:222-223 | after an error no event changes anything |
| RepomdProof.StopsExactlyAtWarnings | librepo/xmlparser.c:81-117 | a parse stops with an error exactly when the callback asks to stop at one of the warnings the whole parse raises, and otherwise the callback makes no difference |
| RepomdProof.SkippedNode | librepo/repomd.c:225-229 | inside an unknown element a subtree adds only its text to the leaf around it |
| RepomdProof.Stranger | librepo/repomd.c:232-246 | an unknown element costs one warning at an inner state and only adds text in a leaf |
| RepomdProof.LeafNodes | librepo/xmlparser.c:55-78 | a leaf collects the text of all its descendants, without warnings |
| RepomdProof.LeafElement | librepo/repomd.c:385-534 | a whole leaf is its start action and then its end action on the text of all its descendants |
| RepomdExtraction.RecordLeaf | librepo/repomd.c:305-529 | start and end action of a leaf of a data element change the record exactly as the reading of that leaf says |
| RepomdExtraction.RecordChildren | librepo/repomd.c:305-529 | the children of a data element add up to the reading of its record: for each field the last value given |
| RepomdExtraction.TagsChildren | librepo/repomd.c:433-456 | the children of a tags element add exactly its repo, content and distro tags in order, each distro tag with its own cpeid |
| RepomdExtraction.DataElement | librepo/repomd.c:290-303 | a data element adds one record with its own contents, of type unknown if it has none |
| RepomdExtraction.RepomdChildren | librepo/repomd.c:215-534 | the children of the root add up to revision, repository identifier, tags and records, and raise exactly the warnings counted on the tree |
| RepomdExtraction.CalmDocument | librepo/repomd.c:215-534 | under a callback that never stops, folding the handlers over any document gives its recursive reading, the counted warnings and the initial state |
| RepomdExtraction.ParseIsRead | librepo/repomd.c:215-534 | for every callback the fold fails exactly when the callback stops it at one of the counted warnings, and otherwise gives the recursive reading |
| RepomdWarnings.RecordTypeIsFirst | librepo/repomd.c:290-303 | the type of a record is the value of the first attribute called type, or unknown if there is none |
| RepomdWarnings.VersionIsCut | librepo/repomd.c:525-529 | the version of a database is the number modulo 2 to the 32nd, as a signed integer |
| RepomdWarnings.DataChildWarns | librepo/repomd.c:305-372 | the warnings of a child of data, by its name, attributes and text |
| RepomdWarnings.TagWarns | librepo/repomd.c:237-246 | below tags only unknown elements are warned about |
| RepomdWarnings.RepomdChildWarns | librepo/repomd.c:257-303 | the warnings of a child of repomd: an empty revision, a record without a type, an unknown element, and what is below |
| RepomdWarnings.RootWarns | librepo/repomd.c:237-246 | a document is warned about for its root or for what is below it |
| RepomdSafety.StartIsSound | librepo/repomd.c:215-382 | a start event keeps a record in progress exactly inside a known data element, a cpeid only inside a distro element, and the counters those of the stack |
| RepomdSafety.EndIsSound | librepo/repomd.c:385-534 | so does an end event |
| RepomdSafety.FoldIsSound | librepo/repomd.c:215-534 | and any balanced continuation |
| RepomdSafety.NoAssertionFails | librepo/repomd.c:215-534 | on every prefix of every document the record assertions the next event meets hold, in both handlers |
| RepomdParser.Handlers.constructor | librepo/repomd.c:552-569 | fresh handlers over the caller's object represent the initial parser |
| RepomdParser.Handlers.StartHandler | librepo/repomd.c:215-382 | the handler equals the specification and its assertions hold |
| RepomdParser.Handlers.StartSwitch | librepo/repomd.c:257-381 | the switch over the new state |
| RepomdParser.Handlers.NewLocation | librepo/repomd.c:305-324 | href and base of the record, and the warning when there is no href |
| RepomdParser.Handlers.NewChecksum | librepo/repomd.c:326-372 | the type of one of the three checksums, or a warning |
| RepomdParser.Handlers.EndHandler | librepo/repomd.c:385-534 | the handler equals the specification and its assertions hold |
| RepomdParser.Handlers.EndSwitch | librepo/repomd.c:404-533 | the switch over the state left, an empty revision included |
| RepomdParser.Handlers.EndOfRecordLeaf | librepo/repomd.c:468-529 | the value of one field of the record, database_version cut to an int |
| RepomdParser.ParseFile | librepo/repomd.c:537-591 | success happens exactly when the root is a repomd element and no warning is refused, and then the object has gained what the document says |

## Left out

- zchunk targets, whose state is kept by a foreign library.
- curl, its timeouts and sleeping, and the classification of its codes: a finished transfer comes with an outcome (success, or an error that may be serious or fatal, with the callbacks' answers). A signal or an error of the multi interface is only an event that breaks the run off.
- lr_prepare_lrmirrors and the creation of targets: the scheduler is given prepared objects. Paths, base URLs and full URLs are kept as the answers to the tests the code makes on them, so a file: mirror whose relative path contains a second "://" is not modelled.
- Headers, the header callback, one-time flags, the progress callback, error texts, the effective URL and the used mirror.
- Resume.Transfer.Open: seeking and telling the position of the file succeed.
- Resume.Transfer.TruncateTransferFile: targets given by a descriptor are not modelled; only those given by file name are.
- Downloader.LrDownload.Download: the removal of files of unfinished targets at the end, and errors before the first transfer (curl, the handles), are not modelled.
- ChecksumCache.File.Compare: getting, setting and removing attributes succeeds where they are supported, and attribute values fit their buffers.
- WriteCallback.Target.WriteCb: chunks are non-empty and 64-bit sizes do not overflow.
- SpeedLimit.SetMaxSpeedsToTransfers: speeds are not negative and the sum does not overflow. In the scheduler only its answer is modelled.
- PathConcat: sizes do not overflow, and a length of more than what memory allows is not modelled.
- Ranks of mirrors and connection times are exact reals.
- FastestMirror: measuring, the cache file and the offline shortcut; the sort is a stable insertion sort by the same comparison.
- The pointers to a hash, alternate, URL or record in progress are flags: each is always the last element of its list.
- strtoll, the hash functions and the random generator are arbitrary functions.
- libxml2 and documents that are not well formed: events come from trees, and a prefix of them may be all there is.
- The queries on a parsed repomd object (a record by type, the highest time stamp): one-loop functions.
- Handle option setters, repo files, GPG checks and the Python bindings.
