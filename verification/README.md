# Nineveh, verified

Nineveh is a self-hosted server for comic archives. This project models the parts of it whose correctness is hardest to
see from the code (schedulers, guards, persistent protocols and a few algorithms) and proves what they promise.
`dafny verify dfyconfig.toml` checks all of it.

| files | what they model |
|---|---|
| `GateState`, `GateSafety`, `GateChoice`, `GateFairness`, `GateBypass`, `FairGate` | the fair admission gate: every await-free section is a step, a run is any sequence of steps |
| `RequestBudget`, `OrderedDict` | the per-key token bucket and its bounded table |
| `LoginState`, `LoginSafety`, `LoginPace`, `LoginGuard` | single-flight logins, per-address locks, growing delays |
| `Ordering`, `VolumeOrder` | the reading order as a tuple and as a stored string, down to UTF-8 bytes |
| `ReaderModel` | double-page grouping and page turning |
| `RateLimit` | the persistent rolling-window limiter for metadata requests |
| `AutoMatchState`, `AutoMatchRunner` | the resumable auto-match job, with crashes, restarts and several runners |
| `FileNames`, `PlacementState`, `PlacementSafety`, `PlacementOnce`, `IngestService` | staging and placing uploads over a file system of names and files |
| `Scan`, `ScanMeaning` | the incremental catalog scan |
| `SearchIndex`, `SearchTables`, `SearchMeaning` | the search index rebuilt one series at a time |
| `ContractSlice`, `SliceMeaning` | slicing the published contract by tag |
| `ArchivePool`, `DiskCache` | the reference-counted archive pool and the cache directory budget |
| `Grants` | normalising, storing and asking read grants |
| `Common` | shared vocabulary |

Code that works by changing state appears twice. A class has the same fields and loops as the original, and each of its
methods is proved to reach exactly the state a specification function gives; the theorems are about those functions and
about runs of them. Concurrency is interleaving: a step is what happens between two awaits, inside one lock, in one
transaction or in one file-system call, and between steps anything else may happen, including cancellation and, where
state outlives the process, a crash. Times are real numbers passed in; identifiers the code draws at random are
parameters required to be new.

Where the code does less than it says, the code is followed and the exact condition is proved:

- the fair gate bounds how often a waiter is passed only for some arrivals (`BypassBoundedExactly`);
- thirty digits and characters above U+0001 are exactly what the stored order needs (`KeysSortExactly`);
- an upsert that moves a place to another series can leave a stale index row (`UpsertFreshExactly`,
  `MovedVolumeGoesStale`); no caller in the program does that, since a scan derives the series from the path;
- one upload can be placed under two names (`PlaceableExactly`, `PlacedTwice`);
- `linked` can fall short of the links made (`LinkedCountsLinksMade`, `LinksLost`);
- a series grant without a category is widened to its library (`MeaningKeptExactly`).

The main results, by file: `GateSafe`, `DispatchIsFair`, `BoundedBypass`, `BypassBoundedExactly`; `FloodBounded`,
`RefillExactly`; `OneAtATime`, `NeverStranded`, `DelayIsLarger`, `GuessRate`, `AddressRate`, `DelayedNoMore`;
`SortKeyEmbeds`, `KeysSortExactly`, `TupleOrdersVolumes`; `GroupsExactly`, `TurnMovesOneGroup`; `RollingWindow`,
`Acquire`; `BooksBalance`, `LinkedCountsLinksMade`, `OutcomesExactly`; `ScannerSeesWholeFiles`, `PlaceableExactly`;
`RowsExactly`, `SecondScanIsIdle`; `SearchReturnsExactly`, `UpsertFreshExactly`; `SchemasExactly`, `OperationsExactly`,
`SliceOfSlice`; `HeldArchivesStayOpen`; `MeaningKeptExactly`, `ReplacedMeansSubmitted`.

## Model

| member | source | states |
|---|---|---|
| GateSafety.GateSafe | src/nineveh/admission.py:65-140 | after any interleaving of acquires, releases, timeouts, cancellations and late-grant clean-ups: `_in_use` = sum of `_held` = granted waiters <= capacity, each key within `per_key`, in a gate with room every waiting key already holds `per_key` slots, no queue is empty, and without pending clean-ups `_last_served` knows only keys that hold or wait |
| GateSafety.NextSafe | src/nineveh/admission.py:65-140 | each await-free section keeps all of that, including the accounts per key and who may be remembered |
| GateSafety.DispatchSafe | src/nineveh/admission.py:105-136 | the dispatch loop ends with the gate full or nobody eligible, and breaks none of the accounts on the way |
| GateSafety.WithdrawSafe | src/nineveh/admission.py:92-103 | a waiter that leaves its queue, timed out or cancelled, leaves no empty queue, no lost slot and no stale memory |
| GateSafety.ReleaseSafe | src/nineveh/admission.py:82-90 | giving a slot back, by its holder or for a late grant, passes it on and keeps the accounts |
| GateSafety.NothingLeftBehind | src/nineveh/admission.py:82-140 | when every call has finished the gate holds nothing, queues nothing and remembers nothing |
| GateChoice.DispatchIsFair | src/nineveh/admission.py:105-136 | dispatching is exactly this: while a slot is free and some waiting key holds less than `per_key`, serve the one that holds the fewest, among those the one served longest ago or never, among those the first in line; a cancelled future is only popped |
| GateChoice.RefusedExactly | src/nineveh/admission.py:65-69 | a request is turned away if and only if its key's queue has `queue_per_key` futures, and then nothing changes |
| GateFairness.BoundedBypass | src/nineveh/admission.py:105-140 | a waiter whose key has no `_last_served` entry and no live waiter of its own is passed at most once by each never-served key queueing ahead of it; with none ahead the next grant is its own |
| GateFairness.RunKeepsPromise | src/nineveh/admission.py:105-140 | that bound survives every further step of every run |
| GateFairness.BestIsUnserved | src/nineveh/admission.py:112-119 | while a never-served key waits and is eligible, the key chosen is never-served too, and not behind it |
| GateBypass.BypassBoundedExactly | src/nineveh/admission.py:9-12 | exactly how far the docstring's "waits for at most one job" goes: a waiter that is let into the queue is passed by at most some fixed number of grants, whatever happens, if and only if on arrival a slot was free for its key, or the gate did not remember the key and no live waiter of it was queueing |
| GateBypass.PassOften | src/nineveh/admission.py:112-140 | in any state, for every n, some run makes n more grants while a given waiter of a remembered key still waits |
| GateBypass.GetServed | src/nineveh/admission.py:112-140 | a never-served waiter behind a live one of its own key gets there too: holders leave until the one ahead is granted and the key is remembered |
| GateBypass.DispatchServes | src/nineveh/admission.py:105-136 | while a never-served key waits, a slot that comes free goes to the first live waiter of a never-served key, and beside that only cancelled futures are popped |
| FairGateObject.FairGate.Acquire | src/nineveh/admission.py:65-73 | refuses exactly when the key's queue is full, otherwise queues a new future and dispatches: the whole new state |
| FairGateObject.FairGate.Release | src/nineveh/admission.py:82-90 | the whole new state after a release |
| FairGateObject.FairGate.Abandon | src/nineveh/admission.py:92-103 | passes on a grant that came just as the wait ended, otherwise withdraws: the whole new state |
| FairGateObject.FairGate.Cancel | src/nineveh/admission.py:78-80 | a cancelled future changes nothing else until its task cleans up |
| FairGateObject.FairGate.DispatchAll | src/nineveh/admission.py:105-110 | the `while` loop grants exactly what the recursive definition does |
| FairGateObject.FairGate.NextKey | src/nineveh/admission.py:112-124 | the scan finds the waiting key with room under `per_key` that holds the fewest slots, then was served longest ago, then stands first; and none if and only if no waiting key has room |
| RequestBudgets.FloodBounded | src/nineveh/admission.py:159-172 | over any stretch of time, a key that is never evicted is admitted at most `per_minute` plus the refill of the stretch |
| RequestBudgets.LevelFalls | src/nineveh/admission.py:159-172 | a call costs its own bucket exactly what it admits and no other bucket anything |
| RequestBudgets.WaitIsExact | src/nineveh/admission.py:168 | retrying with no call in between is admitted from the returned wait on, and not before |
| RequestBudgets.BurstAdmitted | src/nineveh/admission.py:159-168 | a key the table does not know has its first `per_minute` requests admitted, however fast they come |
| RequestBudgets.RefillExactly | src/nineveh/admission.py:153-168 | a call costs one token or nothing, and each second returns a sixtieth of `per_minute`, up to `per_minute` |
| RequestBudgets.FewKeysKept | src/nineveh/admission.py:170-171 | nothing is evicted while no more keys call than the table has room for |
| RequestBudgets.RequestBudget.Take | src/nineveh/admission.py:159-172 | the new table, and a wait of zero exactly when admitted |
| OrderedDict.TrimIndexed | src/nineveh/admission.py:170-171 | trimming leaves at most the limit, keeps order and mapping in step and keeps the newest entry |
| LoginSafety.OneAtATime | src/nineveh/logins.py:121-140 | in every interleaving at most one attempt per address is between acquiring and releasing, although locks are deleted and made anew |
| LoginSafety.LineBounded | src/nineveh/logins.py:122-140 | `_waiting` counts exactly the attempts in progress, never exceeds its limit, and a lock exists exactly while somebody is in line |
| LoginSafety.OneLeader | src/nineveh/logins.py:80-91 | each credential has at most one leader |
| LoginSafety.SharedOutcome | src/nineveh/logins.py:102-119 | all calls that ended by way of one flight ended with the same outcome |
| LoginSafety.TakesOver | src/nineveh/logins.py:86-91 | a follower whose leader was cancelled leads, or follows a leader, anew |
| LoginSafety.NeverStranded | src/nineveh/logins.py:81-119 | a follower always has a leader at work, an outcome to share or a credential to take over |
| LoginSafety.NextSafe | src/nineveh/logins.py:77-162 | every await-free section keeps the line, the locks, their holders and the flights in order |
| LoginPace.DelayIsLarger | src/nineveh/logins.py:93-100 | an attempt is delayed by exactly the larger of what its account's remembered failures cost and what its address's cost beyond the grace: `base` doubling with each, sixteen times at most, never above `max` |
| LoginPace.GuessRate | src/nineveh/logins.py:93-100 | n failures in a row for one account from one address, undisturbed by its success, eviction or a longer gap, span at least the sum of the penalties for 1 to n - 1 failures |
| LoginPace.AddressRate | src/nineveh/logins.py:93-100 | n failures in a row from one address, for whatever accounts and whoever signs in meanwhile, span at least the sum of the penalties for 1 to n - 1 failures less the grace each |
| LoginPace.DelayedNoMore | src/nineveh/logins.py:149-180 | in every run no attempt sleeps longer than the failures of its account since its last success cost, or those of its address beyond the grace; with none of the one and no more than the grace of the other it does not sleep |
| LoginPace.LaterFailures | src/nineveh/logins.py:149-180 | the same from any count already reached |
| LoginPace.FailurePaces | src/nineveh/logins.py:149-180 | a failure starts the next delay afresh: nobody else of the address is past the lock then |
| LoginPace.DefaultPace | src/nineveh/logins.py:93-100 | with the default base and maximum, n >= 5 delays come to 31 + 30 (n - 5) seconds |
| LoginGuardObject.LoginGuard.CountOf | src/nineveh/logins.py:164-172 | the count, and the table after an expired entry was deleted |
| LoginGuardObject.LoginGuard.DelayOf | src/nineveh/logins.py:93-100 | the delay, and the table both look-ups leave |
| LoginGuardObject.LoginGuard.RecordFailure | src/nineveh/logins.py:174-180 | both counts go up and the oldest entries make room: the whole new table |
| LoginGuardObject.LoginGuard.Arrive | src/nineveh/logins.py:77-84 | follow a flight or lead one: the whole new state |
| LoginGuardObject.LoginGuard.Land | src/nineveh/logins.py:84-91 | a resumed follower shares the outcome or verifies again: the whole new state |
| LoginSafety.JoinKeepsLine | src/nineveh/logins.py:121-125 | a task that joins the line shares the lock that is there or brings a new one to an empty line: afterwards the count is still that of the attempts in line, within its limit, and there is one lock per line |
| LoginSafety.ArrivalExactly | src/nineveh/logins.py:77-84 | a new call follows if and only if a task is verifying its credential; otherwise it is turned away if and only if its address has `max_waiting` attempts in line; otherwise it queues |
| LoginGuardObject.LoginGuard.Grab | src/nineveh/logins.py:129-152 | taking the free lock and sleeping off the delay: the whole new state |
| LoginGuardObject.LoginGuard.Deny | src/nineveh/logins.py:155-158 | a rejected password is recorded before anything else happens: the whole new state |
| LoginGuardObject.LoginGuard.Approve | src/nineveh/logins.py:159-162 | a success clears only the account's own count: the whole new state |
| LoginGuardObject.LoginGuard.Refuse | src/nineveh/logins.py:142-147 | a refusal ends the call, with the delay owed as its `Retry-After`, or five seconds if none is |
| LoginGuardObject.LoginGuard.LeaveAttempt | src/nineveh/logins.py:134-140 | unlock, count down, and delete count and lock with the last one: the whole new state |
| LoginGuardObject.LoginGuard.End | src/nineveh/logins.py:107-119 | settle the flight and unregister it: the whole new state |
| Ordering.SortKeyEmbeds | src/nineveh/ordering.py:23-72 | the encoded strings compare exactly as the order tuples do, in both directions |
| Ordering.FieldOrder | src/nineveh/ordering.py:67-72 | one encoded key decides the comparison unless the keys are equal, and then what follows decides |
| Ordering.BytesCompare | src/nineveh/ordering.py:33 | comparing UTF-8 bytes is comparing code points, and different texts have different bytes |
| Ordering.RowsSortAsTuples | src/nineveh/ordering.py:30-43 | `ORDER BY sort_key, id` and the tuple order agree about any two volumes |
| Ordering.CoverComesFromFirstVolume | src/nineveh/database.py:2734-2737 | a list of a series' volumes is sorted for the page if and only if it is in the database's row order, so both have the same first volume |
| VolumeOrder.TupleOrdersVolumes | src/nineveh/ordering.py:23-63 | which of two volumes comes first: numbered before unnumbered; by number, or by title, or by file name where there is no title; then by title, file name and identifier |
| VolumeOrder.RowsOrderVolumes | src/nineveh/ordering.py:30-43 | `ORDER BY sort_key, id` orders any two volumes in just that way |
| VolumeOrder.ByNumber | src/nineveh/ordering.py:46-63 | plain numbers order volumes by value, whatever zeros they are written with, and equal ones leave it to title, file name and identifier |
| VolumeOrder.NaturalKeysCompare | src/nineveh/ordering.py:46-51 | natural keys compare by the first piece in which the texts differ: numbers by value, words folded, numbers before words, and the shorter first where one ends |
| VolumeOrder.SplitExactly | src/nineveh/ordering.py:46-51 | a text has one list of alternating digit and other runs that rejoin to it, and splitting finds it |
| VolumeOrder.ValueReadsNumber | src/nineveh/ordering.py:48 | reading a number's decimal digits, with any zeros in front, gives the number |
| Ordering.FieldQualifies | src/nineveh/ordering.py:46-51 | fields without control characters or runs of more than thirty digits meet the embedding's conditions |
| Ordering.PaddingExact | src/nineveh/ordering.py:20 | among numbers below a bound the padded codes sort as the numbers do if and only if the bound is at most ten to the thirtieth |
| Ordering.KeysSortExactly | src/nineveh/ordering.py:16-20 | the limits of the stored order: the codes of all keys with numbers below one bound and characters from another on compare as the keys do if and only if the numbers stay below ten to the thirtieth and the characters above the terminator |
| ReaderModel.GroupsExactly | src/nineveh/static/reader-model.js:28-75 | the grouping is the one layout around the page the anchor names (the anchor cut to a whole number if that is three or more, else two) whose lone upright pages stand first before it and last after it; and no lawful layout around that page has fewer groups |
| ReaderModel.PageGroups | src/nineveh/static/reader-model.js:53-75 | the loops build exactly that grouping |
| ReaderModel.StitchedExactly | src/nineveh/static/reader-model.js:20-24 | a page is stitched if it is marked so or its known width is at least 1.25 times its height |
| ReaderModel.LeadingGroups | src/nineveh/static/reader-model.js:36-51 | the backward loop with its final reversal builds the pairing from the back |
| ReaderModel.OrderedSorts | src/nineveh/static/reader-model.js:54 | sorting gives ascending numbers and the same pages |
| ReaderModel.GroupedIsLayout | src/nineveh/static/reader-model.js:53-75 | flattening gives back the pages in order; groups have one or two pages; cover and stitched pages stand alone; no spread crosses the anchor |
| ReaderModel.GroupedIsFewest | src/nineveh/static/reader-model.js:53-75 | no grouping that keeps those rules has fewer groups |
| ReaderModel.TrailingIsTheFlushOne | src/nineveh/static/reader-model.js:63-73 | pairing forwards is the only partition whose single upright pages all stand before a stitched page or at the end |
| ReaderModel.LeadingIsTheFlushOne | src/nineveh/static/reader-model.js:33-51 | pairing backwards is the only partition whose single upright pages all stand behind a stitched page or at the front |
| ReaderModel.GroupsOfVolume | src/nineveh/static/reader-model.js:53-75 | for distinct page numbers every page is in one group and page numbers ascend through the groups |
| ReaderModel.TurnMovesOneGroup | src/nineveh/static/reader-model.js:94-114 | from any page of a group a turn lands on the first page of the group that many on, or nowhere past the ends, and that whole group is shown |
| ReaderModel.ForwardWalkShowsEveryGroup | src/nineveh/static/reader-model.js:94-114 | stepping forward from the cover shows every group once in order and then returns null |
| ReaderModel.BackUndoesForward | src/nineveh/static/reader-model.js:94-114 | a turn and its opposite show the same group again |
| ReaderModel.PreloadIsWhatTurnsShow | src/nineveh/static/reader-model.js:116-142 | what is preloaded is exactly what one and two turns forward and one back will show, whole groups in that order |
| ReaderModel.PageByPage | src/nineveh/static/reader-model.js:81-131 | outside double mode, or with single pages shown, a turn moves by page numbers within the volume, the page itself is shown, and the next three and the one before are fetched |
| ReaderModel.UnknownPage | src/nineveh/static/reader-model.js:108-113 | from a page the volume does not have: forward goes to the cover, back nowhere, nothing is preloaded |
| RateLimit.RollingWindow | src/nineveh/database.py:1478-1506 | with a non-decreasing clock and limits at most L, every half-open sixty-second window holds at most L admissions despite nudged stamps |
| RateLimit.DenialIsEarned | src/nineveh/database.py:1489-1497 | a request waits only when as many as its limit were admitted in the last sixty seconds, give or take the nudges |
| RateLimit.WaitIsExact | src/nineveh/database.py:1492-1497 | a request told to wait by a just full table is admitted from the end of its wait on and, unless that is the least wait, not before |
| RateLimit.WaitExpiresOne | src/nineveh/database.py:1492-1497 | waiting as told expires at least one stored event |
| RateLimit.NudgedLittle | src/nineveh/database.py:1498-1502 | a stamp is at most one nudge per later event past its clock |
| RateLimit.RateTable.Reserve | src/nineveh/database.py:1478-1506 | the new table, and zero exactly when admitted, with the nudging loop ending at the first free stamp |
| RateLimit.PersistentRateLimiter.Acquire | src/nineveh/metadata.py:151-158 | every attempt but the last found as many events of the last sixty seconds as its own setting allows, cut to between 1 and 30, and slept until the oldest was a minute old, at least a millisecond; the last found fewer and added one, at the first free microsecond; and there is at most one attempt per stored event plus one |
| AutoMatchState.BooksBalance | src/nineveh/database.py:1508-1636 | across any crashes, restarts and interleaved runners: at most one job runs, `completed = linked + review + failed` is the number of items no longer pending, and a complete job has `completed = total` |
| AutoMatchState.RunOk | src/nineveh/app.py:749-808 | the invariant behind it: whatever is pending is still on the list of any runner of its job |
| AutoMatchState.OutcomeIsFinal | src/nineveh/database.py:1603-1626 | an item that left pending keeps its outcome as long as its job exists: it leaves at most once |
| AutoMatchState.CompleteJobOk | src/nineveh/app.py:803-808 | a runner that got through its list completes a job with nothing pending |
| AutoMatchState.NewJobOk | src/nineveh/database.py:1513-1542 | a new job has each series once, all pending, and zero counts |
| AutoMatchState.OrderSubmitted | src/nineveh/database.py:1518-1542 | a new job's items are in the order the series were submitted, each where it came first |
| AutoMatchState.SearchFiled | src/nineveh/metadata.py:485-524 | how a search is filed: linked, under review when nothing is clear, failed on any error, even one after the match was saved |
| AutoMatchState.LinkedCountsLinksMade | src/nineveh/metadata.py:485-524 | after any run `linked` is the number of matches the job's runners have saved if and only if none is on its way to be filed and no step lost one: no error after a save, no death or crash between a save and its filing, no filing overtaken by another runner; otherwise it is smaller |
| AutoMatchState.LinksAccounted | src/nineveh/database.py:1603-1626 | the account behind it: counted + on their way + lost = saved, after every run |
| AutoMatchState.LinksLost | src/nineveh/metadata.py:485-524 | each way to lose a link, by a run from the empty tables, after which no later run makes `linked` whole again |
| AutoMatchRunner.Repository.CreateJob | src/nineveh/database.py:1508-1545 | refuses exactly when a job is running or the library is not enabled; otherwise the new table |
| AutoMatchRunner.Repository.ActiveJob | src/nineveh/database.py:1547-1555 | a running job if there is one |
| AutoMatchRunner.Repository.Pending | src/nineveh/database.py:1592-1601 | the pending series in position order |
| AutoMatchState.PendingSeriesExact | src/nineveh/database.py:1592-1601 | the list a runner starts from is exactly the items still pending |
| AutoMatchState.PendingInOrder | src/nineveh/database.py:1592-1601 | the list is in the order of positions |
| AutoMatchRunner.Repository.FinishItem | src/nineveh/database.py:1603-1626 | settles and counts a pending item; anything else changes nothing |
| AutoMatchRunner.Repository.RunAutoMatch | src/nineveh/app.py:749-808 | from any consistent table, exactly the pending items get the outcomes their series call for, no other job changes, and the job is complete |
| AutoMatchRunner.OutcomesExactly | src/nineveh/app.py:756-802 | what each item of an undisturbed job comes to: failed if the series is gone or no manga or its search raised, under review if it had a match or the search was unclear, linked if it was; and for which series a match is saved |
| AutoMatchRunner.Repository.Resume | src/nineveh/app.py:276-280 | taking up the active job leaves none running and changes no outcome already recorded |
| PlacementSafety.LibraryUntouched | src/nineveh/librarian.py:728-804 | in every interleaving of uploads, commits, discards, sweeps and crashes no library path that exists changes its file or content or disappears |
| PlacementSafety.ScannerSeesWholeFiles | src/nineveh/librarian.py:775-804 | at every moment each file a scan would take was there at the start or holds all the bytes of a staged upload, synced |
| PlacementSafety.LeftoversAreHidden | src/nineveh/catalog.py:574-578 | whatever else lies in the library directories has a temporary name a scan does not take |
| PlacementSafety.DoKeeps | src/nineveh/librarian.py:664-948 | every file-system call keeps: nobody writes to a file a library or staged name points to, and each commit's copy is a prefix of the staged bytes |
| PlacementSafety.LinkPublishesWhole | src/nineveh/librarian.py:797-800 | a taken name leaves every name and file as it was; a free one appears with all the staged bytes, synced, and nothing else changes |
| PlacementSafety.CommitStartsExactly | src/nineveh/librarian.py:731-752 | a commit starts exactly for a recorded upload whose archive is there, under a valid name that is free; otherwise nothing changes |
| PlacementSafety.UndisturbedCommitPlaces | src/nineveh/librarian.py:728-804 | a commit left to itself succeeds: the target appears complete and synced, the staged pair is gone, everything else is as it was |
| PlacementOnce.PlaceableExactly | src/nineveh/librarian.py:728-804 | in every consistent state a staged upload can be placed under one more name if and only if its archive is there with its record or with a commit that has not opened it yet, or a commit of it is copying or about to link, towards a free name |
| PlacementOnce.PlacedTwice | src/nineveh/librarian.py:797-804 | from every library, with one commit at a time, a crash between the link and the removal of the staged pair lets one upload be placed under a second name |
| PlacementOnce.PlacedForGood | src/nineveh/librarian.py:728-804 | a commit that nothing disturbs, with no other commit of the upload in progress, is its last: no later run places it again |
| FileNames.ValidFilenameExactly | src/nineveh/librarian.py:1022-1037 | a name is accepted if and only if, without the white space around it, it has 5 to 255 characters, no separator or null character, and ends in .cbz in any case; and it is accepted as that |
| FileNames.ValidFilenameSound | src/nineveh/librarian.py:1022-1037 | an accepted name is one path component the scanner takes, never a temporary one, and is accepted again unchanged |
| FileNames.TemporaryIsHidden | src/nineveh/librarian.py:786-788 | a temporary name is never one the scanner takes |
| IngestService.Service.Commit | src/nineveh/librarian.py:728-766 | which refusal when: record, series or library gone, bad name, storage, archive, taken name, file-system error; each leaves names, files and record as they were, except an error after the link, which leaves the upload placed and still staged; success adds exactly the target, complete and synced, and removes the staged pair |
| IngestService.Service.Place | src/nineveh/librarian.py:775-804 | the new names and files, whether the target was free or not and wherever an error strikes |
| IngestService.Service.CopyInto | src/nineveh/librarian.py:791-792 | the chunked copy ends with all the bytes |
| IngestService.Service.Discard | src/nineveh/librarian.py:768-773 | removes exactly the staged pair, if it is there |
| IngestService.Service.SweepExpired | src/nineveh/librarian.py:924-948 | removes exactly the expired pairs and the old archives without a record |
| Scan.CatalogScanner.ScanLibrary | src/nineveh/catalog.py:498-540 | the library's rows are reconciled with its archives and every archive is counted once under what became of it |
| Scan.CatalogScanner.ScanOne | src/nineveh/catalog.py:508-536 | unchanged, indexed or failed, and the one row that may change |
| Scan.CatalogScanner.ScanLibraries | src/nineveh/catalog.py:480-496 | each readable library is reconciled, every other row is untouched, and the totals are the sums with one failure per unreadable library |
| ScanMeaning.RowsExactly | src/nineveh/catalog.py:498-537 | archive by archive: one that is new or changed, and sound, gets its time and size under the identifier it had, if any; any other keeps the row it had, if any; and nothing else of the library has a row |
| ScanMeaning.ReportExactly | src/nineveh/catalog.py:502-540 | the counts are those of the new or changed, the up-to-date and the unreadable or unsound archives, and the first fifty of the last kind are reported by name |
| Scan.SecondScanIsIdle | src/nineveh/catalog.py:498-540 | an immediate second scan changes no row, indexes and removes nothing and fails where the first did |
| Scan.ReportAddsUp | src/nineveh/catalog.py:537-540 | `discovered = indexed + unchanged + failed` |
| Scan.TotalsAddUp | src/nineveh/catalog.py:480-496 | the totals add up the same way once unreadable libraries are counted |
| Scan.Catalog.RemovePublicationsExcept | src/nineveh/database.py:2290-2325 | which rows go, and how many |
| SearchIndex.SearchAsIfRebuilt | src/nineveh/database.py:2542-2615 | after any sequence of upserts, prunes, library removals, mount forgets and metadata changes, a search over the index as it stands returns just what it would over a rebuilt one |
| SearchMeaning.SearchReturnsExactly | src/nineveh/database.py:2542-2615 | after any run a search returns, once each, exactly the series that have volumes, are admitted, have one of the chosen creators, publishers, tags, statuses and years by the metadata shown, and match by name, metadata shown and volumes |
| SearchMeaning.OverridesWin | src/nineveh/database.py:1332-1392 | where the administrator set a value it is the one shown, whatever the provider sends later; saving replaces only the provider's values, editing only the administrator's |
| SearchMeaning.IndexedVolume | src/nineveh/database.py:2152-2204 | indexing a path writes its volume into the series the path names, keeps a known path's identifier and leaves every other volume and series alone |
| SearchMeaning.VolumesLeft | src/nineveh/database.py:2290-2325 | which volumes a prune, a removed library and a forgotten mount leave |
| SearchIndex.DoKeeps | src/nineveh/database.py:2152-2357 | every transaction keeps each series with volumes at exactly one index row, equal to the derived one, with just its facets |
| SearchIndex.UpsertFreshExactly | src/nineveh/database.py:2152-2161 | any upsert, with whatever identifier, leaves the index fresh if and only if it fails, or each series that gains, loses or renames a volume is the one indexed anew or comes off unharmed |
| SearchIndex.OwnIdFresh | src/nineveh/database.py:2152-2161 | a place that is new or keeps its identifier stays fresh if and only if it stays in its series or was its old series' last volume |
| SearchIndex.MovedVolumeGoesStale | src/nineveh/database.py:2152-2161 | an input that fails: one of two volumes written again under another series |
| SearchIndex.PruneFresh | src/nineveh/database.py:2304-2325 | reindexing the series that lost volumes is enough |
| SearchIndex.MetadataFresh | src/nineveh/database.py:1332-1399 | reindexing the one series whose metadata changed is enough |
| SearchIndex.RemoveLibraryFresh | src/nineveh/database.py:1086-1100 | removing a library leaves stale rows only for series without volumes |
| SearchIndex.ForgetLibraryFresh | src/nineveh/database.py:959-979 | forgetting a library's rows leaves every other series' row as it was |
| SearchTables.SQLiteRepository.UpsertPublication | src/nineveh/database.py:2152-2204 | refused exactly when a new place brings a taken identifier, or a known place brings pages under one that nobody has; otherwise the whole new tables, with the series of the identifier's row indexed anew |
| SearchTables.SQLiteRepository.RemovePublicationsExcept | src/nineveh/database.py:2290-2325 | the whole new tables after the loop over the touched series, and the number of rows removed |
| SearchTables.SQLiteRepository.ReindexSeries | src/nineveh/database.py:2347-2357 | the series' rows replaced by those derived now |
| SearchTables.SQLiteRepository.ForgetDataMount | src/nineveh/database.py:935-957 | the whole new tables after forgetting each library of a mount |
| SearchTables.SQLiteRepository.SaveSeriesMetadata | src/nineveh/database.py:1332-1372 | refused for an unknown series; otherwise the whole new tables, overrides kept |
| SearchTables.SQLiteRepository.ReplaceMetadataOverrides | src/nineveh/database.py:1378-1392 | refused for a series without metadata; otherwise the whole new tables |
| SearchTables.SQLiteRepository.DeleteSeriesMetadata | src/nineveh/database.py:1394-1399 | the whole new tables |
| ContractSlice.Close | src/nineveh/app.py:590-599 | the worklist ends with exactly the names reachable from the roots, a closed set |
| ContractSlice.ReachableIsLeast | src/nineveh/app.py:590-599 | any closed set with the roots contains every reachable name |
| ContractSlice.RefsExact | src/nineveh/app.py:634-643 | the collected references are exactly those made by some part of the value, at any depth |
| ContractSlice.CollectRefs | src/nineveh/app.py:634-643 | adds exactly those to the names found so far |
| ContractSlice.TaggedContract | src/nineveh/app.py:553-631 | the slice: kept paths, reachable schemas, required security schemes |
| ContractSlice.ReferencesResolve | src/nineveh/app.py:590-620 | every reference in the slice to a schema the source defines resolves inside the slice |
| ContractSlice.ReachableWithin | src/nineveh/app.py:590-620 | every schema carried is reachable within the slice itself |
| SliceMeaning.SchemesExactly | src/nineveh/app.py:601-619 | a security scheme the source defines is in the slice if and only if a value under one of its paths has it among the keys of any entry of its `security` |
| SliceMeaning.OperationsExactly | src/nineveh/app.py:568-588 | an operation is in the slice if and only if it has one of the tags; what stands beside operations if and only if one of its path's is; and both are as they were |
| SliceMeaning.SchemasExactly | src/nineveh/app.py:590-611 | a schema is in the slice if and only if the source defines it and a trail of `$ref` mentions leads to it from the slice's paths |
| ContractSlice.SliceOfSlice | src/nineveh/app.py:553-631 | slicing a slice by the same tags changes nothing |
| ArchivePoolState.HeldArchivesStayOpen | src/nineveh/archives.py:53-95 | however callers come and go, an archive somebody holds is in the pool and never closed |
| ArchivePoolState.PoolIsBounded | src/nineveh/archives.py:81-95 | after each step the pool holds at most its capacity, or else only archives in use |
| ArchivePoolState.JustAcquiredStays | src/nineveh/archives.py:60-67 | the entry just acquired is never the one evicted |
| ArchivePoolState.VictimIsLeastRecent | src/nineveh/archives.py:81-95 | what is evicted nobody holds, and it was last acquired before every idle entry that stays |
| ArchivePoolState.HandlesExactly | src/nineveh/archives.py:53-95 | a caller gets the pooled handle if there is one and a new one otherwise; an entry that stays keeps its handle; what is closed is exactly what leaves the pool |
| ArchivePoolState.EvictedKeeps | src/nineveh/archives.py:81-95 | eviction drops idle entries only, changes none and stops at the capacity or when all are in use |
| ArchivePoolState.AcquireKeeps | src/nineveh/archives.py:53-67 | acquiring keeps counts, handles and order of use in step |
| ArchivePoolState.ReleaseKeeps | src/nineveh/archives.py:70-73 | releasing does too |
| ArchivePoolObject.ArchivePool.Acquire | src/nineveh/archives.py:53-69 | the handle, the pool and what was closed; without capacity the pool is left alone |
| ArchivePoolObject.ArchivePool.Release | src/nineveh/archives.py:70-73 | the pool and what was closed |
| ArchivePoolObject.ArchivePool.Evict | src/nineveh/archives.py:81-95 | the loop evicts exactly what the recursive definition does and closes just those handles |
| DiskCache.DiskCacheBudget.Added | src/nineveh/archives.py:368-385 | over the limit, the oldest files but the new one go until the total fits or none is left, and none goes in vain; within it nothing goes |
| Grants.MeaningKeptExactly | src/nineveh/authorization.py:80-105 | over the comics and manga a scan files, normalising admits exactly the same publications if and only if every series grant without a category comes with grants of all the comics and all the manga of its library |
| Grants.MeaningKeptInCategory | src/nineveh/authorization.py:80-105 | the same for the publications of any one category, whichever it is |
| Grants.NormalisedAdmitsAll | src/nineveh/authorization.py:80-105 | nothing submitted is lost |
| Grants.NormalisedExact | src/nineveh/authorization.py:84-105 | which grants are stored, one by one |
| Grants.NormalisedIsSettled | src/nineveh/authorization.py:80-105 | normalising twice is normalising once |
| Grants.CoveredOnlyByEmptySeries | src/nineveh/authorization.py:84-105 | over what a scan files, a stored grant covers another if and only if it has an empty series where the other names one; grants that leave the series out never do |
| Grants.RowsPassChecks | src/nineveh/database.py:215-223 | what is stored passes the table's checks and no two grants share a row |
| Grants.RowMatchesAsGrant | src/nineveh/database.py:3635-3652 | the scope condition on a row agrees with `_grant_matches` on the loaded grant |
| Grants.ScopeAgrees | src/nineveh/database.py:3631-3655 | the SQL scope over the stored form admits just what the normalised grants do |
| Grants.PolicyAgreesWithQueries | src/nineveh/authorization.py:43-60 | what a listing shows a reader and what `can_read` allows are the same |
| Grants.ReadersExactly | src/nineveh/authorization.py:43-60 | a disabled user reads nothing, an administrator everything, anybody else what one of the stored rows names by library, category and series |
| Grants.ReplacedMeansSubmitted | src/nineveh/authorization.py:74-106 | end to end, a reader is shown and may open exactly what the submitted grants admit, in every category where the meaning is kept |
| Grants.AccessService.Replace | src/nineveh/authorization.py:74-106 | refused, changing nothing, for an unknown user, an administrator, or a grant with an unknown library, another category or a series that is not of that library and category; otherwise the stored rows |
| Grants.AccessService.FirstFault | src/nineveh/database.py:1171-1172 | no fault if and only if every grant is valid |

## Left out

- HTTP routes, feeds, templates and browser scripts other than the reader model: transport and presentation.
- SQL text, full-text ranking and spelling suggestions: tables are maps and transactions are steps. Ranking statistics
  that depend on stale rows, and the order of search results, are not modelled.
- ZIP, XML and image handling, hashing and password checks: what they return is a parameter or an open choice.
- Title matching scores: the matcher's choice is a parameter.
- The event loop, threads and SQLite's locking: abstracted to atomic steps in any order.
- GateBypass.BypassBoundedExactly: a gate with no capacity, or a `per_key` of zero, which never grants anything.
- A gate with `queue_per_key` below one: `setdefault` would leave an empty queue behind that dispatching cannot take
  from, so the gate's model requires at least one.
- RequestBudgets.FloodBounded: tokens, rates and times are exact reals where the original has floating point.
- RequestBudgets.WaitIsExact: likewise; with rounding a retry just at the end of the wait may come a moment early.
- LoginPace.GuessRate: delays and times are exact reals too.
- The gate's and the guard's timeouts as times: a wait may end at any moment.
- Credentials are opaque keys, `strip` and `casefold` of user names are taken as done, and reports to the observer are
  steps without content.
- RateLimit.RollingWindow: seconds are real numbers, so the rounding of stored floating-point stamps is not modelled;
  the clock of all callers is one non-decreasing sequence.
- Ordering.SortKeyEmbeds: digits are ASCII, case folding is any function that adds no control characters, and text is a
  sequence of code points without regard to surrogates.
- ReaderModel.GroupedIsLayout: page sizes are whole numbers and the aspect ratio is compared exactly; preference
  storage, key bindings and the scroll window are not modelled.
- Power loss: a crash ends the process and keeps what was written; what syncing a directory preserves is not modelled.
- PlacementSafety.DoKeeps: a commit's checks before its first change to the file system (record, archive, target) are one
  step; every later call that depends on them looks again.
- Byte quotas of staging, its disk reserve and duplicate detection; a half-written sidecar counts as none.
- FileNames.ValidFilenameSound: only ASCII white space is stripped and only ASCII letters are folded.
- Scan.CatalogScanner.ScanLibrary: discovery is given as the list of archives found, which do not change during the scan;
  path walking, symbolic links and scan status are not modelled.
- SearchIndex.SearchAsIfRebuilt: an index row stands for what it is written from, so the order in which titles are joined
  is not modelled; publications always have a library and a series; category and series names, and
  the values facets are compared by, are their folded forms, and metadata values are trimmed texts.
- AutoMatchRunner.Repository.RunAutoMatch: what saved covers and recorded lookup errors hold is not modelled, and `updated_at`
  and details are dropped; an invalid status is excluded by type.
- ContractSlice.TaggedContract: the title, version and information copied from the source document; path items are
  objects.
- ArchivePoolState.HeldArchivesStayOpen: `close` at shutdown, which closes archives in use too, and a pool of capacity
  zero, which `acquire` bypasses.
- DiskCache.DiskCacheBudget.Added: files come and go only through the budget while it runs.
- Grants.ScopeAgrees: case is compared for ASCII, where `casefold` and `NOCASE` agree.
- Settings, mounts, last-administrator checks, sessions and the librarian's answers: little state or easy members.
