# EarthSciIO, modelled and proved in Dafny

EarthSciIO fetches forcing data files into a shared cache, decodes them, and hands a solver
the record that is current at each time. These modules model the Python track's behaviour
where it is hardest, and prove what its code and specification say of it. `dafny verify
dfyconfig.toml` checks everything.

Instants are integers (microseconds since 0001-01-01), arrays are nested values of any rank,
and failures are values. Where the source updates objects in place the model does so too:
`PrefetchObject.PrefetchGroup`, `ProviderObject.Provider`, `FileShare.Shared`,
`Cache.Fetcher`, `Memo.SourceRevalidator` and `JsonRecords.Record` are classes whose methods
are proved equal, field for field, to functions on values; the results about whole runs are
lemmas about those functions.

| Part | Modules | Models |
|---|---|---|
| Prefetch | PrefetchModel, PrefetchInvariant, PrefetchSteps, PrefetchTheorems, PrefetchFilled, PrefetchCalls, PrefetchOnce, PrefetchBudget, PrefetchRefs, PrefetchRestart, PrefetchObject, EndToEnd | the epoch scheduler as a state machine whose steps are its critical sections; workers finish at any time |
| Shared files | FilePair, FileShare | the decoded files a group's workers share |
| Cadence | Calendar, Temporal | anchors on the proleptic Gregorian calendar, records and files |
| Windows | NativeData, Arrays, Cells, Selection, NamedReads, WindowUnion, WindowLaws, WindowRefinement, WindowsBracket, WindowsAtOnce, WindowsTheorem, WindowsSeam | named-dimension windows, their bounding union, and the slicing back |
| Provider | Sampling, BracketRule, ProviderModel, ProviderRuns, ProviderObject | one sampling path behind buffers, fresh reads and windows |
| Cache | CacheProtocol, Cache, Memo | the shared store under concurrent fetchers and crashes, one fetch with its candidates, the memo of a local source's digest |
| Formats | Chunks, JsonRecords | Zarr v2 chunks; JSON tree check and flattening |

## Where the code does not do what is written of it

The model follows the code, and each point below is proved.

- `sample_windows_at` is documented (earthsciio/provider.py:553-556, spec/prefetch.md section
  2.4) to equal each window's own sample. With two records per sample it does not always.
  Any error while reading the next record's file holds the first record instead
  (earthsciio/provider.py:899-908), and the union's read of that file can fail, or succeed,
  where one window's own read would not; and two records are stacked by the order of their
  axes, whatever the axes are called (earthsciio/provider.py:962-972).
  `WindowsTheorem.WindowsAreTheWindowsAlone` says for every list of windows exactly when the
  two agree, failures included, in terms of the two files fetched: which windows they can be
  read under, the record numbers, the lengths of the axes in order, and, only where the axes
  are named in another order, the cells. Three pairs of files break it:
  `WindowsSeam.NarrowerSeam` (all succeed, with different data), `WindowsSeam.TallerSeam` (one
  window alone raises, all at once do not) and `WindowsSeam.PermutedSeam` (every window alone
  raises, all at once do not). `WindowsSeam.AlikeFilesAgree`: files on one grid always agree.
- The digest memo is documented as safe to share between threads
  (earthsciio/validate.py:223). When two checks of one file overlap a rewrite, the second can
  be served the digest of bytes its stat never saw: `Memo.OverlappingChecksMislead`.
  `Memo.MemoIsSoundIff` gives the exact condition, the order of the write, the stat and the
  read, and `Memo.EarlierEntriesAreSound` that checks which do not overlap are always right.
- Ending an order does not reset the reference count of a task kept as last delivered
  (earthsciio/prefetch.py:734-744), so after a restart a revived task can have more
  references than slots hold it: `PrefetchRestart.RevivedTaskDrifts` is a run in which it has,
  and `PrefetchRestart.RevivedDriftIff` says which held tasks do, at any point of the order
  that follows. No delivered value depends on it; the task is only kept longer.
- A fetch with an expected checksum is documented to raise on a mismatch
  (earthsciio/cache.py:168-171). An entry stored with another hash is a miss, but is asked
  about with its own validators, and a "not modified" answer hands it out unchecked
  (earthsciio/cache.py:337-359). `Cache.Fetcher.Fetch` says exactly when an entry with another
  hash is returned: when one is stored and the first candidate that delivers confirms it;
  `Cache.WrongChecksumServed` is such a fetch.

## Model

| member | source | states |
|---|---|---|
| `PrefetchTheorems.PrefetchEquivalence` | earthsciio/prefetch.py:562-611 | For every order, depth, budget and interleaving of finishes with start, take, cancel and close: a take that delivers gives, for exactly the members, the sample each decodes at that epoch. |
| `PrefetchTheorems.ChangedSamplesSuffice` | earthsciio/prefetch.py:600-609 | A consumer that copies only the samples marked changed always holds the whole epoch it took. |
| `PrefetchTheorems.BuffersFollow` | earthsciio/prefetch.py:600-609 | Invariant behind it: after any run each copied buffer is the sample of the anchor delivered last in this order. |
| `PrefetchTheorems.ChangedMeans` | earthsciio/prefetch.py:603-605 | Over any history, `changed` is false exactly when the member's last delivery since the last start, told from the replies alone, was of the same anchor. |
| `PrefetchTheorems.FailuresAreDeterministic` | earthsciio/prefetch.py:714-732 | With fixed failing decodes, in every interleaving: nothing taken so far failed, and the next take either waits, or delivers an epoch without failures, or raises the error of the least failing member in byte order. |
| `PrefetchTheorems.TakeIsExact` | earthsciio/prefetch.py:593-599 | What the next take answers is decided by which decodes fail, never by completion order. |
| `PrefetchTheorems.RaisingEndsTheOrder` | earthsciio/prefetch.py:593-599 | A take that raises ends the order: slots and tasks are dropped, the generation moves on, what was last delivered is kept, and the phase is failed. |
| `PrefetchTheorems.RefusedUntilStart` | earthsciio/prefetch.py:714-732 | Once an order is over, every take is refused, over any events, until the next start. |
| `PrefetchTheorems.RunningShape` | earthsciio/prefetch.py:769-823 | In every reachable running state with entries left, held slots are exactly [head, next), at least one and never more than `depth`, the stop position is unset or among them, and each slot task is filed, referenced and current. (How far the window must reach is `PrefetchFilled.WindowIsFilled`.) |
| `PrefetchFilled.WindowIsFilled` | earthsciio/prefetch.py:769-823 | In every reachable running state admission has gone as far as it may: a failure is stored, the order is used up, the window is `depth` slots deep, or there is a budget, another slot is held, and some size is unknown or the bytes of the held tasks and what the next slot adds exceed the budget. Sizes are told from the tasks' outcomes and the members' last samples. |
| `PrefetchFilled.WindowReachesDepth` | earthsciio/prefetch.py:775-779 | Without a budget and a stored failure it reaches exactly the lesser of head + depth and the end of the order. |
| `PrefetchFilled.SizesAreLatest` | earthsciio/prefetch.py:919-933 | The size a member is estimated at is that of its latest accepted success, over any run. |
| `PrefetchCalls.TakesFollowTheOrder` | earthsciio/prefetch.py:562-611 | Over any run, the epochs delivered since the last accepted start, told from the replies, are exactly the first entries of the order given to it, in turn, as many as the cursor says. |
| `PrefetchCalls.TakeAnswers` | earthsciio/prefetch.py:562-592 | A take is refused exactly when no order runs or all of it is taken, names the expected epoch exactly when asked for another, waits exactly while some member's sample of that epoch is undecided; none of these changes anything. |
| `PrefetchCalls.AdmitShares` | earthsciio/prefetch.py:783-820 | For any order: a member shares the task held for an anchor, or takes up again the one last delivered for it; only otherwise is a new one made. |
| `PrefetchCalls.OutcomesCountOnce` | earthsciio/prefetch.py:919-933 | An outcome of an ended order, or a second one, changes nothing; any other is recorded. |
| `PrefetchCalls.CancelEnds` | earthsciio/prefetch.py:634-663 | Cancel ends a running or failed order, dropping slots and tasks and keeping what was delivered; close drops that too. |
| `PrefetchCalls.ClosedForGood` | earthsciio/prefetch.py:535-560 | Once closed, every take is refused after any events, starts included. |
| `PrefetchCalls.BeforeMeans` | earthsciio/prefetch.py:433 | The order of member keys is lexicographic: smaller at the first difference, or the other's beginning. |
| `PrefetchTheorems.FinishesUnblockTake` | earthsciio/prefetch.py:546-592 | Once the head slot's own tasks have finished, in any order amid any other finishes, the next take does not wait. |
| `PrefetchTheorems.ReadyMeansTakeReturns` | earthsciio/prefetch.py:613-632 | `ready` holds exactly when the take would return or raise at once. |
| `PrefetchSteps.StepKeepsInv` | earthsciio/prefetch.py:535-660 | Every start, take, cancel, close and finish keeps the whole invariant. |
| `PrefetchSteps.RunKeepsInv` | earthsciio/prefetch.py:535-660 | So does every possible run. |
| `PrefetchSteps.ReleaseKeepsRefs` | earthsciio/prefetch.py:746-751 | Releasing the head slot leaves every task at least as many references as remaining slots that hold it. |
| `PrefetchSteps.StillHeld` | earthsciio/prefetch.py:746-751 | A task another slot still needs is not forgotten by a release. |
| `PrefetchRefs.RefsCoverHolders` | earthsciio/prefetch.py:734-751 | In every state of every run, restarts included, references are at least the slots that hold the task. |
| `PrefetchRefs.OneStartExactRefs` | earthsciio/prefetch.py:783-823 | On a fresh group with one start they are equal in every running state. |
| `PrefetchRestart.DriftSinceStart` | earthsciio/prefetch.py:734-751 | After any run and a start, along the order that follows: a task has more references than slots hold it by exactly what it had left at the start, and a new task by none. |
| `PrefetchRestart.RevivedDriftIff` | earthsciio/prefetch.py:798-804 | So a task that a slot holds has more if and only if it was revived: it is the one its member was last delivered before the start, with references left then. |
| `PrefetchRestart.RevivedTaskDrifts` | earthsciio/prefetch.py:734-744 | A concrete run: two epochs share an anchor, the first is taken, the order is started again, and the revived task has two references for one slot. |
| `PrefetchOnce.ExactlyOnceDecode` | earthsciio/prefetch.py:783-820 | On a fresh group and a monotone order: one task for each (member, distinct anchor) of the admitted positions, none other, and tasks made plus samples reused is members times positions. |
| `PrefetchOnce.SweepsAreMonotone` | earthsciio/prefetch.py:681-712 | Full forward and reverse orders are monotone in every member's anchors. |
| `PrefetchBudget.BudgetHolds` | earthsciio/prefetch.py:753-767 | With constant sample sizes, in every reachable state at most one slot is held, or all held tasks (in-flight ones at their estimate, shared ones once) fit in `max_bytes`. |
| `PrefetchBudget.BudgetInSizes` | earthsciio/prefetch.py:753-806 | In the members' own constant sizes: with two slots held or more, every held task at its member's size, failed ones at nothing, comes to no more than `max_bytes`, and each member with a task in flight has decoded before. |
| `PrefetchBudget.AdmitKeysBytes` | earthsciio/prefetch.py:798-804 | Admitting a slot adds exactly the slot's estimate to the held bytes. |
| `PrefetchObject.PrefetchGroup.Start` | earthsciio/prefetch.py:535-560 | Refines one start step; refused exactly for a closed group, a bad listing, or an absent `from`; the order is the listing or its tail from the first such entry; a refusal changes nothing; otherwise the window is filled, without a budget to the depth or the end of the order. |
| `PrefetchObject.PrefetchGroup.Take` | earthsciio/prefetch.py:562-611 | Refines one take step: new state and reply are the model's, and the invariant holds; refusals, wrong epochs and waits are told apart by the fields and change nothing; after a delivery the window is filled again. |
| `PrefetchObject.PrefetchGroup.Finish` | earthsciio/prefetch.py:919-938 | Refines one finish step; an outcome of an ended order or a second outcome changes nothing; any other is recorded and the window is filled. |
| `PrefetchObject.PrefetchGroup.Cancel` | earthsciio/prefetch.py:634-644 | Refines cancel. |
| `PrefetchObject.PrefetchGroup.Close` | earthsciio/prefetch.py:646-663 | Refines close: cancels and drops the delivered samples. |
| `PrefetchObject.PrefetchGroup.Ready` | earthsciio/prefetch.py:613-632 | Returns the model's `ready`. |
| `PrefetchObject.PrefetchGroup.AdmitLocked` | earthsciio/prefetch.py:769-823 | The admission loop is the model's greedy admission, stops only where the window is filled, and returns exactly the new tasks. |
| `PrefetchObject.PrefetchGroup.HeldBytesLocked` | earthsciio/prefetch.py:753-767 | The loop over held tasks is the sum of their weights, and says whether some size is unknown. |
| `PrefetchObject.PrefetchGroup.CheckSlotLocked` | earthsciio/prefetch.py:825-841 | Settles a slot when all its tasks are done, with the first failure in key order, and moves the stop position to the earliest one. |
| `PrefetchObject.PrefetchGroup.ReleaseLocked` | earthsciio/prefetch.py:746-751 | Drops one reference and forgets the task at the last one. |
| `PrefetchObject.PrefetchGroup.EndOrderLocked` | earthsciio/prefetch.py:734-744 | Ends the order: new generation, no slots, no tasks, `last` and references untouched. |
| `PrefetchObject.ResolveOrder` | earthsciio/prefetch.py:681-712 | Accepts exactly non-empty listings of existing epochs that contain `from`, and trims to its first occurrence. |
| `EndToEnd.SchedulingChangesNothing` | earthsciio/prefetch.py:10-17 | Over real providers and any run, a delivered take holds for each member what its provider returns synchronously at that epoch: its sample, or with windows the datasets of one decode of them all, which are the windows' own samples where the seam is even. |
| `EndToEnd.GroupIsAnchorOnly` | earthsciio/provider.py:711-732 | A provider's decode depends on the time only through its anchor, and anchors are monotone in time. |
| `EndToEnd.SweepsDecodeOnce` | earthsciio/prefetch.py:783-820 | So over real providers, whatever the completion order, a full forward or reverse sweep makes one decode for each member and distinct anchor of the admitted positions and no other, and decodes plus reused samples are members times positions. |
| `FileShare.ShareIsSafe` | earthsciio/prefetch.py:148-199 | In every interleaving of callers: at most one decode of a file in flight, done and pending disjoint, at most two done files each the file's decode, and every caller gets that decode or an error of decoding that file. |
| `FileShare.NobodyIsStuck` | earthsciio/prefetch.py:180-199 | A waiter can go on at once, or the owner of its decode is decoding or can move. |
| `FileShare.OwnerWakesWaiters` | earthsciio/prefetch.py:180-199 | The owner's finish, publish and signal let every waiter of its decode go on with that same outcome. |
| `FileShare.FailureIsForgotten` | earthsciio/prefetch.py:187-199 | After a failed decode is published the next caller decodes again, and the kept files are unchanged. |
| `FileShare.SuccessIsShared` | earthsciio/prefetch.py:170-199 | After a successful decode is published the next caller is served it at once, and the file used last before it is kept beside it. |
| `FileShare.InFlightIsJoined` | earthsciio/prefetch.py:170-183 | A caller of a file being decoded waits for that decode and changes nothing. |
| `FileShare.MoveKeepsInv` | earthsciio/prefetch.py:169-204 | Every move keeps the protocol invariant. |
| `FileShare.Shared.EnterLocked` | earthsciio/prefetch.py:170-179 | The first critical section, on the fields: a kept file is served and becomes the newest, a pending one joined, any other started; nothing else changes. |
| `FileShare.Shared.PublishLocked` | earthsciio/prefetch.py:192-199 | The last critical section, on the fields: no longer pending; a success becomes the newest, beside the one that was; a failure changes no file. |
| `FileShare.Shared.ClearLocked` | earthsciio/prefetch.py:201-203 | Drops the finished files only. |
| `Calendar.AnchorIsDate` | earthsciio/calendar.py:93-102 | With months, anchor k is the one valid date k * months months on, at the start's time of day and on its day or, if that month is shorter, its last, and then k * seconds later; without months it is the start k * seconds later. |
| `Calendar.InstantsCountDays` | conformance/generate.py:2326-2333 | Instants count microseconds from 0001-01-01: the next day is 86400 seconds on, with the Gregorian month lengths and leap years. |
| `Calendar.AnchorsIncrease` | earthsciio/calendar.py:93-102 | Anchors are strictly increasing in k, for months, seconds or both, with day clamping, negative k too. |
| `Calendar.MonthsIncrease` | conformance/generate.py:2326-2333 | On the proleptic Gregorian calendar a later month starts after every day of an earlier one. |
| `Calendar.EstimateOffByOne` | earthsciio/calendar.py:104-113 | With exact division the index estimate is within one of the true floor. |
| `Calendar.FloorAndCeilAreExtremal` | earthsciio/calendar.py:104-118 | `floor` is the largest k with anchor at or before t, `ceil` the smallest with anchor at or after t. |
| `Calendar.FloorIsUnique` | earthsciio/calendar.py:104-113 | Exactly one index is the floor. |
| `Calendar.IndexOfAnchor` | earthsciio/calendar.py:104-118 | The floor and the ceiling of anchor k are both k. |
| `Calendar.CorrectIndex` | earthsciio/calendar.py:104-113 | The two correction loops end at the floor from any guess, in exactly as many steps as the guess is off. |
| `Calendar.FloorIndex` | earthsciio/calendar.py:104-113 | `floor` returns the largest index with anchor at or before t, after at most one correction step. |
| `Calendar.CeilIndex` | earthsciio/calendar.py:115-118 | `ceil` returns the smallest index with anchor at or after t. |
| `Calendar.BruteForceFloor` | conformance/generate.py:2341-2348 | The independent walk gives the same floor. |
| `Calendar.BruteForceCeil` | conformance/generate.py:2351-2353 | And the same ceiling. |
| `Temporal.RecordAnchorSnaps` | earthsciio/provider.py:125-138 | Snapping is idempotent and monotone, the time lies between its anchor and the next, and the next anchor is an anchor. |
| `Temporal.FileAnchorSnaps` | earthsciio/provider.py:140-148 | The same of file anchors. |
| `Temporal.AnchorsAreLatest` | earthsciio/provider.py:125-148 | A time's record anchor is the frequency's latest anchor at or before it, its file anchor the file period's, and the next anchors those one step on. |
| `Temporal.RecordOfAnchor` | earthsciio/provider.py:176-181 | Each record anchor has a record number within its file's count, from which the anchor is recovered. |
| `Temporal.AnchorOfRecord` | earthsciio/provider.py:176-181 | Each record number below the count is that of exactly one anchor of the file. |
| `Temporal.RecordsAreConsecutive` | earthsciio/provider.py:176-181 | The next anchor is the next record of the file, or record 0 of a later file after the last record of this one. |
| `Temporal.RecordAnchors` | earthsciio/provider.py:150-161 | The loop lists exactly the record anchors in [lower, upper), in order. |
| `Temporal.FileAnchors` | earthsciio/provider.py:163-174 | The loop lists exactly the file anchors from the one covering `lower`, below `upper`, in order, and covers the file of every time between. |
| `Temporal.RecordsPerFile` | earthsciio/esm_source.py:133-145 | A declared count is accepted if and only if it is absent, `auto`, or the whole number that is the count of the first file's records, and is else refused with that count, which is at least one. |
| `Arrays.GatherGather` | earthsciio/selection.py:417-438 | At any rank a gather of a gather is one gather through the composed index lists. |
| `Arrays.TakeAfterGather` | earthsciio/selection.py:417-438 | One more `take` along an untouched axis is the gather with that axis added. |
| `Arrays.DropGather` | earthsciio/provider.py:936-947 | Dropping one index of an axis commutes with gathering the other axes. |
| `Arrays.StackGather` | earthsciio/provider.py:962-972 | Stacking commutes with gathering the other axes. |
| `Arrays.DropStack` | earthsciio/provider.py:962-972 | The two entries of a stack are the two arrays stacked. |
| `Cells.GatherAt` | earthsciio/selection.py:417-438 | Cell by cell: a gathered cell is the one its axes' lists name. |
| `Cells.TakeAt` | earthsciio/selection.py:417-438 | A `take` with a list replaces that axis's index by the list's entry. |
| `Cells.DropAt` | earthsciio/provider.py:936-947 | A `take` with one index puts it back on that axis. |
| `Cells.StackAt` | earthsciio/provider.py:962-972 | A stacked cell is the first array's at entry 0, the second's at entry 1. |
| `Cells.SameCells` | earthsciio/selection.py:417-438 | Arrays of one shape with the same cells are equal. |
| `Selection.RangeMembers` | earthsciio/selection.py:192-208 | An index is in a slice's list exactly when it is at or past start, below stop, in whole steps. |
| `Selection.RangeEntries` | earthsciio/selection.py:192-208 | Entry i of a slice's list is start + i * step, below stop, and the list goes as far as it can: the indices once each, ascending. |
| `Selection.ResolveAxis` | earthsciio/selection.py:161-189 | The list is every index once in order, the list given, or the slice's start, start + step and so on below stop; a step below one is a value error; any index out of the axis is an index error, none clamped or wrapped. |
| `Selection.ReadNamedIff` | earthsciio/readers.py:230-275 | A named windowed read succeeds exactly when every selector is well formed, every named dimension is carried, no narrowed one is time and every index exists; its value is the file gathered by name. |
| `NamedReads.NamedReadSucceeds` | earthsciio/readers.py:230-275 | Entry by entry, without the reader's own functions: a named read succeeds exactly when every named dimension is an axis of some variable or coordinate and, unless left whole, is not time, a slice steps forward, and every index asked for exists. |
| `NamedReads.NamedReadReturns` | earthsciio/readers.py:230-275 | It returns every variable and coordinate with the same axes and attributes, each axis as long as its selector asks, and every cell the file's at the indices asked for, in their order. |
| `NamedReads.NamedReadRefuses` | earthsciio/readers.py:230-275 | A name no field carries is a value error before anything else; else the first entry that cannot be read decides: a subset of time or a step below one a value error, an absent index an index error. |
| `NamedReads.TimeIsNamed` | earthsciio/readers.py:144-167 | A dimension is time exactly when its coordinate's units hold the word since between white space, or its name is time, both in any case. |
| `WindowUnion.BuildUnion` | earthsciio/selection.py:376-399 | The constructor's loops compute the union: names in first-use order, one merged list per name or the whole axis. |
| `WindowUnion.UnionMeaning` | earthsciio/selection.py:362-370 | The union fails exactly when some selector is malformed; per name it is whole exactly when some window needs it whole, else strictly increasing with exactly the indices asked for. |
| `WindowUnion.NamesInOrderOfUse` | earthsciio/selection.py:380-384 | Names come in the order of their first use over the windows. |
| `WindowUnion.Cut` | earthsciio/selection.py:417-438 | The per-axis `take` loop is one gather by name, and fails exactly when an index is out of the axis. |
| `WindowUnion.SplitIs` | earthsciio/selection.py:405-407 | Splitting succeeds exactly when every window can be cut, gives each window's cut, and fails with the error of the first that cannot. |
| `WindowUnion.CutFails` | earthsciio/selection.py:409-438 | A window of which the union read the whole of a time dimension it wants part of is a value error; else it cannot be cut exactly when some field lacks an index asked of it, an index error. |
| `WindowLaws.WindowTwice` | earthsciio/selection.py:417-438 | Cutting a window out of a wider window is the window itself, and is in range exactly when the window is. |
| `WindowLaws.SliceWindow` | earthsciio/provider.py:734-740 | A record of a window is the window of the record, with the same errors. |
| `WindowLaws.StackWindow` | earthsciio/provider.py:962-972 | A bracket of two windows is the window of the bracket. |
| `WindowsTheorem.WindowsAreTheWindowsAlone` | earthsciio/provider.py:550-574 | For every loader, time and list of windows: all windows from one decode of their union succeed exactly when every window alone does, each with the dataset it gives alone, if and only if the seam is even. One record per sample has no seam. With two, where every window reads the anchor's file, the seam is even if the union's two records stack, every window's do, each window finds the next record when the union does, and its cells of it are the same; or if the union's do not stack, nor some window's. |
| `WindowsTheorem.SliceMatches` | earthsciio/provider.py:711-740 | The one-record case, which needs no assumption. |
| `WindowsTheorem.BracketUnder` | earthsciio/provider.py:872-919 | A two-record sample over files read under any lists needs the anchor's file to be readable under them, is then the bracket of the two files seen through the lists, and succeeds exactly when every variable is in both and the records and axis lengths there let them stack. |
| `WindowsTheorem.CutIsAlone` | earthsciio/provider.py:734-740 | Where both brackets are made, a window cut out of the union's is the window's own if and only if both find the next record or neither does and its cells of it are the same. |
| `WindowsTheorem.SeamResults` | earthsciio/provider.py:872-919 | When every window reads the anchor's file: each window alone succeeds exactly when its records stack, and all at once exactly when the union's do. |
| `WindowsBracket.StackCut` | earthsciio/provider.py:962-972 | Stacking goes by the order of axes and keeps the first file's names, so a window cut out of a wider stack is the window's own stack exactly when cutting the next record by either file's names gives the same cells. |
| `WindowsBracket.LikeAxes` | earthsciio/provider.py:962-972 | Which it does whenever the axes have the same names in the same order. |
| `WindowsAtOnce.WindowReads` | earthsciio/selection.py:409-438 | After the union read a file, slicing window i out checks exactly what reading window i alone would have. |
| `WindowsAtOnce.UnionReads` | earthsciio/selection.py:376-399 | A file every window can read, the union can read. |
| `WindowsAtOnce.AloneMeans` | earthsciio/provider.py:671-694 | A window is refused, before any read, of a provider that has one, whose reader takes none, or when it names the time dimension; else it is the sample of the provider with the window baked in. |
| `WindowsAtOnce.AtOnceMeans` | earthsciio/provider.py:567-571 | No windows give no datasets; one refused window refuses them all. |
| `WindowsSeam.LikeAxesSeam` | earthsciio/provider.py:897-908 | With axes named alike in both files: windows that find the next record when their union does make an even seam, and where every window alone succeeds only they do. |
| `WindowsSeam.AlikeFilesAgree` | earthsciio/provider.py:872-919 | Two files with the same dimensions at the same lengths, except time, always make an even seam, so the windows agree. |
| `WindowsSeam.NarrowerSeam` | earthsciio/provider.py:899-908 | A second file one cell narrower: each window alone and all at once succeed, with different data. |
| `WindowsSeam.TallerSeam` | earthsciio/provider.py:899-908 | A second file narrower one way and longer the other: one window alone raises, all at once succeed. |
| `WindowsSeam.PermutedSeam` | earthsciio/provider.py:962-972 | A second file with its axes in another order: each window alone raises, all at once succeed. |
| `Sampling.SampleByAnchor` | earthsciio/provider.py:711-732 | A fresh sample depends on its time only through the anchor. |
| `Sampling.RecordFollowsRule` | earthsciio/provider.py:1085-1109 | The record chosen is the one the rule names, and the rule names only one, for any axis, unsorted, repeated, gapped, trimmed or undecodable: the decode of the time dimension's own coordinate decides where it spans the anchor, the cadence offset otherwise. |
| `Sampling.RecordAtOrBefore` | earthsciio/provider.py:1070-1082 | The scan gives the latest time at or before the anchor, the first in file order among equals, or the first earliest when all are later. |
| `Sampling.BestIsLatest` | earthsciio/provider.py:1070-1082 | The scan's running best is the latest at or before among the entries seen. |
| `BracketRule.BracketFollowsRule` | conformance/gen_time_axis.py:247-264 | A two-record sample succeeds if and only if the anchor's file reads and, when the next record is there, every variable is in both files with both records inside and every other axis of the same length, or else the rule's record exists in every variable. Then entry 0 of every time-varying variable is the rule's record of the anchor; entry 1 the rule's record of the next anchor in the file covering it, or entry 0 again; attributes and other axes are the first file's; the time coordinate holds the seconds since 1970 of the anchor and of the next one (or the anchor again), in that order, under its own dimension. |
| `BracketRule.OneGridNeedsOneRecord` | conformance/gen_time_axis.py:247-264 | Between files on one grid, as the rule has them, it succeeds exactly when record 0 exists, whatever becomes of the next. |
| `BracketRule.StackIff` | earthsciio/provider.py:962-972 | Two records stack exactly when both exist and all other axes have the same lengths in order. |
| `BracketRule.SliceFollowsRule` | conformance/gen_time_axis.py:225-239 | A one-record sample succeeds exactly when every time-varying field has the rule's record, and is that record. |
| `BracketRule.SliceFails` | earthsciio/provider.py:936-947 | A one-record sample fails as its file does, or with an index error. |
| `BracketRule.BracketFails` | earthsciio/provider.py:975-992 | Two records that do not stack fail with an error some variable is to blame for: in one file only, no such record, or another axis of another length. |
| `BracketRule.SampleMeans` | earthsciio/provider.py:703-732 | A constant source's sample is its file at 1970; any other is refused before the source's start, exactly, and else the slice or bracket of the anchor whose step the time is in. |
| `BracketRule.DecodeIs` | earthsciio/provider.py:800-834 | A file is read under the call's window, else the baked one, else whole; a window for a reader that takes none is refused before the fetch. |
| `BracketRule.TimeLenMeans` | earthsciio/provider.py:950-959 | The length along time is the time coordinate's own, else some variable's, else 0. |
| `ProviderModel.RefreshIsSampleAt` | earthsciio/provider.py:459-517 | A refresh on any good buffers returns the fresh sample whenever its files can be fetched, keeps the buffers good through failed reads, and a peek leaves them alone. |
| `ProviderModel.RefreshThroughOutage` | earthsciio/provider.py:459-519 | Through any outage and on any good buffers, errors included: a refresh returns exactly the sample of the time over the files it can reach, where a buffered file needs no fetch, unless it is the next anchor's and is dropped from the pair to make room for the anchor's own. A peek reaches only what can be fetched. |
| `ProviderModel.FreshThroughOutage` | earthsciio/provider.py:497-519 | So `sample_at` gives through an outage what a refresh with nothing buffered gives, with the same errors. |
| `ProviderModel.RefreshKeeps` | earthsciio/provider.py:483-495 | A refresh that succeeds keeps its sample and its anchor as current; one that fails or peeks keeps what was. |
| `ProviderModel.ReadIsDecode` | earthsciio/provider.py:800-834 | Reading through an outage is the provider's own read with the fetches that cannot be made failing. |
| `ProviderModel.GoodFileFor` | earthsciio/provider.py:836-870 | The pair buffer serves the file's decode, hit or miss, and keeps at most two correct files. |
| `ProviderModel.GoodBufferedFile` | earthsciio/provider.py:750-756 | The one-file buffer serves the file's decode and stays correct. |
| `ProviderRuns.AnyRunThenFresh` | earthsciio/provider.py:433-517 | After any sequence of refreshes, materializations, peeks and failed reads, refresh(t) is sample_at(t), materialize the sample at the later of the run window's start and the source's, and at most two files are kept, each equal to a fresh decode. |
| `ProviderRuns.ForwardDecodesOnce` | earthsciio/provider.py:836-870 | At nondecreasing times with successful reads every needed file is decoded exactly once and no other, with one record per sample or two. |
| `ProviderObject.Provider.Refresh` | earthsciio/provider.py:459-495 | Refines the model's refresh on the fields, and returns the fresh sample when its files can be fetched. |
| `ProviderObject.Provider.Materialize` | earthsciio/provider.py:433-457 | Refines materialize: reads a constant source, primes any other at the window start. |
| `ProviderObject.Provider.BufferedFile` | earthsciio/provider.py:750-756 | Decodes again only when the file anchor changed; a failed read changes nothing. |
| `ProviderObject.Provider.FileFor` | earthsciio/provider.py:836-870 | A hit becomes the newest; a miss is decoded and the oldest beyond two dropped. |
| `ProviderObject.SampleFresh` | earthsciio/provider.py:497-519 | Computes the sample over files read afresh. |
| `ProviderObject.RecordIndexAt` | earthsciio/provider.py:1085-1109 | Computes the record index, by the axis or the cadence offset. |
| `ProviderObject.BracketFrom` | earthsciio/provider.py:872-919 | Computes the bracket from its reads, holding the record when the next is out of reach. |
| `CacheProtocol.CacheIsSafe` | earthsciio/cache.py:173-195 | From an empty store, a leftover blob or a committed entry, in every interleaving of any number of fetchers with crashes at any step: manifest present implies a complete matching blob, every entry handed out is such a blob and still stored, at most one commit, at most one fetcher past the lock. |
| `CacheProtocol.StepKeepsInv` | earthsciio/backends/local.py:119-167 | Each file operation, taken atomically, keeps the invariant; a crash releases the lock and may leave a blob without manifest. |
| `CacheProtocol.CommittedForGood` | earthsciio/cache.py:361-385 | Once committed, no later step touches blob or manifest or runs a transport. |
| `CacheProtocol.HitNeedsNoLock` | earthsciio/cache.py:177-181 | Once an entry is committed, a fetcher that comes returns it after two looks, without the lock, and changes nothing else. |
| `CacheProtocol.TransportRunsOnce` | earthsciio/cache.py:173-195 | Without crashes and failed downloads the transport runs at most once, exactly once by the time any fetcher returns, and never if the store held an entry from the start. |
| `CacheProtocol.EveryCandidateIsTried` | earthsciio/cache.py:271-324 | In every interleaving, crashes included: a fetcher that gives up has run as many transports as there are candidates and all failed, one that downloads hands out what its last gave after all before failed, and one that hits ran none. |
| `CacheProtocol.SomeoneCanStep` | earthsciio/backends/local.py:61-81 | While any fetcher is neither done nor crashed, some fetcher can move, whatever crashed before. |
| `CacheProtocol.RunsEnd` | earthsciio/cache.py:173-195 | No run is longer than eleven steps and one per candidate for each fetcher, so every run can be brought to its end. |
| `Cache.Fetcher.Download` | earthsciio/cache.py:256-324 | Commits the first candidate that delivers after exactly the calls of the candidates up to it; otherwise leaves exactly one cause per candidate and the store untouched, and is not-found if and only if every candidate was definitively absent. |
| `Cache.Fetcher.Try` | earthsciio/cache.py:284-322 | One candidate: at most two calls, the second without validators and only after a 304 whose entry is gone. |
| `Cache.Fetcher.Commit` | earthsciio/cache.py:326-385 | A 304 confirms only a stored entry, and changes its fetch time and the validators sent along, nothing else; content is checked, stored and pinned by its own hash and length; a checksum mismatch stores nothing. |
| `Cache.Fetcher.Fetch` | earthsciio/cache.py:154-206 | Online it is a hit exactly when an entry is stored that may be served, told from its manifest: with an expected checksum when pinned to it, else of an unchanging source always, of a changing one only without an etag or date to ask with and while within the time to live or dated ahead. A hit calls nothing and changes nothing; anything else leaves exactly what a download leaves; offline never calls. With a checksum, an entry of another hash is returned exactly when one is stored and the first candidate that delivers confirms it. |
| `Cache.WrongChecksumServed` | earthsciio/cache.py:337-359 | A concrete fetch: checksum 2 is expected, an entry of hash 1 is stored with an etag, the server says not modified, and the entry of hash 1 is handed out. |
| `Cache.CandidateEnds` | earthsciio/cache.py:284-322 | One candidate from its answers alone: the first answer that serves is delivered, a second is asked for only after a 304 about nothing stored, and otherwise it fails as its last answer says. |
| `Cache.NotFoundIff` | earthsciio/errors.py:263-271 | All causes absent exactly when there were candidates and each ended in a definitive absence. |
| `Cache.AtMostTwoCalls` | earthsciio/cache.py:284-322 | At most two calls per candidate, one without validators to send. |
| `Cache.CallsAreInOrder` | earthsciio/cache.py:271-284 | Calls go through the candidates in order and reach each that has a transport, with the validators there are. |
| `Memo.MemoIsSound` | earthsciio/validate.py:246-281 | Over every run of writes and checks, racing ones included, and any hash: a verdict served from the memo is the rehash of the content at that check's stat, provided no write came between that stat and the end of the read the entry is from. |
| `Memo.EarlierEntriesAreSound` | earthsciio/validate.py:246-281 | The proviso always holds of an entry remembered before the stat, so checks that do not overlap are always right. |
| `Memo.MemoIsSoundIff` | earthsciio/validate.py:246-281 | Where writes change the hash, a served verdict is right for every manifest, and whatever a read yields that a write disturbs, if and only if no write came between the check's stat and the end of that read. |
| `Memo.ServedRightIff` | earthsciio/validate.py:246-281 | For any hash: if and only if no write disturbed the read and what it read hashes like what the stat saw; the stat never saw a later version than the read. |
| `Memo.OverlappingChecksMislead` | earthsciio/validate.py:255-264 | A concrete run of two overlapping checks in which the second is served a digest of bytes it never saw. |
| `Memo.HitSawNoLaterVersion` | earthsciio/validate.py:231-237 | The racy-timestamp rule: a check that may use an entry saw no version later than the one its read began with. |
| `Memo.ServedIff` | earthsciio/validate.py:255-264 | A check is served from the memo exactly when the path is remembered under the same length and mtime by a read begun more than two seconds past that mtime, and then with the verdict of that digest. |
| `Memo.StatDecides` | earthsciio/validate.py:246-254 | An absent file is missing and one of another length replaced, without a read. |
| `Memo.QuietFileIsReadOnce` | earthsciio/validate.py:246-281 | A read begun more than two seconds past the mtime saves every later check's, while its entry stays and the file is stat'ed the same. |
| `Memo.SourceRevalidator.State` | earthsciio/validate.py:246-281 | One whole check of a file that may be written meanwhile, whatever its stat and its read see: no regular file is missing, one that cannot be looked at or read is unknown, another length is replaced; then the memo, else a read, remembered only if it ends. |
| `Memo.SourceRevalidator.RememberLocked` | earthsciio/validate.py:273-280 | Counts the read, clears a full memo, then files the digest; at most 512 entries stay. |
| `Chunks.Split` | conformance/generate.py:1610-1629 | The nested loops write one full-size chunk per chunk index, padded with the fill beyond the array. |
| `Chunks.FillChunk` | conformance/generate.py:1621-1626 | One chunk, filled in place, is the array's own cells where they exist and the fill elsewhere. |
| `Chunks.Assemble` | conformance/verify.py:465-484 | Reassembly in place puts at every index the cell its chunk holds, or the fill where the chunk is absent. |
| `Chunks.ReadZarr` | conformance/verify.py:409-486 | Assemble and gather: each position of the result holds the cell it asks for. |
| `Chunks.RoundTrip` | conformance/generate.py:1610-1629 | Split into chunks, read any in-range selection back: every position holds the array's own cell, in the order given, at any rank, shape and positive chunk sizes. |
| `Chunks.SplitHolds` | conformance/generate.py:1610-1629 | Every cell of the array is found again in its chunk. |
| `Chunks.MeetsIff` | conformance/verify.py:489-497 | The poison check is exact: a chunk meets the selection on every axis if and only if some selected cell lies in it. |
| `Chunks.UnmetChunksDoNotMatter` | conformance/verify.py:423-434 | Stores that differ only in chunks the selection does not meet give every selected cell alike. |
| `Chunks.MetChunksMatter` | conformance/verify.py:489-497 | Losing a chunk the selection meets can change a selected cell, so the check leaves out no more than it may. |
| `Chunks.UnravelRavel` | conformance/verify.py:475-484 | Indices and C-order offsets are in bijection. |
| `Chunks.RavelIsCOrder` | conformance/verify.py:475-484 | Offsets are ordered as their indices are, first axis first: C order. |
| `Chunks.CountsAreLeast` | conformance/generate.py:1618 | The chunks of an axis reach its end, and one less would not. |
| `Chunks.SplitPlaces` | conformance/generate.py:1619-1626 | Place by place, a stored chunk holds the array's cell c * size + l on every axis, or the fill beyond the array. |
| `Chunks.CellIs` | conformance/verify.py:465-484 | A cell is read at its own place of the one chunk that covers it, and is the fill where that chunk is absent. |
| `JsonRecords.CheckTree` | earthsciio/readers.py:689-709 | The explicit-stack check terminates on every tree and accepts exactly what the recursive contract accepts: depth at most 127 and no lone surrogate in a string or name. |
| `JsonRecords.AcceptsByPaths` | earthsciio/readers.py:689-709 | Which accepts exactly the trees in which every path to a container passes at most 127 containers, itself counted, and no string or member name on any path holds a code point from 0xD800 to 0xDFFF. |
| `JsonRecords.Record.Flatten` | earthsciio/readers.py:893-906 | The recursive fill succeeds exactly when the new dotted leaf names are pairwise distinct and unused, and then adds one entry per leaf and every object path. |
| `JsonRecords.FlattenRecord` | earthsciio/readers.py:838-851 | One record flattens exactly when no two of its leaves have one name, the member names along the path joined by dots; it then holds exactly one entry per leaf, with its value, and exactly the names of the objects inside it. |
| `JsonRecords.LeavesByPaths` | earthsciio/readers.py:893-906 | The leaves are exactly the paths to values that are no objects, each once, under the names along the path joined by dots, with their values. |
| `JsonRecords.ObjectPathsByPaths` | earthsciio/readers.py:893-906 | The object paths are exactly the names, so joined, under which the record has objects. |
| `JsonRecords.FlatRecord` | earthsciio/readers.py:893-906 | Distinct leaf names make a map with exactly one entry per leaf and no other. |

## Left out

- Transports, hashing and codecs: a transport is an answer (content, not modified, absent, failed), a hash a function, a codec the identity; staging names are fresh.
- netCDF, zarr-python, CSV, FF10, shapefile, parquet and GeoTIFF decoding, and CF time decoding: a decoded file is a value, its decoded time axis a function of the time coordinate.
- The positional `{"axes": [...]}` select, the wire spelling of selectors, `DimWindow` construction and the zarr reader's named select: windows start parsed and are read by the netcdf rule.
- A text column is an array of cells; a stored cell is its bit pattern, and the two time-coordinate entries of a bracket are exact seconds, where the original has doubles.
- A file's time coordinate is taken to have no axis but time, and a file's dimension lengths to be the same for all its fields, as netCDF has them.
- Which error is reported when several fields of one dataset fail differently, which follows dict order: the model reports by kind.
- The process executor, pickling, `fetch_ahead`, `transform`, timing statistics, `peak_bytes`, `oversize_epochs` and `epochs_decoded`: they change no result.
- Waiting inside `take`: the model answers Blocked and the consumer asks again; `close` and `cancel(wait=True)` do not wait either.
- Task identity is an index into the list of all tasks made; a finished thread's data is kept there where the original lets it be collected.
- Floating-point rounding of the calendar estimate: the correction loops are proved from any guess, the one-step bound for exact division; years outside 1 to 9999 are not refused.
- ISO 8601 duration text, esm templates, registries, auth, offline configuration, the Julia and Rust tracks, and the streaming Zarr writer.
- Eviction, several keys and expected checksums in the concurrent cache protocol: it is proved for one static key; the single-process fetch models the ladder, validators and checksums.
- The local-source recheck inside `fetch` (its memo is modelled on its own) and `verify=True`.
- Negative indices in the conformance reader's selection, which numpy would wrap: selections are in range there.
- Memo.MemoIsSound: one direction, under its proviso, because overlapping checks can break it; the exact condition is `Memo.MemoIsSoundIff`.
- WindowsTheorem.WindowsAreTheWindowsAlone: the equality itself fails across some seams, as shown, so the exact condition is proved; where axes change their order its last part compares cells, since no lengths decide it there.
- PrefetchBudget.BudgetHolds: assumes constant sizes per member, as a larger later sample may exceed its estimate.
