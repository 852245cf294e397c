# Verified model of the disk link's read path and metadata refresh

This project models the parts of the program that decide which bytes a reader gets and which files a
directory shows, and proves that they do what the program is for.

* **The stream engine** (`internal/stream`): sessions, open handles, single-flight chunk tasks in a priority
  heap, a pool of workers woken by a condition variable, hedged duplicates, epochs that cancel stale
  prefetch, the sliding prefetch window, idle reclaim, and the two-level chunk cache.
* **The remote reader** (`internal/remote`): the window cache, reads in flight, sequential and concurrent
  range reads.
* **The metadata refresh** (`internal/fs`, `internal/store`): the path-keyed table and the recursive refresh
  from the remote tree.

## How it is modelled

Each critical section of a lock is one atomic step. The stream manager is modelled twice, and the two are
tied together: `StreamState` gives each critical section as a function on a value `Mgr`; `TaskHeap` and
`Manager` are classes with mutable tasks in an in-place heap, whose methods are proved to do what those
functions do. `StreamSystem` lets worker goroutines, readers, hedges, the cache, prefetch scheduling and idle
reclaim interleave in any order; `StreamSafety`, `StreamSessions`, `StreamRuns` and `StreamTheorems` prove what
holds in every state of every run. A task is named by its sequence number, a cancelled context is a flag, the
remote file system is a function from file identifier and offset to byte, and a reader answers with true bytes
or an error.

`Scheduling` and `ScheduleRuns` treat the prefetch window, `PrefetchTasks` and `PrefetchExample` the tasks its
calls lead to, one offer at a time and in any interleaving, `StreamEpochs` the epochs, `ReadPath` one read from
its guards to the assembled buffer. `ChunkStore`, `ReadCache` and `RangeReads` are classes over lists in order
of use (`Lru`); `Flights`, `ConcurrentReads` and `IdleReclaim` are state machines over all interleavings.
`MetadataStore` and `Filesystem` are classes over the table; `MetadataRefresh` and `Paths` hold the facts about
trees and paths. `AccessLaws`, `EngineLaws` and `WindowLaws` say what each critical section of the stream manager
does in terms of the fields of handles, sessions, tasks and of byte positions alone.

## Where the obvious statement is false

* A read that has started can ask for its chunk after its handle was released and its session was deleted with
  it, because nothing checks that the session exists. The download is then not counted
  (`StreamTheorems.LateReadIsNotCounted` is such a run, for every file); a start is counted exactly when the
  session exists (`StreamRuns.TakingIsCounted`), and the accounting theorem has the premise that chunks are asked
  for on behalf of handles that are not released.
* A foreground read that joins a background download already under way does not protect it from the next
  epoch bump (`StreamEpochs.JoiningDoesNotProtect`). The task a foreground read waits for is cancelled by a bump
  if and only if the read joined it when it was already started, as a background task of an older epoch
  (`StreamEpochs.ForegroundProtects`).
* A chunk of the near part of the window can wait with a task that is less urgent than near. A call that finds the
  chunk in the store skips its promotion, and if the store drops it again, it is not offered again
  (`Scheduling.NearOfferedOnce`); and a less urgent offer that is made late, when the chunk's near task has ended,
  makes a new, less urgent task. `PrefetchExample.PromotionIsSkipped` is a history of the engine with both, for every
  file of one and a half chunks. Once no call is still to offer a chunk as near, its waiting task is less urgent if
  and only if one of the two left it behind and nobody has asked for the chunk as near since
  (`PrefetchTasks.NearWindowIsNear`); a single near offer leaves its chunk near if and only if the store did not hold
  it or it was near before (`PrefetchTasks.DealtWith`, and `PrefetchTasks.BatchExact` for a whole call).
* A full scan offers the chunk under the cursor twice, as near and as back, exactly when the cursor is inside it
  (`Scheduling.CursorChunkTwice`); no offer of a chunk with the same priority is ever repeated until the next full
  scan (`Scheduling.AlwaysCovered`).
* Reads in flight are found by file and offset only, so a concurrent read can join a flight that is shorter than
  its chunk and returns zeros for the rest. The result is exact for every file that could have given the same
  run if and only if every chunk was whole (`ConcurrentReads.ExactForAllIffWhole`), and for one given file if
  and only if the bytes left out are zero (`ConcurrentReads.ConcurrentExact`). Every chunk is whole if and only
  if every flight or fetch that filled one was as long as it (`ConcurrentReads.WholeIffFullFills`).
  `ConcurrentReads.ShortFlightIsWrong` is a run with wrong bytes: a read of four bytes in chunks of two joins,
  for its second chunk, the one-byte flight of a read of three bytes (`ConcurrentReads.SharedFlight`).
* A sequential read at a negative offset returns the bytes at the start of the file
  (`RangeReads.NegativeOffsetIsShifted`, `RangeReads.NegativeOffsetIsWrong`).
* A chunk's file name gives its key back if and only if the version needs no sanitizing, is not empty, and the
  index is not negative (`Naming.FileNameRoundTrip`).
* Refreshing a directory swallows a failure to read its own row and then forgets its parent: the directory moves
  below the root and loses its time. The listing of its parent stays correct if and only if the row was read, or the
  parent is the root and the directory has no time (`MetadataRefresh.UnreadRowMovesDirectory`).

## Model

| member | source | states |
|---|---|---|
| StreamTheorems.NoStuck | internal/stream/manager.go:1040-1149 | in every open state of every run, a live queued task implies a worker that is not waiting |
| StreamRuns.WaitMeansBusy | internal/stream/manager.go:1112-1130 | a task held back by its session's limit means another worker downloading for that very session |
| StreamTheorems.WaitsOnlyForItsSession | internal/stream/manager.go:1095-1131 | after a worker starts to wait in an open manager, every live queued task is held back by its session, for which another worker is downloading |
| StreamTheorems.TaskSafety | internal/stream/manager.go:1017-1226 | in every state of every run: `done` is closed once iff finished, a chunk has at most one live task, an unfinished task is queued and unstarted or in the hands of exactly one worker |
| StreamTheorems.PublishedForever | internal/stream/manager.go:1017-1038 | a published result and its single close never change in any later state |
| StreamTheorems.PromotionIsLegal | internal/stream/manager.go:1050-1056 | every unfinished unstarted task is in the heap, so re-ordering it in place is always legal, and sequence numbers are fresh |
| StreamTheorems.RunEvolves | internal/stream/manager.go:1040-1226 | along every run nothing is taken back: identity, urgency, cancellation, start, result |
| StreamTheorems.EveryState | internal/stream/manager.go:204-278 | every state of every interleaving satisfies the invariants of tasks, workers, sessions, wake-ups and truth |
| StreamTheorems.AnswersAreTrue | internal/stream/manager.go:894-922 | whatever the cache or a finished task offers for a key, in any state of any run, is the true bytes of that chunk |
| StreamTheorems.Accounting | internal/stream/manager.go:308-357 | refs count unreleased handles, inflight counts workers downloading, the active handle is unreleased, and a version has a session as long as it has a handle, a download or a listed task |
| StreamTheorems.LateReadIsNotCounted | internal/stream/manager.go:1112-1121 | for every file, a run in which a read starts, its handle is released and its session deleted, and the download it then asks for is not counted |
| StreamRuns.TakingIsCounted | internal/stream/manager.go:1117-1121 | starting a task keeps its session's count exact if and only if the session exists |
| StreamSessions.CleanupExact | internal/stream/manager.go:680-690 | a session is deleted only without refs, without in-flight work and without an unfinished task |
| StreamSafety.WorkerPartKept | internal/stream/manager.go:1080-1090 | every step keeps: each worker has a task of its own, and each started unfinished task has a worker |
| StreamRuns.TruthPartKept | internal/stream/manager.go:1164-1182 | every step keeps all published results and cached chunks true |
| StreamRuns.ExactPartKept | internal/stream/manager.go:1184-1226 | every disciplined step keeps the in-flight counts exact |
| TaskProtocol.ScanPass | internal/stream/manager.go:1092-1133 | a pass takes the (priority, sequence)-least task that may run, keeps every other live task queued, finishes the cancelled ones it passes, and keeps the invariant |
| TaskProtocol.SingleFlight | internal/stream/manager.go:1050-1071 | two live tasks of one chunk are the same task |
| EngineLaws.OneStreamPass | internal/stream/manager.go:1135-1149 | with at most one session open with a streaming handle, a pass takes nothing iff every queued live task is background and its session counts as many downloads as there are workers, and takes no other |
| EngineLaws.TwoStreamsPass | internal/stream/manager.go:1135-1149 | with two such sessions the same holds with the smaller number for a session |
| EngineLaws.OneStreamUsesAll | internal/stream/manager.go:1112-1149 | in every disciplined run: with at most one session streaming, no worker of an open manager starts to wait while a live task is queued |
| EngineLaws.TwoStreamsShare | internal/stream/manager.go:1112-1149 | in every disciplined run: with two sessions streaming, a worker waits only if every queued live task is background and has as many workers on its session as the smaller number, and takes a background task only of a session with fewer |
| EngineLaws.TakesTheFirst | internal/stream/manager.go:177-183 | nothing in the queue that might run is more urgent than the task taken, or as urgent and older |
| TaskProtocol.EnsureGives | internal/stream/manager.go:1040-1072 | the caller gets the one live task of the chunk, at least as urgent as asked while queued; one is created iff there was none |
| TaskProtocol.CancelOlderExact | internal/stream/manager.go:783-789 | an epoch bump cancels exactly the version's unfinished older-epoch tasks that are not queued as foreground |
| TaskProtocol.HandInKeeps | internal/stream/manager.go:1184-1226 | handing in a result, also for a task a hedge has finished, keeps the task protocol |
| TaskProtocol.PublishHedgeKeeps | internal/stream/manager.go:1017-1038 | a hedge that publishes keeps the task protocol |
| EngineLaws.RequestLaw | internal/stream/manager.go:1040-1072 | a request joins the live task and can only make it more urgent while it is not started; otherwise the new task has exactly the chunk, the epoch and the urgency asked for, and the part of the chunk that lies in the file |
| EngineLaws.HandInIsForever | internal/stream/manager.go:1184-1226 | in every run: what a worker hands in for an unfinished task is its result in every later state |
| EngineLaws.PublishIsForever | internal/stream/manager.go:1017-1038 | in every run: so are the bytes of a hedge that is first, and the original is cancelled |
| EngineLaws.ReleaseEndsStream | internal/stream/manager.go:342-357 | in every run: releasing the followed handle ends the stream, starts a new epoch and cancels the background work |
| EngineLaws.ClosedForEver | internal/stream/manager.go:280-306 | in every run: after closing every task is cancelled and there never is a new one |
| StreamEpochs.ContiguousObserve | internal/stream/manager.go:603-678 | a read that continues the last one is never a seek, whatever its size |
| AccessLaws.OrdinaryRead | internal/stream/manager.go:640-678 | of a read that is no probe: a seek iff the handle streams and the read is elsewhere, before the end of the last one or further behind it than both thresholds; a start iff it is the second forward read of a handle that does not stream; and which mode, position and count that leaves |
| AccessLaws.EdgeProbe | internal/stream/manager.go:645-650 | a small jump to an edge of the file leaves no trace in the handle |
| AccessLaws.AfterTailProbes | internal/stream/manager.go:624-635 | the first read elsewhere after looks at the tail counts as the first of a new handle |
| AccessLaws.HandlesShaped | internal/stream/manager.go:603-678 | in every state of every run a handle that does not stream has made at most one forward read, and none before its first position |
| AccessLaws.ReadStart | internal/stream/manager.go:546-590 | the start of a read raises the epoch iff it is outside the window and a seek of the followed handle or of any if none is followed, or a start of another; and it says who is followed then, which event is told and how far the cursor is |
| AccessLaws.OthersStreamOn | internal/stream/manager.go:557-561 | in every run: a read of a handle that does not stream then changes no task, epoch or following of a session that follows another handle |
| AccessLaws.SeekBumps | internal/stream/manager.go:556-566 | in every run: a far jump of the followed handle out of the window starts a new epoch, cancels all live background tasks of the session and ends the stream |
| StreamEpochs.ContiguousKeepsEpoch | internal/stream/manager.go:532-593 | with one open handle, contiguous reads of any sizes keep the epoch, whatever else runs in between |
| StreamEpochs.ContiguousCancelsNothing | internal/stream/manager.go:532-593 | in such a stretch no read changes any task |
| StreamEpochs.EpochMonotone | internal/stream/manager.go:327-357 | over any stretch of a run through which a session lives its epoch never decreases, and n steps raise it by at most n |
| StreamEpochs.ReadCancelsExactly | internal/stream/manager.go:546-582 | the start of a read cancels a task iff it bumps the epoch and the task is live, of the version, older and not foreground |
| StreamEpochs.ReleaseCancelsExactly | internal/stream/manager.go:342-357 | releasing a handle cancels a task iff the handle was active and the task is live, of the version, not newer and not foreground |
| StreamEpochs.JoiningDoesNotProtect | internal/stream/manager.go:1050-1056 | joining a started background task leaves it as it is, and an epoch bump cancels it |
| StreamEpochs.ForegroundProtects | internal/stream/manager.go:1050-1071 | the task a foreground read gets is cancelled by a bump iff it was joined already started, as a background task of an older epoch |
| TaskHeap.Heap.Push | internal/stream/manager.go:189-193 | adds one task, keeps heap order and every task's own index |
| TaskHeap.Heap.Pop | internal/stream/manager.go:194-202 | takes out a least task, keeps the others, heap order and indices |
| TaskHeap.Heap.Swap | internal/stream/manager.go:184-188 | exchanges two tasks and their indices |
| TaskHeap.Heap.Fix | internal/stream/manager.go:1050-1056 | restores heap order after one priority changed, with the same tasks |
| TaskHeap.Heap.Promote | internal/stream/manager.go:1051-1054 | makes a queued task more urgent in place |
| TaskHeap.Heap.RootIsLeast | internal/stream/manager.go:177-183 | in heap order no task is less than the root |
| Manager.NewManager | internal/stream/manager.go:204-278 | refuses a missing reader, negative cache limits and a store that cannot be opened; otherwise a new manager is the initial state under its normalized configuration |
| StreamState.NormalizeTwice | internal/stream/manager.go:204-246 | a configuration of unusable values becomes the default one; normalizing twice is normalizing once |
| Manager.Manager.NextTask | internal/stream/manager.go:1092-1133 | one pass over the in-place heap does exactly what the specified pass does |
| Manager.Manager.EnsureTask | internal/stream/manager.go:1040-1072 | joins, promotes, creates or refuses exactly as specified |
| Manager.Manager.DiscardCanceledTask | internal/stream/manager.go:1151-1162 | finishes a cancelled task with an error and cleans up its session |
| Manager.Manager.FinishTask | internal/stream/manager.go:1184-1226 | hands in a download exactly as specified |
| Manager.Manager.PublishHedged | internal/stream/manager.go:1017-1038 | publishes a hedge's bytes if it is first, and says so |
| Manager.Manager.HedgeTask | internal/stream/manager.go:977-983 | a hedge starts at most once, for a live unfinished task of an open manager |
| Manager.Manager.MarkTask | internal/stream/manager.go:924-933 | marks an unfinished task as foreground |
| Manager.Manager.OpenHandle | internal/stream/manager.go:308-325 | takes a reference and a fresh handle number, or refuses |
| Manager.Manager.ReleaseHandle | internal/stream/manager.go:342-357 | drops the reference, bumps the epoch if the streaming handle goes, cancels and cleans up as specified |
| Manager.Manager.ReleaseOnce | internal/stream/manager.go:327-357 | a handle is released once; again does nothing |
| Manager.Manager.PrepareRead | internal/stream/manager.go:532-593 | refuses a released handle untouched and a closed manager after observing; otherwise observes, moves the session and tells the reader its plan as specified |
| Manager.Handle.ObserveRead | internal/stream/manager.go:603-678 | updates the access pattern in place exactly as the specified classification |
| Manager.Manager.CancelSessionTasks | internal/stream/manager.go:783-789 | the loop over listed tasks cancels exactly the specified ones |
| Manager.Manager.SessionWorkerLimit | internal/stream/manager.go:1135-1149 | the smaller limit applies iff two sessions with refs and an active handle exist |
| Manager.Manager.HasUnfinished | internal/stream/manager.go:684-688 | finds an unfinished listed task of the version iff there is one |
| Manager.Manager.CleanupSession | internal/stream/manager.go:680-690 | deletes the session exactly when specified |
| Manager.Manager.ScheduleBuffer | internal/stream/manager.go:791-884 | moves the window and makes the specified offers and prune |
| Manager.MoveWindow | internal/stream/manager.go:791-884 | the window arithmetic and the five offering loops yield exactly the specified window, prune and offers |
| Manager.ScheduleProbe | internal/stream/manager.go:448-462 | a probe offers exactly the chunks that hold one of the next bytes, as near |
| Manager.Manager.ReclaimWindows | internal/stream/manager.go:737-754 | says whether nothing is listed and nothing downloads, and if so makes every session forget its window |
| Manager.Manager.Shutdown | internal/stream/manager.go:280-306 | closing cancels every task, once |
| Scheduling.WindowOrder | internal/stream/manager.go:795-812 | floor, cursor chunk, near and end are in order and the back part leaves no gap before the cursor |
| WindowLaws.AheadChunks | internal/stream/manager.go:795-803 | the window ahead is exactly the chunks with a byte of the file within the target after the cursor |
| WindowLaws.NearChunks | internal/stream/manager.go:804-807 | its near part is exactly the chunks that begin at most 64 MiB after the cursor |
| WindowLaws.BackChunks | internal/stream/manager.go:808-812 | what is kept behind is exactly the chunks with a byte within the back buffer before the cursor |
| WindowLaws.FullScanBytes | internal/stream/manager.go:849-883 | what a full scan offers, said of bytes |
| WindowLaws.ExtensionBytes | internal/stream/manager.go:857-874 | what an extending call offers, said of bytes |
| WindowLaws.CallLaw | internal/stream/manager.go:795-841 | whether a call does nothing, sets a new window or extends the one there is, and what it offers then |
| WindowLaws.DropLaw | internal/stream/manager.go:843-848 | a call drops from memory exactly what is outside a new window, or what the floor of an extended one has passed |
| Scheduling.FullScanHas | internal/stream/manager.go:849-883 | exactly which chunks a full scan offers, with which priority, none twice |
| Scheduling.CursorChunkTwice | internal/stream/manager.go:849-883 | the cursor's chunk is offered both as near and as back iff the cursor is inside it |
| Scheduling.ExtensionHas | internal/stream/manager.go:857-874 | exactly which chunks an extending call promotes and newly offers, none twice |
| Scheduling.CoveredKept | internal/stream/manager.go:821-841 | every call, bump, deletion and idle reclaim keeps the window covered, and until the next reset no edge moves back |
| Scheduling.AlwaysCovered | internal/stream/manager.go:791-884 | since the last reset exactly the chunks from the reset floor to the end were offered, and no offer was repeated |
| Scheduling.IncrementalRefinesFullScan | internal/stream/manager.go:849-875 | whatever the order of cursors, everything a full scan at the furthest one since the last full scan would offer was offered, near ones as near |
| Scheduling.NearOfferedOnce | internal/stream/manager.go:857-874 | an extending call offers no chunk that was offered as near before |
| Scheduling.OffersAttended | internal/stream/manager.go:886-892 | after a batch of offers every uncached chunk in it has a live task, started or as urgent as offered |
| Scheduling.CallAttends | internal/stream/manager.go:791-892 | after a call every offered chunk is cached or has a live task as urgent as offered |
| PrefetchTasks.NearWindowIsNear | internal/stream/manager.go:791-892 | in every interleaving of calls, their offers, reads, probes, workers, hedges and the store: a waiting task of a chunk from the furthest cursor to the near edge, which no call is still to offer as near, is less urgent than near iff an offer left it behind and nobody asked for the chunk as near since |
| PrefetchTasks.DealtWith | internal/stream/manager.go:886-892 | a near offer leaves its chunk near iff it is made, or skipped while the chunk is near |
| PrefetchTasks.LessUrgentDealtWith | internal/stream/manager.go:1050-1071 | a less urgent offer leaves its chunk near iff it was near and no new task is made |
| PrefetchTasks.BatchExact | internal/stream/manager.go:843-892 | when a call makes all its offers at once, a chunk offered as near is near afterwards iff the store did not hold it or it was near before |
| PrefetchTasks.ActKeeps | internal/stream/manager.go:791-892 | every act of that interleaving keeps: a chunk offered as near is near, left behind, or still to be offered; and the window is what its calls say |
| PrefetchTasks.HistoryIsRun | internal/stream/manager.go:886-892 | such an interleaving is a run of the engine, so that every theorem about runs holds in it |
| PrefetchExample.PromotionIsSkipped | internal/stream/manager.go:886-892 | for every file of one and a half chunks, a history from the start of the engine after which both chunks of the near part wait as less urgent: one was skipped, one got a late offer |
| ScheduleRuns.RunHistory | internal/stream/manager.go:815-842 | in every run of the engine a file's session goes through a history of scheduling moves |
| ScheduleRuns.WindowsInOrder | internal/stream/manager.go:815-842 | in every state of every run a window that is set has 0 <= floor <= near <= end |
| ReadPath.ReadAt | internal/stream/manager.go:366-438 | the guards, the waiting loop and the copying loop do what the read specification says |
| ReadPath.WaitChunks | internal/stream/manager.go:399-409 | collects the chunks in order and stops at the first failure |
| ReadPath.Copy | internal/stream/manager.go:410-432 | the in-place assembly yields the specified bytes or an unexpected end |
| ReadPath.ReadExact | internal/stream/manager.go:366-438 | with true answers a read fails with the first error or returns exactly the bytes up to the end of the file, for any chunk size and alignment |
| ReadPath.ReadFailsAs | internal/stream/manager.go:399-409 | a read fails with the failure of the first of its chunks that fails |
| ReadPath.RunReadExact | internal/stream/manager.go:366-438 | reads whose chunks were served in any states of any run succeed only with exact bytes: cache, sharing, hedging, prefetch and cancelling never change them |
| ReadPath.Download | internal/stream/manager.go:1164-1182 | two attempts at most, success only with the full length, cancellation respected; with an honest reader success means the true bytes of the task |
| ReadPath.DownloadHandsIn | internal/stream/manager.go:1080-1090 | in every state of every run, what an honest download returns can be handed in and leaves the engine in order |
| IdleReclaim.Reclaimer.ReclaimIdle | internal/stream/manager.go:724-765 | the callback re-arms, does nothing or reclaims exactly as specified |
| IdleReclaim.Reclaimer.Mark | internal/stream/manager.go:700-708 | notes an activity and arms a timer if there is none |
| IdleReclaim.Reclaimer.CancelIdle | internal/stream/manager.go:692-698 | closing starts a new epoch and stops the timer |
| IdleReclaim.OneTimer | internal/stream/manager.go:710-730 | while open only the held timer, of the current epoch, can act; once closed no timer carries the current epoch |
| IdleReclaim.ClosedForGood | internal/stream/manager.go:724-729 | once closed, nothing but the running out of old timers ever happens again |
| IdleReclaim.NoReclaimAfterClose | internal/stream/manager.go:724-729 | after closing memory is never given back |
| IdleReclaim.ReclaimIsSafe | internal/stream/manager.go:731-755 | memory is given back only if every activity is at least the idle time ago, nothing is listed and nothing downloads |
| IdleReclaim.ReclaimWillBeTried | internal/stream/manager.go:700-741 | after an activity a timer stays pending until memory is given back or the manager is closed |
| IdleReclaim.ReclaimHappens | internal/stream/manager.go:724-765 | in every run: a callback at least the idle time after the last activity, in an open quiet manager, gives memory back |
| IdleReclaim.CallbackLaw | internal/stream/manager.go:724-741 | memory is given back iff the manager is open, the timer current, the idle time over and the manager quiet; otherwise a current timer is due when the idle time is over, or in a second |
| Naming.ChunkVersionInjective | internal/stream/store.go:80-86 | for decimal file identifiers the chunk version determines file and chunk size |
| Naming.FileNameRoundTrip | internal/stream/store.go:332-346 | a chunk's file name gives its key back iff the version is nonempty and unchanged by sanitizing and the index is not negative |
| Naming.ChunkFilesDistinct | internal/stream/store.go:274-282 | distinct chunks of decimal files have distinct file names |
| Naming.PlainVersion | internal/stream/store.go:279-282 | the version of a decimal file needs no sanitizing |
| Naming.SanitizeSafe | internal/stream/store.go:279-282 | no sanitized version contains a separator, a colon or two dots in a row |
| Naming.NameExample | internal/stream/store.go:274-282 | a version and a file name written out |
| Lru.EvictShortest | internal/stream/store.go:223-229 | eviction removes the shortest least-recent prefix that makes the rest fit |
| Lru.PushedStays | internal/stream/store.go:206-230 | what was just put and fits on its own survives the eviction |
| ChunkStore.Store.PutMemory | internal/stream/store.go:206-230 | the memory list becomes the specified one, stays within the limit, and a put within the limit is readable at once |
| ChunkStore.MemoryPutLaw | internal/stream/store.go:206-230 | a chunk is put exactly if it fits on its own; it is then last, and as few of the least recent others as possible go |
| ChunkStore.Store.GetWithTouch | internal/stream/store.go:96-127 | the exact effect at both levels of a hit, a miss, a read and a failed read; only a touching hit moves a memory entry; whatever is returned is true |
| ChunkStore.Store.ReadIndexed | internal/stream/store.go:110-126 | reads an indexed file or forgets it |
| ChunkStore.Store.Length | internal/stream/store.go:129-149 | the length at either level; a disk hit moves that entry and nothing else changes |
| ChunkStore.Store.PutDisk | internal/stream/store.go:172-197 | when it succeeds, and then the disk level holds the chunk and exactly the most recent others that fit; if a file cannot be removed, only older ones are gone; truth is kept |
| ChunkStore.Store.TrimDisk | internal/stream/store.go:380-390 | removes exactly the least recent files until the rest fits, or stops at one that cannot be removed |
| ChunkStore.Store.AddDisk | internal/stream/store.go:348-362 | index, entries and order keep the same keys and the exact byte sum |
| ChunkStore.Store.RemoveDisk | internal/stream/store.go:370-378 | forgets a key at all three places and in the byte sum |
| ChunkStore.Store.ForgetDisk | internal/stream/store.go:199-204 | forgets a key even if its file cannot be removed |
| ChunkStore.Store.LoadDiskIndex | internal/stream/store.go:299-330 | the index is that of the directory in the given order, trimmed from the front to the limit; with canonical names every indexed length is true |
| ChunkStore.LoadedHas | internal/stream/store.go:322-328 | every parsable file is indexed under its key with its length unless a later one has its key, in the order of the names |
| ChunkStore.Store.ClearMemory | internal/stream/store.go:232-240 | empties the memory level and reports its bytes |
| ChunkStore.Store.RemoveMemoryRange | internal/stream/store.go:242-251 | drops exactly the range, the others stay in order |
| ChunkStore.Store.PruneMemoryWindow | internal/stream/store.go:253-261 | drops exactly what is outside the window, the others stay in order |
| ChunkStore.WrittenNamesAreCanonical | internal/stream/store.go:274-282 | the files this store wrote have canonical names |
| ChunkStore.ReadyLaw | internal/stream/manager.go:1281-1306 | a position is ready iff its chunk is stored, in memory or else on disk, and reaches beyond it |
| ChunkStore.BufferAhead | internal/stream/manager.go:1281-1306 | if no stored chunk is too long, the result is exactly the longest contiguous cached run from the cursor; the unbounded loop ends |
| ChunkStore.ReadyWithinFile | internal/stream/manager.go:1281-1306 | with exact chunk lengths cursor plus result stays within the file |
| StoreTruth.CachedLengthsExact | internal/stream/store.go:129-149 | a store with true bytes has exact lengths for every file |
| StoreTruth.TrueIsBounded | internal/stream/store.go:129-149 | a store with true bytes holds no chunk that is too long |
| StoreTruth.BufferAheadOf | internal/stream/manager.go:1281-1306 | with a store of true bytes: the result is exactly the contiguous run from the cursor, and cursor plus result is within the file |
| ReadCache.Cache.ReadCached | internal/remote/remote.go:321-344 | whatever the order of the bucket: a hit comes from a covering window and only reorders, a miss means no window covers |
| ReadCache.Cache.StoreCached | internal/remote/remote.go:370-398 | the order becomes the specified one, within the limit, and the window is there |
| ReadCache.Cache.RemoveCachedKey | internal/remote/remote.go:355-368 | removes the window, its bytes, and its bucket if that is empty |
| ReadCache.Cache.ClearReadCache | internal/remote/remote.go:405-421 | empties the cache and reports its bytes |
| ReadCache.ShapedRemove | internal/remote/remote.go:355-383 | removing a key at its place keeps map, order, buckets and byte sum in agreement |
| ReadCache.HitIsTrue | internal/remote/remote.go:340-341 | any covering window yields the bytes asked for |
| ReadCache.StoreTrue | internal/remote/remote.go:384-397 | storing true bytes keeps every window true |
| ReadCache.WindowStoreLaw | internal/remote/remote.go:370-398 | a window is stored exactly if it is not empty and fits on its own; it is then last, and as few of the least recent others as possible go |
| Flights.FinishedOnceByOwner | internal/remote/remote.go:524-546 | in every state of every run a flight is closed once iff finished, has exactly one owner until then, and delivers true bytes |
| Flights.JoinsCurrent | internal/remote/remote.go:524-534 | a window has one current flight; a caller joins it iff there is one and owns a new one otherwise |
| Flights.FinishLaw | internal/remote/remote.go:536-546 | a finished flight has its outcome, and its window is free unless it has another flight by then |
| RangeReads.AlignedContains | internal/remote/remote.go:484-489 | the aligned window of a nonnegative offset contains it |
| RangeReads.FetchWindow | internal/remote/remote.go:434-452 | the window fetched is as long as the longest of 8 MiB, the chunk and the range, aligned to its length, and contains the offset |
| RangeReads.ParallelLaw | internal/remote/remote.go:548-560 | a range is read by several workers iff it is longer than a chunk |
| RangeReads.SliceIsPrefix | internal/remote/remote.go:491-504 | the slice of a window is a true prefix, complete iff the window reaches far enough |
| RangeReads.NegativeOffsetIsShifted | internal/remote/remote.go:484-504 | at a negative offset the slice is from the start of the file |
| RangeReads.NegativeOffsetIsWrong | internal/remote/remote.go:484-504 | a file for which such a read is wrong |
| RangeReads.FetchTwice | internal/remote/remote.go:643-662 | the first accepted of two attempts, unless cancelled |
| RangeReads.Reader.ReadSequential | internal/remote/remote.go:434-482 | succeeds iff a window holds the range, or the flight joined brought bytes, or without a flight one of two attempts is answered; what it returns is a true prefix and as long as its window allows; its own flight is closed once and removed |
| RangeReads.Reader.ReadChunk | internal/remote/remote.go:622-665 | succeeds iff a window holds the chunk, or the flight joined brought bytes, or without a flight one of two attempts brought all of it; returns a true prefix, short only if it joined a shorter flight |
| RangeReads.Reader.ReadExactRange | internal/remote/remote.go:238-276 | all the bytes iff a window holds them or one of two attempts brought them all; otherwise an error |
| RangeReads.Reader.ReadWithOptions | internal/remote/remote.go:423-432 | sequential or concurrent by the source's conditions; when it succeeds and how much it brings, a true prefix either way |
| RangeReads.Reader.ReadRange | internal/remote/remote.go:167-201 | succeeds iff there is a link and a window holds the range, or its first part comes and what that leaves out is nothing, is held by then, or is read completely; for offsets from zero success means exactly the bytes asked for |
| RangeReads.PlainReadSucceeds | internal/remote/remote.go:434-482 | a sequential read of a store that answers with all of its window succeeds |
| ConcurrentReads.ChunksPartition | internal/remote/remote.go:579-585 | the chunks partition the request |
| ConcurrentReads.StepKeeps | internal/remote/remote.go:569-611 | every step of dealer and workers keeps: each dealt chunk is held, filled or failed, and the buffer holds exactly what was filled |
| ConcurrentReads.ConcurrentReply | internal/remote/remote.go:548-620 | for every order of workers, no error means every chunk was filled, and what each byte of the buffer is |
| ConcurrentReads.FetchChunk | internal/remote/remote.go:579-596 | what the reader returns for a worker's chunk always is a step of the worker, short only after joining a shorter flight; it fills the chunk iff a window held it, or the flight joined brought bytes, or an attempt brought all of it |
| ConcurrentReads.EndedSucceeds | internal/remote/remote.go:597-620 | a concurrent read returns data iff no worker failed and nobody gave up |
| ConcurrentReads.ConcurrentExact | internal/remote/remote.go:596-619 | for a given file the buffer is exact iff every byte a short chunk left out is zero |
| ConcurrentReads.ExactForAllIffWhole | internal/remote/remote.go:586-619 | the buffer is exact for every file that could have given this run iff every chunk was whole |
| ConcurrentReads.ShortIsWrong | internal/remote/remote.go:596 | if a chunk was not whole, a file with the same run for which the result is wrong |
| ConcurrentReads.WholeIsExact | internal/remote/remote.go:548-620 | whole chunks give the exact bytes of every file |
| ConcurrentReads.WholeIffFullFills | internal/remote/remote.go:579-611 | a read that returned data has whole chunks iff every filling of a chunk in its run was as long as the chunk |
| ConcurrentReads.SharedFlight | internal/remote/remote.go:524-546 | a shorter read owns the flight that a longer read waits for |
| ConcurrentReads.ShortFlightIsWrong | internal/remote/remote.go:626-637 | a run of two workers, one of which got that flight, that ends with a wrong byte |
| ConcurrentReads.ReadRangeEitherWay | internal/remote/remote.go:167-201 | when a read in either mode succeeds; sequential or concurrent with whole chunks, success means exactly the bytes asked for |
| MetadataStore.Store.ReplaceChildren | internal/store/store.go:258-283 | replaces the rows of a parent in one transaction or changes nothing |
| MetadataStore.Store.UpsertEntry | internal/store/store.go:100-124 | the row leaves the listing it was in and enters its parent's; no other listing changes |
| MetadataStore.Store.ListChildren | internal/store/store.go:126-168 | each row below the path exactly once, in the order of the names |
| MetadataStore.Store.GetByPath | internal/store/store.go:170-194 | finds a row iff some listing has one for the path, and then that one |
| MetadataRefresh.ExpiryShowsTheSame | internal/store/store.go:285-294 | making a row stale changes no listing, and a table that shows the tree still does |
| Filesystem.Filesystem.ExpireAtStart | internal/app/app.go:149-154 | both roots are stale afterwards, no listing changes, and a table that shows the tree still does |
| MetadataStore.UpsertThere | internal/store/store.go:276-280 | entries with different paths are all stored |
| Paths.JoinChild | internal/fs/filesystem.go:281 | joining a cleaned root with the path of a name below it gives the child's path |
| Paths.UpFromChild | internal/fs/filesystem.go:281 | going up from a name leads back to its directory, from the top nowhere |
| Paths.ChildBase | internal/fs/filesystem.go:628 | the last element of a child's path is its name |
| Paths.UnderOneChild | internal/fs/filesystem.go:337-357 | the subtrees of two children are disjoint |
| MetadataRefresh.LocalPathIsPath | internal/fs/filesystem.go:270-281 | trimming and joining the root keeps the path of every entry of the root |
| MetadataRefresh.RootRefreshed | internal/fs/filesystem.go:260-305 | from any table a root refresh lists the root correctly and spoils no other correct listing |
| MetadataRefresh.RootHalf | internal/fs/filesystem.go:291-304 | even if the row of the root cannot be written, no listing is spoiled |
| MetadataRefresh.DirRefreshed | internal/fs/filesystem.go:592-634 | refreshing a directory whose parent is listed lists it correctly and spoils no other correct listing |
| MetadataRefresh.DirWrites | internal/fs/filesystem.go:592-642 | a refresh writes for each entry its own identifier, name, size, kind, time and checksum, fresh for a file and stale for a directory; the directory's own row is fresh and keeps time and parent if it was read |
| MetadataRefresh.RootWrites | internal/fs/filesystem.go:270-305 | the same for the root, whose own row has no name and no parent |
| MetadataRefresh.DirHalf | internal/fs/filesystem.go:616-633 | even if the row of the directory cannot be written, no listing is spoiled |
| MetadataRefresh.UnreadRowMovesDirectory | internal/fs/filesystem.go:619-633 | the parent's listing stays correct iff the directory's own row was read, or the parent is the root and the directory has no time |
| MetadataRefresh.ReplacedAt | internal/store/store.go:258-283 | what replacing a directory's children leaves at each path |
| MetadataRefresh.DoneShowsTree | internal/fs/filesystem.go:307-359 | a table refreshed from the root down lists every reachable directory as the remote tree does, on identifier, path, name, kind and time, and of files on size and checksum |
| MetadataRefresh.SmoothBelow | internal/fs/filesystem.go:333-359 | nothing stands in the way of a tree iff nothing does of its root directory and of the trees below it |
| Filesystem.Filesystem.RefreshRoot | internal/fs/filesystem.go:260-305 | the table after the refresh and its success, also when listing, replacing or writing fails; on success every entry's row has its own fields |
| Filesystem.Filesystem.RefreshDir | internal/fs/filesystem.go:592-634 | the table after the refresh and its success, also when listing, replacing, reading or writing fails; on success every entry's row has its own fields |
| Filesystem.Filesystem.RefreshKnownDirectories | internal/fs/filesystem.go:333-359 | the descent ends for every remote tree; on a well-formed one it succeeds iff nothing stands in the way below, then every directory below is listed correctly, and it spoils no correct listing |
| Filesystem.Filesystem.RefreshAll | internal/fs/filesystem.go:307-320 | from any stale table: it succeeds iff nothing stands in the way of any directory of the tree, then the table shows the whole tree; a failed refresh spoils no correct listing; while another runs it changes nothing |

## Left out

- ChunkStore.Store.GetWithTouch: its critical sections run one after the other, and so do those of the methods of `RangeReads.Reader`; each keeps the invariants from every state, so others may run in between, but the exact effects are promised only if nobody does.
- RangeReads.Reader.ReadChunk: what another reader's flight delivers is a parameter, as in a sequential read.
- RangeReads.Reader.ReadWithOptions: the outcome of a concurrent read is a parameter; `ConcurrentReads.ReadRangeEitherWay` takes it from the end of a run.
- RangeReads.Reader.ReadRange: the outcome of a concurrent read is a parameter; `ConcurrentReads.ReadRangeEitherWay` takes it from the end of a run.
- RangeReads.Reader.ReadSequential: what another reader's flight delivers is a parameter, and the second look for a flight (the loser of a race between looking and beginning) is one branch with the first; `Flights` covers the interleavings.
- ConcurrentReads.ConcurrentReply: the chunk a worker reads is any true prefix, as `ConcurrentReads.FetchChunk` delivers; the bytes come in one step.
- PrefetchTasks.HistoryIsRun: a call asks for a chunk after one look that did not find it in the store; the second look of the source can only skip it as well. Everybody but a scheduling call asks for chunks as near or more urgent, as reads and probes do.
- Manager.Manager.ScheduleBuffer: the offers are returned in order; the calls that make them tasks are separate steps of a run.
- Manager.Manager.EnsureTask: the look into the chunk store before the lock is not part of it (`PrefetchTasks` has it as an act of its own), and a closed task for cached bytes is not built.
- Manager.Manager.PrepareRead: the mark of an activity is a step of `IdleReclaim`, and the line in the log is only decided on.
- Manager.NewManager: whether the chunk store can be opened is a parameter, and the worker goroutines are started by the runs of `StreamSystem`.
- ConcurrentReads.ReadRangeEitherWay: the run of the concurrent read is a ghost argument, and what its workers leave in the cache is not said; `ConcurrentReads.FetchChunk` keeps the cache true chunk by chunk.
- Manager.Manager.NextTask: waiting on the condition variable is the step of a run that follows a pass without a result.
- Manager.Manager.OpenHandle: the activity mark of an open, and of the start of a read, is a step of `IdleReclaim`.
- IdleReclaim.Reclaimer.ReclaimIdle: whether the manager is quiet is what `Manager.Manager.ReclaimWindows` says.
- Manager.Manager.Shutdown: tasks still queued when the manager is closed are not published, so waiters on them are not released by it; the model keeps this and claims nothing about them. Waiting for the worker goroutines to return is not modelled.
- Session records, windows and queued entries of the two caches are values in maps and lists; aliasing of `*session` and list elements is not modelled.
- `container/heap` is modelled together with the queue it orders.
- Hedge delays, the latency ring, slow streaks, link invalidation, retry and download counters, diagnostics, summaries and memory release to the operating system: they do not change any result above.
- Timers of waiters and of hedges: when a hedge starts is any moment of a run. Whether a read is near an edge of a file, so that a probe is scheduled, is not modelled.
- ReadPath.ReadAt: whether the start of the read refuses it is a parameter; the calls that schedule prefetch before and after the read are separate steps of a run.
- File identifiers are nonempty decimal strings where names or versions must be told apart; offsets and sizes are unbounded integers.
- Size and checksum of a directory's own row: a refresh of the directory resets them, and `MetadataRefresh.DoneShowsTree` does not mention them.
- Filesystem.Filesystem.RefreshAll: what the remote store and the database refuse stays the same during one refresh. That a failed refresh spoils no listing has the premise that rows can be read; `MetadataRefresh.UnreadRowMovesDirectory` says what happens otherwise.
- `DeletePath`, whose pattern match is not an exact subtree; the negative lookup cache; the expiry that decides when a listing is refreshed.
- A missing client (reads give zeros, listings are empty), download links beyond whether one could be had, and the refresh of credentials between attempts.
- Partial files of interrupted writes: a file appears whole under its name or not at all.
- FUSE nodes and attributes, mounting, configuration, HTTP, OAuth and the command line.
