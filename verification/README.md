# SimpleKernel, verified models

This project models the parts of SimpleKernel whose correctness is hardest to see and proves what
they promise. Each part is a Dafny module; `dafny verify dfyconfig.toml` checks all of them.

- **Lock-free ring** (`MpmcRing`, `MpmcQueue`): the ticket and sequence-number queue. Every atomic load,
  compare-and-swap and store is one transition of a state machine over any number of calls;
  `MpmcQueue` is the same code run one call at a time.
- **Blocking protocols** (`MutexProtocol`, `WaitProtocol`): the task mutex with its re-check under the
  run-queue lock and its cross-core wakeup scan, and Wait/Exit/Wakeup with the table scan taken entry
  by entry. Tasks, cores and interleavings are arbitrary.
- **Scheduler core** (`TaskPlacement`, `CoreQueues`, `CoreSteps`, `CoreLaws`, `TaskManager`, `CfsRuns`,
  `CfsScheduler`, `Balance`): task states and the containers of a core, Schedule, ticks, sleeping, blocking,
  waking and reaping, and what every run of them keeps; the fairness of the CFS policy; work stealing between
  cores.
- **Virtio** (`Descriptors`, `RingFlow`, `SplitVirtqueue`, `RequestSlots`, `Notification`, `VirtioBlk`,
  `BlockDesk`, `DeskMirror`, `BlockSystem`): the split virtqueue of section 2.7 of VIRTIO 1.2 with 16-bit ring
  indices, the block driver on top of it, and whole runs of both with a device that returns each submitted
  head once, in any order. Such runs are proved to be those of `BlockDesk`, which has no rings, slots or
  descriptors.
- **Page tables** (`PageTree`, `VirtualMemory`): map, unmap, lookup, clone and destroy over any number of
  levels, as updates of a map from virtual page to entry. Entry encoding and index extraction are
  parameters with stated laws; page frames come from a finite pool.
- **Files** (`Paths`, `PlainFs`, `PathLimits`, `TreeEffects`, `DirEntries`, `DentryCache`, `Vfs`, `RamFsData`,
  `RamFs`): the dentry cache against a plain walk of the directories, what creating and removing do to paths,
  where path handling departs from the plain reading of a path, and the byte pool against a map from files to
  byte sequences.

Helper modules: `Arith` (remainders), `Distinctness` (sequences without repetition), `Options`, `KernelConfig`.

Sequential code that changes state is a class whose methods are proved against functions of the
old state. Concurrent protocols are state machines on values: a run is a sequence of labels, and the
theorems hold for every sequence. Large invariants are stated through a bound variable
(`forall q | q == vq :: q.Valid()`) so that a proof looks inside only where it names them.

Where code and documentation differ the model follows the code:

- The ring's `static_assert` admits capacity 1; with one cell a full cell looks free. `SafeIffTwoCells` says
  exactly which capacities are safe.
- `Pid` is unsigned, so the branch of `Wait` for negative arguments is never taken and is not modelled.
- `VringNeedEvent` compares the event with the window old..new-1; from 65536 submissions on part of the window
  is not seen (`KickIsRightIff`).
- `SubmitChain` compares only the low 16 bits of the number of buffers with the free descriptors
  (`GuardIsRightIff`).
- Names longer than 255 bytes are cut into several components by the lookup loop (`ComponentsAreSplit`); a path
  that starts with two slashes resolves to the root (`ResolveIsPlainWalkIff`).
- Unlink and RmDir cut an overlong name to 255 bytes and an overlong parent to 511 and act on what is left:
  a file is removed under a name it does not have (`LongNameRemovesFile`). `RemovesGivenIff` says when they do
  what they were asked to.
- The per-tick charge of CFS is 1024000 divided by the weight, rounded down, so service is in proportion to the
  weights only when charge times weight agrees (`ProportionalIff`).
- A ready queue at capacity drops the task (`PlacedIffRoom`). The placement theorem therefore bounds, for each of
  the two policies, the number of living tasks on the core by the capacity of its ready queue, 128: tasks that
  are neither zombies nor exited. How many tasks a run creates and reaps is not bounded.
- `Wait` may erase a child whose `Exit` is still waking the parent (`ReapedWhileExiting`), on every number of cores
  but none (`ReturnedAreGoneIff`); in a given run exactly if its wakeup has not been to every core
  (`ReturnedIsGoneIff`).
- `MapPage` with flags that lack the valid bit succeeds and leaves the page unmapped (`MapPage`).
- The minimum at which CFS lets a new task start is the least queued runtime only as long as no task with a smaller one
  has been queued since the last pick (`Enqueue`).
- `InitCurrentCore` installs round robin for normal tasks; the CFS policy is modelled as its own scheduler.

## Model

| member | source | states |
|---|---|---|
| `MpmcRing.EveryRunIsSafe` | 3rd/MPMCQueue/include/MPMCQueue.hpp:87-181 | After every interleaving of any number of producers and consumers, tail <= head <= tail + capacity; every popped item is the item pushed with the same ticket; no ticket is pushed or popped twice |
| `MpmcRing.EveryRunIsRaceFree` | 3rd/MPMCQueue/include/MPMCQueue.hpp:97-105 | Two operations about to touch a cell's plain data never touch the same cell |
| `MpmcRing.StepRefinesFifo` | 3rd/MPMCQueue/include/MPMCQueue.hpp:87-181 | Every atomic step leaves a bounded FIFO queue alone, appends the item of the push that just won its ticket (with room), or removes the oldest item for the pop that just won its ticket |
| `MpmcRing.PopReturnsOldest` | 3rd/MPMCQueue/include/MPMCQueue.hpp:87-113 | A pop that wins ticket t and later returns, whatever happens in between, returns the item that was oldest when it won |
| `MpmcRing.PopFalseMeansUnpublished` | 3rd/MPMCQueue/include/MPMCQueue.hpp:94-112 | pop returns false only at an instant when no push of the oldest unclaimed ticket has completed |
| `MpmcRing.PushFalseMeansNotRecycled` | 3rd/MPMCQueue/include/MPMCQueue.hpp:163-180 | push returns false only when the pop of ticket head - capacity has not completed |
| `MpmcRing.QuiescentRingIsSettled` | 3rd/MPMCQueue/include/MPMCQueue.hpp:87-181 | With no operation in flight the cells hold exactly the queue, oldest first, and the rest are free |
| `MpmcRing.PushAlone` | 3rd/MPMCQueue/include/MPMCQueue.hpp:156-181 | In every reachable state without a call in flight, a push run alone returns true exactly when the queue has room, and then the item is last in it |
| `MpmcRing.PopAlone` | 3rd/MPMCQueue/include/MPMCQueue.hpp:87-113 | In every reachable state without a call in flight, a pop run alone returns true exactly when the queue is not empty, with the oldest item, which is then gone |
| `MpmcRing.OneCellOverwrites` | 3rd/MPMCQueue/include/MPMCQueue.hpp:156-181 | With capacity 1 any number of pushes succeed although nothing was popped: a published cell looks free |
| `MpmcRing.SafeIffTwoCells` | 3rd/MPMCQueue/include/MPMCQueue.hpp:29-45 | Over all runs the ring is never overfull if and only if it has at least two cells, although the static_assert admits one |
| `MpmcRing.ExecInv` | 3rd/MPMCQueue/include/MPMCQueue.hpp:42-181 | The ticket and sequence-number invariant holds after every run from the constructor's state |
| `MpmcQueue.MaskIsSlot` | 3rd/MPMCQueue/include/MPMCQueue.hpp:94-96 | For a power of two, masking with capacity - 1 is the remainder that places a ticket in the ring |
| `MpmcQueue.MPMCQueue.constructor` | 3rd/MPMCQueue/include/MPMCQueue.hpp:42-49 | Every capacity from 1 on can be built, empty and with every cell awaiting its first ticket; from two cells on it is a bounded FIFO |
| `MpmcQueue.MPMCQueue.Push` | 3rd/MPMCQueue/include/MPMCQueue.hpp:156-181 | Run alone, push succeeds exactly when the queue is not full and then appends the item, however often the weak CAS fails |
| `MpmcQueue.MPMCQueue.Pop` | 3rd/MPMCQueue/include/MPMCQueue.hpp:87-113 | Run alone, pop succeeds exactly when the queue is not empty and then removes and returns the oldest item |
| `MutexProtocol.MutualExclusion` | src/task/mutex.cpp:11-140 | In every interleaving at most one task holds the mutex, it is locked exactly when one holds it, and the owner word names a task only while that task holds it |
| `MutexProtocol.BlockedTasksAreAttended` | src/task/mutex.cpp:40-98 | No lost wakeup: while a task is blocked on core c, the mutex is locked, or an unlocker's scan has not passed c, or a woken task has still to retry its CAS |
| `MutexProtocol.NobodyIsStranded` | src/task/mutex.cpp:74-99 | Once no call is running and the mutex is free, no task is blocked on it on any core |
| `MutexProtocol.HolderIsRefused` | src/task/mutex.cpp:21-25 | Lock or TryLock by the holder is refused as recursive and changes nothing but the call itself |
| `MutexProtocol.StrangerIsRefused` | src/task/mutex.cpp:74-90 | UnLock by a task that does not hold the mutex is refused and changes nothing but the call itself |
| `MutexProtocol.SuccessIsTruthful` | src/task/mutex.cpp:28-130 | Lock and TryLock report success only to the holder named by the owner word, UnLock only after giving up, and a refusal leaves mutex and blocked lists unchanged |
| `MutexProtocol.RefusalIsTruthful` | src/task/mutex.cpp:21-130 | NotLocked is answered to TryLock only while the mutex is locked, RecursiveLock only to the holder named by the owner word, NotOwned only to a task that does not hold the mutex |
| `MutexProtocol.HolderReleases` | src/task/mutex.cpp:84-98 | In every run an UnLock entered by the holder returns nothing but Success, and by then there was an instant at which it freed the lock with the owner word cleared |
| `MutexProtocol.FourStepsRelease` | src/task/mutex.cpp:84-98 | From the first step of its UnLock the third own step of the holder comes to the store that frees the mutex and the fourth makes it |
| `MutexProtocol.ThreeStepsAcquire` | src/task/mutex.cpp:28-39 | Lock or TryLock of a free mutex, undisturbed, takes it |
| `MutexProtocol.TryLockIsRefused` | src/task/mutex.cpp:104-130 | TryLock of a mutex held by another task, undisturbed, answers NotLocked and changes nothing else |
| `MutexProtocol.LockParks` | src/task/mutex.cpp:40-70 | Lock of a mutex held by another task, undisturbed, blocks its task at the end of the list of its core |
| `MutexProtocol.WokenAcquires` | src/task/mutex.cpp:40-70 | A woken task that finds the mutex free takes it |
| `MutexProtocol.ExecInv` | src/task/wakeup.cpp:60-102 | The invariant over tasks, run-queue locks, blocked lists and scan positions holds after every run |
| `WaitProtocol.WaitLosesNoWakeup` | src/task/wait.cpp:20-104 | A parent blocked in Wait beside a matching ended child still has that child's Wakeup to come to its core |
| `WaitProtocol.NoParentIsStranded` | src/task/exit.cpp:22-58 | A parent blocked beside a matching child whose Exit has finished waking is never left with an ended child |
| `WaitProtocol.WaitReturnsEachChildOnce` | src/task/wait.cpp:34-104 | Every child Wait returns belongs to the caller and is one the request asked for (any, same group, or that pid), left the table, is returned at most once, and carries exactly the code it passed to Exit |
| `WaitProtocol.ScanIsRight` | src/task/wait.cpp:31-74 | In every run the scan stops at the first ended child that was asked for; at its end Wait fails exactly when the table holds no child that was asked for, returns nothing exactly when it does and the caller will not wait, and otherwise blocks beside a child that lives or whose wakeup is still to come |
| `WaitProtocol.ReapedWhileExiting` | src/task/wait.cpp:88-96 | On any number of cores there is a run in which Wait returns and erases a child that is still waking its parent inside Exit |
| `WaitProtocol.ReturnedAreGoneIff` | src/task/wait.cpp:88-96 | Over all runs every child that Wait returns is out of its wakeup if and only if there is no core at all |
| `WaitProtocol.ReturnedIsGoneIff` | src/task/exit.cpp:53-58 | In every run a returned child is out of its wakeup if and only if the steps of the run took that wakeup to every core |
| `WaitProtocol.GoneStays` | src/task/exit.cpp:53-58 | A child out of its wakeup when the scan finds it stays so, with its record unchanged, whatever happens next |
| `WaitProtocol.ExecInv` | src/task/wakeup.cpp:52-58 | The invariant over table scan, zombies, locks and wakeups holds after every run |
| `VirtualMemory.PageTables.FindPageTableEntry` | src/memory/virtual_memory.cpp:298-340 | Finds the last-level table of a virtual address; when allocating it succeeds exactly when the tables missing on the walk are at most the free frames, and takes exactly those; no translation changes |
| `VirtualMemory.PageTables.MapPage` | src/memory/virtual_memory.cpp:74-115 | Succeeds exactly when the tables missing on the walk are at most the free frames; then the page leads to the given aligned address with the given flags, whatever it led to before, or nowhere if the flags lack the valid bit; no other page changes; a failure changes no translation; other tables are untouched |
| `VirtualMemory.PageTables.UnmapPage` | src/memory/virtual_memory.cpp:117-139 | Succeeds exactly when the page was mapped, unmaps that page only, frees no table |
| `VirtualMemory.PageTables.GetMapping` | src/memory/virtual_memory.cpp:141-158 | Returns the physical address of the page's entry exactly when it is mapped |
| `VirtualMemory.PageTables.Run` | src/memory/virtual_memory.cpp:74-158 | Any run of map, unmap and lookup, with any number of levels, answers and ends up as updates of a map from virtual page to entry, each map failing exactly for lack of frames at that moment; a lookup of a page last set by a successful map answers the address that was mapped; nothing shows in a directory with tables of its own |
| `VirtualMemory.GetAnswersLastMap` | src/memory/virtual_memory.cpp:104-158 | In every run a page last set by a successful map leads to that address with those flags, one last unmapped leads nowhere, and lookups answer accordingly |
| `VirtualMemory.PageTables.RecursiveClonePageTable` | src/memory/virtual_memory.cpp:244-296 | Succeeds exactly when there is a frame for every table below src; then dst translates as src (or nothing) from frames of its own; every other frame stays as it was |
| `VirtualMemory.PageTables.ClonePageDirectory` | src/memory/virtual_memory.cpp:178-208 | Succeeds exactly when the free frames are at least the tables of the source; the clone translates exactly as the unchanged source (or nothing without copy_mappings) from disjoint tables |
| `VirtualMemory.PageTables.RecursiveFreePageTable` | src/memory/virtual_memory.cpp:210-242 | Returns every table below, each exactly once, and touches nothing else |
| `VirtualMemory.PageTables.DestroyPageDirectory` | src/memory/virtual_memory.cpp:160-176 | Gives back every table of the directory exactly once |
| `PageTree.LookupIsWalk` | src/memory/virtual_memory.cpp:298-340 | A translation is the valid entry in the table the level-by-level walk ends in |
| `PageTree.LeafWrite` | src/memory/virtual_memory.cpp:104-113 | Writing a last-level entry changes the translation of its page only and keeps the tree |
| `PageTree.LinkWrite` | src/memory/virtual_memory.cpp:318-333 | Linking an empty table changes no translation and adds exactly that table |
| `SplitVirtqueues.SplitVirtqueue.constructor` | src/device/virtio/virt_queue/split.hpp:240-278 | All descriptors are on the free list in order, nothing is in flight |
| `SplitVirtqueues.SplitVirtqueue.AllocDesc` | src/device/virtio/virt_queue/split.hpp:298-308 | Takes the first free descriptor, or fails exactly when none is free |
| `SplitVirtqueues.SplitVirtqueue.FreeDesc` | src/device/virtio/virt_queue/split.hpp:322-330 | Puts an allocated descriptor in front of the free list; an index out of range is refused without change |
| `SplitVirtqueues.SplitVirtqueue.Submit` | src/device/virtio/virt_queue/split.hpp:380-388 | The head joins the device's queue across index wrap-around; no unread available entry is overwritten |
| `SplitVirtqueues.SplitVirtqueue.HasUsed` | src/device/virtio/virt_queue/split.hpp:399-401 | True exactly when the device returned something that was not popped, across wrap-around |
| `SplitVirtqueues.SplitVirtqueue.PopUsed` | src/device/virtio/virt_queue/split.hpp:417-430 | Pops the head returned first, which then is no longer in flight, or fails exactly when nothing is returned |
| `SplitVirtqueues.SplitVirtqueue.SubmitChain` | src/device/virtio/virt_queue/split.hpp:460-511 | Builds from the front of the free list the chain of the readable, then the writable buffers and submits it; fails exactly when there are no buffers or too few descriptors, and then changes nothing; leaves no descriptor outside free list and chains |
| `SplitVirtqueues.GuardIsRightIff` | src/device/virtio/virt_queue/split.hpp:463-469 | The 16-bit guard tells a shortage of descriptors if and only if the number of buffers is not one of 65536 or more whose low 16 bits fit the free descriptors |
| `SplitVirtqueues.FullTurnOfBuffers` | src/device/virtio/virt_queue/split.hpp:467-469 | 65536 buffers pass the guard with no free descriptor |
| `SplitVirtqueues.SplitVirtqueue.FreeChain` | src/device/virtio/virt_queue/split.hpp:530-556 | The walk ends and returns exactly the chain's descriptors, last first, to the free list; its bounds check never fires |
| `SplitVirtqueues.EveryDescriptorCounted` | src/device/virtio/virt_queue/split.hpp:460-556 | With nothing allocated on its own, the free descriptors and those of the live chains add up to the whole table: none leaks |
| `SplitVirtqueues.SplitVirtqueue.LastBuffer` | src/device/virtio/virt_queue/split.hpp:460-511 | A device that follows the links of a chain ends at the address of its last buffer |
| `SplitVirtqueues.SplitVirtqueue.DeviceHasWork` | src/device/virtio/virt_queue/split.hpp:380-388 | Comparing the device's 16-bit index with the available index tells exactly whether a head is unread |
| `SplitVirtqueues.SplitVirtqueue.DeviceTake` | src/device/virtio/virt_queue/split.hpp:380-388 | A conforming device that reads the available ring with its own 16-bit index gets the head submitted first |
| `SplitVirtqueues.SplitVirtqueue.DeviceFinish` | src/device/virtio/virt_queue/split.hpp:417-430 | A conforming device may return any head it holds; no unpopped used entry is overwritten |
| `Descriptors.ChainReadsBack` | src/device/virtio/virt_queue/split.hpp:460-511 | Following the links of a live chain stops by itself and shows exactly the readable, then the writable buffers |
| `Descriptors.AssembleStep` | src/device/virtio/virt_queue/split.hpp:500-502 | Clearing NEXT on the last descriptor turns linked allocated descriptors into a live chain and keeps the partition |
| `Descriptors.DissolveStep` | src/device/virtio/virt_queue/split.hpp:535-553 | Taking a chain apart keeps free list and other chains |
| `Descriptors.AllocStep` | src/device/virtio/virt_queue/split.hpp:298-308 | Taking the first free descriptor keeps an acyclic free list of the counted length and all chains |
| `Descriptors.FreeStep` | src/device/virtio/virt_queue/split.hpp:322-330 | Giving one back does as well |
| `RingFlow.InFlightIsExact` | src/device/virtio/virt_queue/split.hpp:380-430 | Across 16-bit wrap-around, available index minus last used index is the number of heads in flight, at most the queue size |
| `RingFlow.HasUsedIsExact` | src/device/virtio/virt_queue/split.hpp:399-401 | Comparing the wrapped indices tells exactly whether something was returned |
| `RingFlow.PowersFit` | src/device/virtio/virt_queue/split.hpp:247-249 | Every power of two that fits uint16_t divides the range of the ring indices |
| `VirtioBlock.VirtioBlk.DoEnqueue` | src/device/virtio/device/blk/virtio_blk.hpp:566-629 | Takes the lowest free slot, submits header, data and status buffers in order and books the token; a device that follows the links finds the header, each data buffer in order, writable exactly for a disk read, and the status byte; fails exactly on bad arguments, full slots or too few descriptors, and then changes no slot bit, descriptor or index |
| `VirtioBlock.VirtioBlk.RequestReadsBack` | src/device/virtio/device/blk/virtio_blk.hpp:592-616 | As long as a request is in flight the device finds type, sector and buffers as they were asked for: header read-only, data writable exactly for a disk read, status writable |
| `RequestSlots.ChainCarries` | src/device/virtio/device/blk/virtio_blk.hpp:599-616 | Descriptor 0 is the header and not device-writable, descriptor k + 1 is data buffer k and device-writable if and only if the request is a read, the last is the writable status byte |
| `VirtioBlock.VirtioBlk.ProcessCompletions` | src/device/virtio/device/blk/virtio_blk.hpp:644-669 | Every returned head gets its callback in order, with its own request's token and status, continuing the log; its slot and chain are freed; nothing returned is left and heads the device holds stay |
| `VirtioBlock.VirtioBlk.CompleteOne` | src/device/virtio/device/blk/virtio_blk.hpp:650-668 | The callback for the head returned first answers a request that had none, and only that request |
| `VirtioBlock.VirtioBlk.AllocRequestSlot` | src/device/virtio/device/blk/virtio_blk.hpp:679-690 | Takes the lowest clear bit, or fails exactly when all are set |
| `VirtioBlock.VirtioBlk.FindSlotByDescHead` | src/device/virtio/device/blk/virtio_blk.hpp:709-719 | An occupied slot with that head, or none exactly when there is none |
| `VirtioBlock.VirtioBlk.DeviceComplete` | src/device/virtio/device/blk/virtio_blk.hpp:644-669 | The status a device writes through the last descriptor of a chain lands in the slot of that chain's request, which had no status before |
| `VirtioBlock.VirtioBlk.Kick` | src/device/virtio/device/blk/virtio_blk.hpp:240-264 | With event indices each kick ends one window and starts the next and notifies exactly when one of the last (number mod 65536) submissions has the requested index: below 65536 exactly when the window holds it |
| `BlockSystem.RunDriver` | src/device/virtio/device/blk/virtio_blk.hpp:566-669 | Every run of enqueues, device reads, completions in any order, completion handling and kicks from a fresh queue makes exactly the callbacks of the desk, in its order; the descriptors that are not free are those of the requests in flight; each head the device holds shows it the job of its request |
| `BlockSystem.System.Do` | src/device/virtio/device/blk/virtio_blk.hpp:566-669 | Each operation of driver and device is the operation of the desk |
| `BlockSystem.System.Submit` | src/device/virtio/device/blk/virtio_blk.hpp:566-629 | A request is accepted exactly when its arguments are valid, fewer than 64 requests are in flight and their buffers leave it enough descriptors |
| `DeskMirror.SlotsFullIff` | src/device/virtio/device/blk/virtio_blk.hpp:679-690 | All slots are occupied exactly when 64 heads are in flight |
| `DeskMirror.MirrorsProcess` | src/device/virtio/device/blk/virtio_blk.hpp:644-669 | Handling completions answers the requests the device is done with, with their own tokens and statuses, in the order in which it was done with them |
| `BlockDesk.LogIsFinishOrder` | src/device/virtio/device/blk/virtio_blk.hpp:644-669 | In every run the callbacks made and those still owed are what the device said, in the order in which it said it; after handling completions none is owed |
| `BlockDesk.CallbackReports` | src/device/virtio/device/blk/virtio_blk.hpp:644-669 | In every run the i-th callback has the token of the i-th request the device finished and reports success if and only if its status byte was 0, and each error for its own status |
| `BlockDesk.EveryRequestOnce` | src/device/virtio/device/blk/virtio_blk.hpp:566-669 | In every run each accepted request waits, is held by the device or has been told about, exactly one of these and once |
| `BlockDesk.NumberedInOrder` | src/device/virtio/device/blk/virtio_blk.hpp:566-629 | The requests accepted in a run are numbered in order |
| `BlockDesk.IdleIsAnswered` | src/device/virtio/device/blk/virtio_blk.hpp:644-669 | Once nothing is in flight there has been one callback for each request and no other |
| `VirtioBlock.VirtioBlk.DeviceAnswer` | src/device/virtio/device/blk/virtio_blk.hpp:592-616 | The device reaches the status byte of a request through the links of its chain alone, and tells each request once |
| `Notification.NeedEventIsWindow` | src/device/virtio/device/blk/virtio_blk.hpp:752-756 | VringNeedEvent holds exactly when one of the last (distance mod 65536) submissions has the requested index |
| `Notification.WindowsTile` | src/device/virtio/device/blk/virtio_blk.hpp:240-264 | Each submission lies in the window of exactly one kick |
| `Notification.KickNotifiesIff` | src/device/virtio/device/blk/virtio_blk.hpp:752-756 | For any number of submissions a kick notifies exactly when one of the last (number mod 65536) has the requested index |
| `Notification.KickIsRightIff` | src/device/virtio/device/blk/virtio_blk.hpp:240-264 | A kick tells the device what it asked for and nothing else if and only if fewer than 65536 were submitted since the last or the last (number mod 65536) hold the event |
| `Notification.FullTurnIsMissed` | src/device/virtio/device/blk/virtio_blk.hpp:752-756 | At every positive multiple of 65536 submissions the window looks empty and the device is not told |
| `TaskManager.RunCore` | src/task/task_manager.cpp:39-163 | In every run of one core in which no policy has more than 128 living tasks, with any number created and reaped and wakeups and ticks at any time, each event does exactly its step, one that cannot happen changes nothing, and in every state each task is listed once in the container of its state and nowhere else and only the running task is Running |
| `TaskManager.Core.Do` | src/task/schedule.cpp:36-118 | Each event takes the core exactly to the state its step says |
| `CoreSteps.TicksAreCounted` | src/task/tick_update.cpp:9-20 | In every run the tick count is the number of ticks there were |
| `CoreSteps.NobodyOversleeps` | src/task/tick_update.cpp:22-40 | In every state of every run no task sleeps beyond the tick it asked for |
| `CoreSteps.EndedUntilReaped` | src/task/exit.cpp:22-50 | In every run a task that has ended keeps its record until it is reaped: it is never run, woken or charged |
| `CoreSteps.StepKeepsTable` | src/task/task_manager.cpp:94-147 | A pid enters the task table by AddTask only and leaves it only by being reaped after it has ended |
| `CoreLaws.StaysAsleep` | src/task/sleep.cpp:14-46 | In every run a task that asked to sleep for ms is asleep until ms * rate / 1000 ticks have come, or one if that is none |
| `CoreLaws.WakesOnTime` | src/task/tick_update.cpp:22-40 | And it wakes with exactly that tick |
| `CoreLaws.RunsThroughSlice` | src/task/tick_update.cpp:43-67 | In every run a running task that is not interrupted by itself goes on as long as fewer ticks have come than its slice has, which each of them shortens by one |
| `CoreLaws.PreemptedByLastTick` | src/task/tick_update.cpp:43-77 | With n > 0 left of its slice it is preempted by the n-th tick and not before: another ready task gets the core, or it starts a new slice |
| `CoreLaws.RealTimeFirst` | src/task/schedule.cpp:70-118 | Schedule never idles while a task can run and never runs a normal task while a real-time one can |
| `CoreLaws.WaitsItsTurn` | src/task/include/rr_scheduler.hpp:28-70 | In every run a real-time task at place k of its queue has run by the (k+1)-th call of Schedule |
| `CoreQueues.ExactlyOnePlace` | src/task/include/task_manager.hpp:31-75 | Every task is listed exactly once in the container of its state and nowhere else |
| `TaskManager.Core.Schedule` | src/task/schedule.cpp:36-118 | Requeues the running task if it still runs, then always finds the first real-time task, else the first normal one, else the idle thread; all others stay as they were |
| `TaskManager.Core.Dispatch` | src/task/schedule.cpp:70-118 | The task picked was ready and becomes the only running one |
| `TaskManager.Core.TickUpdate` | src/task/tick_update.cpp:9-67 | Wakes exactly the sleepers that are due, charges the tick to the running task, asks for preemption exactly when its slice is used up, and never while it is giving up the core |
| `TaskManager.Core.Tick` | src/task/tick_update.cpp:9-77 | Counts the tick, wakes who is due, charges the running context and reschedules exactly when its slice is used up; no due task still sleeps |
| `TaskManager.Core.Sleep` | src/task/sleep.cpp:14-46 | The running task sleeps until the computed tick; for 0 ms or with a full queue it stays Running |
| `TaskManager.Core.Block` | src/task/block.cpp:12-34 | The running task joins the list of the resource, or goes on running when the list is full |
| `TaskManager.Core.Exit` | src/task/exit.cpp:22-50 | The running task becomes a zombie if it has a parent, else exited, and is in no container |
| `TaskManager.Core.Wakeup` | src/task/wakeup.cpp:12-50 | Exactly the tasks blocked on the resource become ready, at the ends of their queues in the order in which they blocked, also one that has not reached Schedule yet |
| `TaskManager.Core.WakeupOne` | src/task/wakeup.cpp:60-97 | The task blocked longest becomes ready, if there is one, and no other task changes |
| `TaskManager.Core.AddTask` | src/task/task_manager.cpp:94-147 | A new task is ready at the end of the queue of its policy, or nothing changes when the table is full |
| `TaskManager.Core.Reap` | src/task/task_manager.cpp:260-282 | Erases a task that has ended; any other task is left alone |
| `TaskManager.Core.Enqueue` | src/task/include/rr_scheduler.hpp:28-42 | A task joins the end of its queue; a full queue drops it |
| `TaskPlacement.PlacedIffRoom` | src/task/include/rr_scheduler.hpp:28-42 | A task that becomes ready is in its queue if and only if the queue had room: at capacity it is lost |
| `TaskPlacement.HeldOnce` | src/task/include/task_manager.hpp:31-75 | A container that holds a place lists a task of that place once and any other task not at all |
| `Cfs.CfsScheduler.Enqueue` | src/task/include/cfs_scheduler.hpp:58-79 | Keeps the queue ordered and adds the task once, dropping it at capacity; a new task starts at the minimum, which right after a pick is the least queued runtime and stays so exactly until a task with a smaller one is queued |
| `Cfs.CfsScheduler.PickNext` | src/task/include/cfs_scheduler.hpp:103-120 | Takes out the task that comes before all others and updates the minimum |
| `Cfs.CfsScheduler.OnTick` | src/task/include/cfs_scheduler.hpp:147-168 | Charges the weighted tick and asks for preemption exactly when some queued task is behind by more than the granularity |
| `CfsRuns.TickKeepsSpread` | src/task/include/cfs_scheduler.hpp:147-168 | A tick of a task that is not ahead by more than the granularity keeps all runtimes within granularity plus the largest charge |
| `CfsRuns.ChargesFall` | src/task/include/cfs_scheduler.hpp:147-155 | The default weight pays 1000 a tick, a larger weight never pays more, and charge times weight is 1024000 rounded down |
| `Cfs.FairCore.Tick` | src/task/include/cfs_scheduler.hpp:147-168 | Charge, preemption and choice of the next task are exactly the step of the run |
| `Cfs.FairCore.Run` | src/task/include/cfs_scheduler.hpp:58-168 | The core does exactly what the run says, so the spread bound and the account of service hold after any number of ticks and reschedules |
| `CfsRuns.EveryRunIsFair` | src/task/include/cfs_scheduler.hpp:58-168 | After any number of ticks and reschedules all virtual runtimes are within kMinGranularity plus the largest per-tick charge |
| `CfsRuns.EveryTickServesOne` | src/task/include/cfs_scheduler.hpp:147-168 | The ticks of all tasks together are the ticks there were |
| `CfsRuns.ServiceIsProportional` | src/task/include/cfs_scheduler.hpp:147-168 | In every run, tasks that started level and whose charge times weight is the same c satisfy c * (ticks_a * w_b - ticks_b * w_a) <= (granularity + largest charge) * w_a * w_b |
| `CfsRuns.ProportionalIff` | src/task/include/cfs_scheduler.hpp:147-168 | Two tasks that start level get service in proportion to their weights, to within a bound over all runs, if and only if charge times weight is the same for both and not zero |
| `CfsRuns.DriftGrows` | src/task/include/cfs_scheduler.hpp:147-168 | With different products every long enough run takes the gap beyond any bound |
| `CfsRuns.HeavyTakesAll` | src/task/include/cfs_scheduler.hpp:147-168 | A task that runs and whose weight exceeds 1024000 pays nothing and takes every tick |
| `CfsRuns.HeavyExample` | src/task/include/cfs_scheduler.hpp:147-168 | Weights 2000000 and 1024: after n ticks the first has had n and the other none |
| `Balance.Cores.Balance` | src/task/task_manager.cpp:181-258 | Takes the first task of the busiest other core exactly when that core was seen with more than one task more than the own one, its queue is longer by two or more, this core is online and the task may run here; a task that may not goes to the end of its own queue; otherwise nothing changes |
| `Balance.Cores.Busiest` | src/task/task_manager.cpp:193-213 | The first of the other online cores with the largest load seen, or none exactly when all were seen empty |
| `Balance.DecisionKeeps` | src/task/task_manager.cpp:234-258 | Whatever loads were seen, no task is lost or doubled, none goes where its mask forbids, and a steal lowers the sum of squared queue lengths by at least two |
| `Balance.DecisionIsUnique` | src/task/task_manager.cpp:181-258 | Loads, queues and masks decide what a call does |
| `Balance.QuietRoundIff` | src/task/task_manager.cpp:181-258 | A round of calls on all online cores with loads up to date and no masks takes nothing if and only if any two online queues differ by at most one |
| `Balance.RoundsLevel` | src/task/task_manager.cpp:181-258 | More such rounds than half the sum of squares leave any two online queues within one of each other, for good |
| `Balance.RunBalance` | src/task/task_manager.cpp:181-258 | In every run of balancing each call does exactly what its moment decides; there are at most half the initial sum of squares many steals, all tasks are conserved, and each core has only tasks that were there or whose mask allows it |
| `Balance.MovedConserves` | src/task/task_manager.cpp:240-258 | Moving the first task of one queue to the end of another, or of its own, conserves all tasks |
| `Balance.StealLowersSquares` | src/task/task_manager.cpp:234-256 | A steal from a queue longer by two or more lowers the sum of squares by at least two |
| `Vfs.RunFresh` | src/filesystem/vfs/lookup.cpp:65-132 | Every run of lookups, opens, creates, mkdirs, unlinks and rmdirs from a fresh mount answers as a file tree without a cache would |
| `Vfs.Vfs.Run` | src/filesystem/vfs/lookup.cpp:65-132 | The same from any state with a complete cache, and the directories end up the same |
| `Vfs.Vfs.Lookup` | src/filesystem/vfs/lookup.cpp:14-133 | Through any correct cache, complete or not, a path leads along the inodes that walking the directories gives, with the same error |
| `Vfs.Vfs.LookupStep` | src/filesystem/vfs/lookup.cpp:67-118 | One component: NotADirectory, dot, dot-dot, cached child or directory entry, as the plain step says |
| `Vfs.Vfs.Open` | src/filesystem/vfs/open.cpp:14-108 | Opens or creates as the plain tree does, with the same error in the same order |
| `Vfs.Vfs.MkDir` | src/filesystem/vfs/mkdir.cpp:14-86 | Creates a directory on disk and in the cache as the plain tree does |
| `Vfs.Vfs.Unlink` | src/filesystem/vfs/unlink.cpp:15-88 | Removes a file from disk and cache as the plain tree does |
| `Vfs.Vfs.RmDir` | src/filesystem/vfs/rmdir.cpp:15-89 | Removes an empty directory from disk and cache as the plain tree does |
| `TreeEffects.MkDirMakesDirectory` | src/filesystem/vfs/mkdir.cpp:67-86 | On every tree, after MkDir answers ino, node ino is an empty directory, the path leads to it exactly if it is rooted, does not start with two slashes and ends in a name that is no dot, and every path that led somewhere leads there still |
| `TreeEffects.MkDirSucceedsIff` | src/filesystem/vfs/mkdir.cpp:14-86 | MkDir of such a path succeeds exactly when its parent leads to a directory, the path leads nowhere and there is room, and reports FileExists exactly when it leads somewhere |
| `TreeEffects.OpenMakesFile` | src/filesystem/vfs/open.cpp:14-108 | Open opens what the path leads to, or with kOCreate makes an empty regular file there, with the same effect on paths as MkDir |
| `TreeEffects.OpenSucceedsIff` | src/filesystem/vfs/open.cpp:14-108 | Without kOCreate, Open works exactly on what the path leads to, a directory if kODirectory asks for one |
| `TreeEffects.RemovesLeaf` | src/filesystem/vfs/unlink.cpp:45-88 | After Unlink or RmDir succeeds, what was removed was a file or an empty directory, every lookup that came through it finds nothing and every other one is as before |
| `TreeEffects.RemoveSucceedsIff` | src/filesystem/vfs/rmdir.cpp:45-89 | Unlink and RmDir work exactly on what the path leads to, if it is of the right kind and empty, and report NotEmpty and IsADirectory exactly otherwise |
| `TreeEffects.RmDirUndoesMkDir` | src/filesystem/vfs/rmdir.cpp:15-89 | RmDir after MkDir removes what was made, and every path leads where it led before |
| `TreeEffects.UnlinkUndoesCreate` | src/filesystem/vfs/unlink.cpp:15-88 | So does Unlink after the creation of a file |
| `TreeEffects.WalkDiffers` | src/filesystem/vfs/lookup.cpp:65-132 | Between two trees that differ in one entry, a walk through that entry fails without it and any other walk is the same |
| `TreeEffects.DotDotGoesBack` | src/filesystem/vfs/lookup.cpp:78-92 | A path, a name that leads on to a directory and `..` lead where the path led |
| `TreeEffects.FileHasNoPaths` | src/filesystem/vfs/lookup.cpp:67-76 | Nothing is reached through a file: NotADirectory |
| `TreeEffects.RunIsWellFormed` | src/filesystem/vfs/lookup.cpp:65-132 | At every point of every run each inode is entered at most once and no name is longer than 255, so the above holds there |
| `Vfs.Vfs.CreateInode` | src/filesystem/ramfs/ramfs.cpp:188-217 | Adds the entry and the inode, doubling the entry array when full, or fails without change |
| `Vfs.Vfs.RemoveFromDirectory` | src/filesystem/ramfs/ramfs.cpp:544-569 | Swap-with-last removal loses exactly the removed name; a missing name is reported and changes nothing |
| `Vfs.Vfs.FindInDirectory` | src/filesystem/ramfs/ramfs.cpp:481-495 | The entry with the name, or none exactly when the directory has no such name |
| `Vfs.Vfs.FindChild` | src/filesystem/vfs/vfs.cpp:38-51 | The child with the name, or none exactly when no child has it |
| `Vfs.Vfs.RemoveChild` | src/filesystem/vfs/vfs.cpp:63-78 | Takes exactly that child out of the list |
| `DirEntries.DropRemovesName` | src/filesystem/ramfs/ramfs.cpp:558-567 | Moving the last entry into the gap keeps every other name with its inode |
| `DentryCache.CreateKeeps` | src/filesystem/vfs/open.cpp:79-97 | Creating an entry and its dentry keeps the cache right, and complete if it was |
| `DentryCache.RemoveKeeps` | src/filesystem/vfs/unlink.cpp:66-77 | Removing a name and its dentry keeps the cache right, and complete if it was |
| `DentryCache.NoChildNoDentry` | src/filesystem/vfs/lookup.cpp:94-97 | If no child has the name, the directory's entry of that name has no dentry at all |
| `PathLimits.ResolveIsPlainWalk` | src/filesystem/vfs/lookup.cpp:25-132 | For slash-normalised paths with names up to 255 bytes the resolution is the plain walk over the names |
| `PathLimits.ResolveIsPlainWalkIff` | src/filesystem/vfs/lookup.cpp:25-132 | A rooted path is resolved as the plain walk on every tree if and only if its names have up to 255 bytes or, should it start with two slashes, it names nothing but the root |
| `PathLimits.DoubledSlash` | src/filesystem/vfs/lookup.cpp:25-31 | On an empty tree "//a" resolves to the root although there is no such file |
| `PathLimits.LongNameRemovesFile` | src/filesystem/vfs/unlink.cpp:25-38 | A file created under a name of 255 bytes is removed by Unlink of any longer name that starts with it, which no directory holds |
| `PathLimits.RemovesGivenIff` | src/filesystem/vfs/unlink.cpp:25-88 | On every tree Unlink and RmDir remove the given name from the directory the given parent leads to, or report the same error, if the parent is not rooted, or the name fits its buffer and the cut takes nothing off the parent that a lookup would follow; for an overlong name, and for a parent without dots or of dots alone, also only if |
| `Paths.CutComponents` | src/filesystem/vfs/unlink.cpp:29-34 | Of a path that is cut short the lookup sees the first components and perhaps the beginning of one more |
| `Paths.ComponentsAreSplit` | src/filesystem/vfs/vfs.cpp:22-36 | The loop sees the names between the slashes if and only if none is longer than 255 |
| `Paths.SkipLeadingSlashes` | src/filesystem/vfs/vfs.cpp:22-27 | Stops at the first character that is no slash |
| `Paths.CopyPathComponent` | src/filesystem/vfs/vfs.cpp:29-36 | Copies up to the next slash, at most the buffer |
| `RamFs.RunFresh` | src/filesystem/ramfs/ramfs.cpp:299-370 | Every run of creates, reads and writes at any offsets answers as a map from files to byte sequences would |
| `RamFs.LastWriteIsRead` | src/filesystem/ramfs/ramfs.cpp:299-370 | In every run a read answers the bytes last written there, whatever happened to other files and ranges |
| `RamFs.RamFs.Read` | src/filesystem/ramfs/ramfs.cpp:299-332 | Returns what the byte sequence has from the offset, and nothing at or behind the end |
| `RamFs.RamFs.Write` | src/filesystem/ramfs/ramfs.cpp:334-370 | Writes that file only, growing it with zeros as needed; fails exactly when the pool is exhausted and then changes nothing |
| `RamFs.RamFs.CreateFile` | src/filesystem/ramfs/ramfs.cpp:109-134 | A new file is empty, or creation fails when the inode table is full and changes nothing |
| `RamFs.RamFs.ExpandFile` | src/filesystem/ramfs/ramfs.cpp:580-618 | Succeeds at once within the capacity; else moves the file to a larger fresh window with the same bytes, or fails without change |
| `RamFsData.WriteInPlace` | src/filesystem/ramfs/ramfs.cpp:358-367 | Writing into a file's window changes no other file |
| `RamFsData.MoveToFresh` | src/filesystem/ramfs/ramfs.cpp:588-604 | Growth keeps old bytes and keeps windows apart |
| `RamFsData.WriteThenRead` | src/filesystem/ramfs/ramfs.cpp:299-370 | What was written is read back, other bytes stay, holes read as zero |
| `RamFsData.ReadIsSlice` | src/filesystem/ramfs/ramfs.cpp:299-332 | A read gives the bytes from the offset, as many as were asked for and are there |

## Left out

- Architecture code, interrupt controllers, serial ports, MMIO transport, device tree and ELF parsing, FatFS, system calls: hardware and library plumbing.
- Weak memory order and the wrap-around of 64-bit counters, ticks, virtual runtimes and file offsets: steps are sequentially consistent and these counters unbounded; 16-bit ring indices do wrap.
- Concurrent protocols are not written as imperative Dafny: MpmcRing, MutexProtocol and WaitProtocol are transition systems, because a method cannot express interleavings.
- MpmcQueue.MPMCQueue.Push, MpmcQueue.MPMCQueue.Pop: start from a queue of two or more cells; each finds its cell with the remainder; `MpmcQueue.MaskIsSlot` shows that this is the mask of the code for powers of two.
- Mutexes without a name of their own, which share one resource id, and the idle and boot contexts as lock holders.
- Reparenting, signals and the `untraced` option of Wait: a thread group leader exits only when the table holds no child of it.
- Futexes, Clone, spinlock internals and the gap between releasing the run-queue lock and the context switch.
- Priority inheritance, the statistics counters and the order in which the sleep heap breaks ties: the earliest position wins.
- TaskManager.Core.AddTask: is not called for a policy that already has 128 living tasks on the core, where the full ready queue may drop the new task or a later one (`TaskPlacement.PlacedIffRoom`).
- PathLimits.RemovesGivenIff: for an overlong parent that mixes `.` or `..` with other names only the sufficient condition is proved: there a cut can be without effect on every tree although it takes components off (`DotAgain`).
- TaskManager.Core.Block: is not called for a new resource while all 64 groups are taken, where the container library raises its own error.
- TaskManager.Core.Reap: is not called for a task that has ended and not yet made its last call of Schedule, which Wait does not exclude.
- MutexProtocol.BlockedTasksAreAttended: a woken task can run; a ready queue at capacity would drop it, and so would one in WaitProtocol (`TaskPlacement.PlacedIffRoom`).
- WaitProtocol.WaitReturnsEachChildOnce: keeps the record of an erased child, whose own Exit may not be over.
- Balance inside the placement invariant: it is modelled on its own, over the normal queues of all cores.
- Freeing of mapped pages (`free_pages`), and the tables of a clone that fails part way, which the code does not fully give back.
- SplitVirtqueues.SplitVirtqueue.SubmitChain: does not follow the code into the memory it overruns when 65536 or more buffers slip through its guard; every other number of buffers is covered.
- The memory layout of the queue (CalcSize, alignment), indirect descriptors, and memory barriers; descriptor flags are the two bits in use.
- The slot bitmap is a sequence of 64 bits rather than a machine word; callbacks do not call the driver.
- Synchronous block requests, their timeout, configuration space and statistics of the block driver.
- Mount tables beyond the root mount, and unmounting, after which the byte pool is no longer zero.
- Open-file reference counts and dentries that outlive their removal; sibling lists are sequences; dentry allocation does not fail.
- RamFs.RamFs.Read, RamFs.RamFs.Write: the offset of the open file is an argument; directories and null pointers, which the code refuses, are not files here.
- Inode reclamation, which the link counts never reach, ReadDir and Seek.
