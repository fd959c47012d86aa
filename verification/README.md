# Models of a scheduler, a page daemon and a file system

The repository changes parts of the FreeBSD 11.2 kernel and adds a small FUSE
file system.  This project models the parts with the hardest invariants and
proves what they promise.

* **Busy lock** (`BusyLock.dfy`): the busy word of a page, one step per atomic
  operation, any number of threads in any interleaving.
* **Page daemon** (`PageDaemon.dfy`, `OomVote.dfy`): the sleep/wakeup handshake
  with threads that wait for free pages, and the vote on the out-of-memory
  killer.
* **Page structures** (`ObjectIndex.dfy`, `AllocContig.dfy`, `GrabPages.dfy`,
  `PageQueues.dfy`, `PageScan.dfy`, `InactiveScan.dfy`, `PageoutCluster.dfy`,
  `ScanContig.dfy`): the pages of an object, their allocation, the paging queues
  and the scans over them.
* **Scheduler** (`RunQueue.dfy`, `Steal.dfy`, `Lottery.dfy`, `ThreadQueue.dfy`,
  `Sched.dfy`, `CpuSearch.dfy`, `Balance.dfy`, `Priority.dfy`): run queues, the
  lottery, stealing, the search of the CPU tree, load balancing and priorities.
* **File system** (`HelloFs.dfy`): chained blocks, the bitmap, and reads and
  writes through a staging buffer.
* **Arithmetic** (`Isqrt.dfy`, `Bits.dfy`): the integer square root and the
  power-of-two macros.  `Arith.dfy`, `Lists.dfy`, `PageTypes.dfy` and
  `Wrappers.dfy` hold what several modules share.

Concurrent protocols are transition systems: a run is a sequence of states, and
the theorems are about every state of every run.  Code that updates structures
in place is a class whose methods are proved against functions of the old
state; the properties are lemmas about these functions and the invariants
`Valid` and `Inv`.  Clocks, random numbers, the choices of the physical
allocator, the memory for the nodes of the radix tree, and what other threads
do while a call sleeps are parameters.

Some results say where the code does not do what one would expect:

* the out-of-memory killer can run although a domain has just freed pages
  (`OomVote.KillerDespiteProgress`); the domains without the failed scans are
  exactly those that have cleared `vmd_oom` and have yet to subtract their vote
  (`KillerNeedsQuorum`);
* a request of `pagedaemon_wakeup` can be lost exactly if it is made while a
  daemon is about to sleep (`PageDaemon.RequestLostExactly`), which happens
  (`AdvisoryWakeupCanBeLost`); its callers must not own the mutex, so they have no
  test of their own that rules the loss out.  A request of `pagedaemon_wait` is
  never lost (`DemandIsServed`);
* `vm_page_scan_contig` never returns if the request is longer than its nonzero
  boundary and a page in range is aligned and a multiple of it
  (`ScanContig.ScanNeverReturns`, `EndlessRequest`); it returns in every other case
  (`Scan`);
* a scan of the inactive queue examines all entries but the last exactly if those
  before hold too few pages to free, and never the last, since the marker counts
  against the number of pages (`InactiveScan.LastIsMissed`);
* renaming a page within its object goes wrong exactly if the page itself is the
  predecessor of the new index (`ObjectIndex.RenameWithinObject`,
  `RenameGoesWrong`);
* `runq_steal_from` misses an eligible thread exactly if the scan has nothing ahead
  of it, several threads are queued and only the first of them is eligible
  (`Steal.FirstIsMissed`);
* a clock tick that comes while the insert and removal indices are equal leaves the
  threads of a nonempty timeshare slot behind, except in slot 0 while a lottery
  thread waits (`ThreadQueue.TickLeavesBehind`);
* the draw among lottery threads divides by zero exactly if all of them have the
  nice value -20 (`Lottery.NothingToDraw`, `Choose`);
* the history of CPU ticks stays sound exactly if a running thread is updated at
  least every ten seconds (`Priority.UpdateSound`);
* the interactivity score says whether a thread mostly runs or mostly sleeps
  exactly if the smaller time is below 51 fiftieths of the larger, the fiftieth
  rounded down (`Priority.ScoreSeparates`).  Where a statistics tick counts for at
  least 2450, all times that sleeping and running lead to satisfy this
  (`LongTicksSeparate`); at clock rates closer to each other times that fail it do
  come about (`RunnerTakenForSleeper`, `SleeperTakenForRunner`);
* a write into a file also cuts off what follows it (`HelloFs.WroteWithin`), and
  a create with a name that is too long uses up a block
  (`HelloFs.FileSystem.Create`).

## Model

| member | source | states |
|---|---|---|
| BusyLock.EncodeFields | asgn3/vm_page.h:190-204 | the four fields of the busy word can be read back from the encoded integer |
| BusyLock.EncodeInjective | asgn3/vm_page.h:190-204 | two words with the same encoding are the same word |
| BusyLock.EncodeUpdates | asgn3/vm_page.h:190-204 | adding or removing a sharer or the waiters bit is the arithmetic the code does on the integer |
| BusyLock.StepKeepsInv | asgn3/vm_page.c:762-970 | a step that meets its local obligations keeps the invariant for all other threads |
| BusyLock.AdvanceOk | asgn3/vm_page.c:762-970 | every step inside downgrade, sunbusy, trysbusy, busy_sleep, xunbusy and flash meets them |
| BusyLock.NextKeepsInv | asgn3/vm_page.c:762-970 | every step of every thread, calls included, keeps the invariant |
| BusyLock.RunKeepsInv | asgn3/vm_page.c:762-970 | the invariant holds in every state of every interleaving |
| BusyLock.BusyWordSafe | asgn3/vm_page.c:762-892 | in every interleaving the word says exactly who holds the page: one exclusive holder, or the number of sharers, never both; no assertion fails |
| BusyLock.NoSleeperLost | asgn3/vm_page.c:846-970 | while nobody has the page lock, a sleeper has the waiters bit set and a holder that will have to wake it; one that waits for an exclusive holder has one |
| BusyLock.SleeperAnnounced | asgn3/vm_page.c:762-970 | a sleeper without the waiters bit is about to be woken by the owner of the page lock |
| BusyLock.XunbusyReleases | asgn3/vm_page.c:894-944 | a vm_page_xunbusy that has returned passed one step at which its exclusive hold went and the word became VPB_UNBUSIED; no other step of it changed a hold; it has the page lock exactly if it was called with it |
| BusyLock.SunbusyReleases | asgn3/vm_page.c:808-844 | a vm_page_sunbusy that has returned gave back exactly one of its shared holds, and has not kept the page lock |
| BusyLock.DowngradeShares | asgn3/vm_page.c:762-787 | a vm_page_busy_downgrade that has returned turned its exclusive hold into the one shared hold in a single step |
| BusyLock.TryXbusyTakes | asgn3/vm_page.h:568-570 | vm_page_tryxbusy takes the page exactly if nobody holds it, exclusively or shared |
| BusyLock.TrysbusyTakes | asgn3/vm_page.c:880-892 | a vm_page_trysbusy that has returned added one shared hold exactly if there was no exclusive holder at its last step, and changed nothing before |
| BusyLock.FlashWakesAll | asgn3/vm_page.c:945-970 | when vm_page_flash returns nobody is asleep any more and the waiters bit has been clear; it changed no hold |
| BusyLock.BusySleepReturns | asgn3/vm_page.c:846-871 | a vm_page_busy_sleep returns without the page lock, either after a sleep or because the page needed no wait at one of its steps; it changed no hold |
| BusyLock.ReturnsIfLeftAlone | asgn3/vm_page.c:762-970 | in every reachable state, a thread that can get the page lock and runs alone ends its call, or falls asleep, within eight steps |
| PageDaemon.StepKeepsInv | asgn3/vm_pageout.c:1808-1872 | a step that respects the others keeps the invariant |
| PageDaemon.RunKeepsInv | asgn3/vm_pageout.c:1808-1872 | the handshake invariant holds in every state of every run |
| PageDaemon.NeverBothAsleep | asgn3/vm_pageout.c:1808-2012 | while the mutex is free: a waiting thread implies vm_pages_needed, a sleeping daemon implies its opposite, so the two are never both asleep |
| PageDaemon.IdleScanOnlyWithoutWaiters | asgn3/vm_pageout.c:1843-1870 | a daemon's timed sleep runs out, for an idle scan, only when nobody waits |
| PageDaemon.OtherScansReclaim | asgn3/vm_pageout.c:1808-1872 | a remark on the loop head: the scan that follows is an idle one (pass 0) exactly after a timeout |
| PageDaemon.NoRequestLost | asgn3/vm_pageout.c:1808-2012 | a run that comes to a state in which a request is pending, a daemon sleeps and nobody is about to wake it contains a step in which pagedaemon_wakeup set vm_pageout_wanted while a daemon was about to sleep: at its mtx_sleep, or at its test of vm_pages_needed with that clear |
| PageDaemon.RequestIsServed | asgn3/vm_pageout.c:1808-2012 | a request made while no daemon is about to sleep is not lost while it is pending, whatever was lost before and whatever other callers of pagedaemon_wakeup do |
| PageDaemon.DemandIsServed | asgn3/vm_pageout.c:1993-2012 | a request of pagedaemon_wait is never lost while it is pending |
| PageDaemon.RequestCanBeLost | asgn3/vm_pageout.c:1808-1986 | from every reachable state in which a caller is about to set the flag while a daemon is about to sleep, the run can go on, with the flag set all the time, to a state in which the request is lost |
| PageDaemon.RequestLostExactly | asgn3/vm_pageout.c:1808-1986 | in every reachable state, the request that a caller is about to make can be lost exactly if a daemon is about to sleep |
| PageDaemon.AdvisoryWakeupCanBeLost | asgn3/vm_pageout.c:1976-1986 | the circumstances of RequestCanBeLost arise: a run in which a daemon sleeps with a request pending that nobody will wake it for |
| PageDaemon.AdviceIgnoredWhileWanted | asgn3/vm_pageout.c:1976-1986 | a remark: while vm_pageout_wanted is set, a further advisory wakeup has no effect |
| PageDaemon.WaiterAlwaysWakesSleepingDaemon | asgn3/vm_pageout.c:1993-2012 | a thread that is about to wait always wakes the sleeping daemons first |
| PageDaemon.FreeingWakesWaiters | asgn3/vm_page.c:2834-2857 | when vm_page_free_wakeup is done, each of the two flags is clear and its queue empty if the test on free memory said so, and both are as they were if not |
| PageDaemon.DaemonWakesWaiters | asgn3/vm_pageout.c:1811-1826 | the same for the wakeup at the head of the worker loop |
| PageDaemon.TargetMetClearsRequest | asgn3/vm_pageout.c:1828-1834 | the worker takes back vm_pageout_wanted if the target is met, and leaves a request alone if it is not |
| PageDaemon.ScanLevels | asgn3/vm_pageout.c:1836-1872 | where the worker leaves the loop head, pass is one more than before, at least 1 after a rescan, and 1 after a wakeup |
| PageDaemon.NeverWaitsForItself | asgn3/vm_page.c:2596-2611 | in every reachable state the page daemon is never on the queue of the threads that wait for it, and nobody else is on its queue |
| OomVote.RunKeepsInv | asgn3/vm_pageout.c:1566-1614 | the vote invariant holds in every state of every interleaving of the domains |
| OomVote.VoteIsCount | asgn3/vm_pageout.c:1566-1614 | the vote stays between 0 and the number of domains, and between calls is the number of domains with vmd_oom set |
| OomVote.KillerNeedsQuorum | asgn3/vm_pageout.c:1571-1614 | when the killer runs, a domain has fewer than vm_pageout_oom_seq failed scans in a row exactly if its last scan made progress and it has cleared vmd_oom but not yet subtracted its vote |
| OomVote.VoteLastsOneScan | asgn3/vm_pageout.c:1571-1592 | voting resets vmd_oom_seq, so the next scan of the domain withdraws the vote, even if it fails, unless the threshold is at most 1 (0 if it succeeds) |
| OomVote.KillerDespiteProgress | asgn3/vm_pageout.c:1571-1614 | a run in which the killer starts although another domain's latest scan made progress |
| OomVote.KillerTakesBack | asgn3/vm_pageout.c:1605-1614 | a domain that ran the killer has withdrawn its vote when its call ends, whatever the others do meanwhile |
| ObjectIndex.IndexIsList | asgn3/vm_page.c:1247-1396 | index and list of a consistent object hold the same pages under the same indices; the resident count is the number of both |
| ObjectIndex.LookupPlace | asgn3/vm_page.c:1253-1254 | the less-or-equal lookup finds the list entry right before the place for the index |
| ObjectIndex.LookupGivesPredecessor | asgn3/vm_page.c:1276-1289 | what the lookup returns satisfies the assertions that vm_page_insert_after makes about mpred |
| ObjectIndex.PredecessorPlace | asgn3/vm_page.c:1276-1289 | whatever satisfies these assertions marks the one place where the list stays sorted, and the index is free |
| ObjectIndex.InsertKeeps | asgn3/vm_page.c:1267-1353 | inserting a page keeps every object consistent: list strictly sorted, index and count in step |
| ObjectIndex.RemoveKeeps | asgn3/vm_page.c:1363-1396 | removing a page keeps every object consistent |
| ObjectIndex.InsertRemove | asgn3/vm_page.c:1267-1396 | removing what was inserted restores list, index and count |
| ObjectIndex.ReplaceKeeps | asgn3/vm_page.c:1479-1516 | replacing a page keeps every object consistent |
| ObjectIndex.RenameKeeps | asgn3/vm_page.c:1536-1575 | moving a page keeps every object consistent, and the predecessor looked up before the removal is still the right one, unless it is the page itself |
| ObjectIndex.RenameWithinObject | asgn3/vm_page.c:1536-1575 | within one object the predecessor is still on the list after the removal exactly if it is not the page itself |
| ObjectIndex.RenameGoesWrong | asgn3/vm_page.c:1536-1575 | the only page of an object, renamed from index 0 to 1, is its own predecessor, which the removal takes off the list |
| ObjectIndex.Vm.InsertAfter | asgn3/vm_page.c:1267-1304 | inserts at the sorted place; a failed insertion leaves all objects as they were and resets the page's index |
| ObjectIndex.Vm.Insert | asgn3/vm_page.c:1247-1255 | the same, with the predecessor looked up |
| ObjectIndex.Vm.InsertRadixDone | asgn3/vm_page.c:1317-1353 | puts the page behind its predecessor or at the head, and counts it |
| ObjectIndex.Vm.Remove | asgn3/vm_page.c:1363-1396 | takes the page out of list, index and count; a page without object is left alone |
| ObjectIndex.Vm.Replace | asgn3/vm_page.c:1479-1516 | the new page takes the old one's place in list and index; the count stays |
| ObjectIndex.Vm.Rename | asgn3/vm_page.c:1536-1575 | moves the page to the new object and index and dirties it; a failed call changes nothing |
| ObjectIndex.Vm.Lookup | asgn3/vm_page.c:1406-1412 | the object's page with the index, if it has one |
| ObjectIndex.Vm.FindLeast | asgn3/vm_page.c:1422-1431 | the object's page with the least index that is large enough |
| ObjectIndex.Vm.Next | asgn3/vm_page.c:1439-1451 | the page at the next index, if it is there |
| ObjectIndex.Vm.Prev | asgn3/vm_page.c:1459-1471 | the page at the index before, if it is there |
| AllocContig.ObjUnique | asgn3/vm_page.c:1247-1396 | list, index and count of an object are determined by which pages belong to it at which index |
| AllocContig.AllRestored | asgn3/vm_page.c:1930-1948 | if every page is back where it was, so is every object |
| AllocContig.MayTakeAboveFloor | asgn3/vm_page.c:1842-1851 | a request is allowed exactly if it leaves the reserve of its class: the normal one, for the system class the interrupt reserve if that is smaller, for interrupts none |
| AllocContig.AllHandedOut | asgn3/vm_page.c:1869-1955 | every page of a run that was entered has the object, index, busy word and wire count that the request asked for |
| AllocContig.PageAllocator.Enter | asgn3/vm_page.c:1916-1955 | the pages enter the object at consecutive indices until the first insertion that fails |
| AllocContig.PageAllocator.Undo | asgn3/vm_page.c:1933-1942 | all pages of the run become free again, whether they had been entered, begun or not touched |
| AllocContig.PageAllocator.Fill | asgn3/vm_page.c:1916-1955 | either all pages enter the object or all objects are as before and the run is free |
| AllocContig.PageAllocator.AllocContig | asgn3/vm_page.c:1807-1959 | all or nothing: on failure objects, free pages, free count and wire count are those of the entry; success exactly if the reserve for the request class allows it, a run was found and no insertion fails; then every page is busied and wired as asked and the reserve is left |
| AllocContig.PageAllocator.FreeToq | asgn3/vm_page.c:2870-2993 | frees one page and counts it; its panics are excluded |
| GrabPages.GrabbedPrefix | asgn3/vm_page.c:3311-3420 | what is returned are the pages at consecutive indices, all of them unless the call may not wait, still sleeps or has panicked; it panics only on a shared-busy page that it was told to busy exclusively without sleeping |
| GrabPages.PrevIsBelow | asgn3/vm_page.c:3370-3371 | the list predecessor of a page is what a lookup below its index finds |
| GrabPages.TakenAsAsked | asgn3/vm_page.c:3373-3399 | a page that need not be waited for is busied and wired as the flags ask, and never from under an exclusive holder |
| GrabPages.CreatedAsAsked | asgn3/vm_page.c:3400-3415 | a missing page is created at its index, busied and wired as the flags ask; no other page changes |
| GrabPages.VisitIndex | asgn3/vm_page.c:3373-3416 | one index handled at the cursor does what one fresh lookup-or-allocate does; the page it adds is busied and wired as the flags ask and no other changes; a page that is there is waited for, or given up, only while it is busy |
| GrabPages.Advance | asgn3/vm_page.c:3416-3417 | the cursor carried along the list equals fresh lookups at the next index |
| GrabPages.Pages | asgn3/vm_page.c:3340-3420 | walking along the list does the same as looking every index up, for any schedule of waits, grants and refusals, down to the panic |
| PageQueues.DequeueKeeps | asgn3/vm_page.c:2685-2719 | taking a page off its list keeps the invariant: each page on exactly the list its queue field names, counts right, no wired or unmanaged page queued |
| PageQueues.EnqueueKeeps | asgn3/vm_page.c:2728-2746 | putting a page on a list keeps it |
| PageQueues.WireKeeps | asgn3/vm_page.c:3006-3075 | wiring and unwiring keep it, and the wire count stays the number of wired pages |
| PageQueues.MoveMeans | asgn3/vm_page.c:2755-3169 | a move puts the page at the tail of its new list, or right before the marker; no other page changes its queue or its place among the others |
| PageQueues.WarmthRises | asgn3/vm_page.c:2799-2824 | the activity count of an activated page becomes at least 5, and nothing else changes |
| PageQueues.Vm.constructor | asgn3/vm_page.c:394-423 | the queues of a booting system satisfy the invariant: no page is queued or wired, and each inactive list holds its marker |
| PageQueues.Vm.Dequeue | asgn3/vm_page.c:2685-2719 | takes the page off its list and the count |
| PageQueues.Vm.Enqueue | asgn3/vm_page.c:2728-2746 | puts the page at the tail of its list |
| PageQueues.Vm.Requeue | asgn3/vm_page.c:2755-2788 | moves the page to the tail of the list it is on |
| PageQueues.Vm.Activate | asgn3/vm_page.c:2799-2824 | moves an unwired managed page to the active tail and raises its activity count; an active page stays in place |
| PageQueues.Vm.Deactivate | asgn3/vm_page.c:3088-3122 | moves an unwired managed page to the inactive tail, or near its head; an inactive page moves only in the latter case |
| PageQueues.Vm.Launder | asgn3/vm_page.c:3154-3169 | moves an unwired managed page to the tail of the one laundry list |
| PageQueues.Vm.Wire | asgn3/vm_page.c:3006-3031 | the first wiring takes the page off its queue and is counted |
| PageQueues.Vm.Unwire | asgn3/vm_page.c:3049-3075 | the last unwiring is counted, and puts a managed page of an object on the requested queue |
| PageQueues.Vm.FreePrep | asgn3/vm_page.c:2870-2937 | takes the page off its queue and out of its object; false exactly for a held page |
| PageScan.FifoLength | asgn3/vm_pageout.c:1408-1551 | with weight 1 the active scan takes min(n, max(min_scan, shortage, 0)) pages |
| PageScan.ScanLength | asgn3/vm_pageout.c:1408-1551 | with any weight it takes no more, and at least min(n, min_scan) |
| PageScan.SentInOrder | asgn3/vm_pageout.c:1459-1473 | the pages sent to a queue keep their old order |
| PageScan.SentSomewhere | asgn3/vm_pageout.c:1459-1473 | every page taken goes to exactly one of the inactive and the laundry queue |
| PageScan.ReliefCounts | asgn3/vm_pageout.c:1454-1473 | the pages taken relieve the shortage by one for each dirty and by the weight for each clean page |
| PageScan.ShortageIsRelieved | asgn3/vm_pageout.c:1454-1473 | the shortage left is the shortage at the start less that relief, as far as it is above zero |
| PageScan.AllQueuedRight | asgn3/vm_pageout.c:1454-1473 | after the scan a page taken is in the laundry exactly if it is dirty and the pages before it left a shortage, and otherwise inactive |
| PageScan.ActiveScan | asgn3/vm_pageout.c:1413-1550 | takes exactly a prefix of the active list; its pages are appended to the inactive and laundry tails, each to the one its state calls for; nothing else changes; the exact shortage left |
| InactiveScan.FatesAddUp | asgn3/vm_pageout.c:1198-1361 | every entry looked at is kept, freed, laundered or left off the queues, and only one of these |
| InactiveScan.FateIsRight | asgn3/vm_pageout.c:1273-1361 | a held or busy page is left alone, a page that holds data goes to the laundry, or off the queues in a dead object, and only a page without data is freed |
| InactiveScan.AllTreated | asgn3/vm_pageout.c:1194-1363 | every page looked at has been treated so, and no other page has changed |
| InactiveScan.NeverTooMany | asgn3/vm_pageout.c:1198-1361 | no more pages are freed than asked for |
| InactiveScan.LastIsMissed | asgn3/vm_pageout.c:1195-1210 | the scan looks at all entries but the last exactly if those before it hold fewer pages to free than asked for, never at the last one, and then misses a page exactly if the last entry is not the marker |
| InactiveScan.Process | asgn3/vm_pageout.c:1273-1361 | a page that is neither held nor busy is freed, laundered or left, and the marker keeps the place of the scan |
| InactiveScan.InactiveScan | asgn3/vm_pageout.c:1194-1363 | the shortage falls by the pages freed, stuck pages are counted, the rest of the list keeps its order, laundered pages are appended to the laundry list; no page that holds data is freed |
| PageoutCluster.LeftRunPages | asgn3/vm_pageout.c:385-418 | the backward run consists of resident, unbusied, unheld, dirty laundry pages at consecutive indices |
| PageoutCluster.RightRunPages | asgn3/vm_pageout.c:421-440 | the forward run likewise |
| PageoutCluster.ClusterMaximal | asgn3/vm_pageout.c:374-456 | a cluster has at most max pages, and a shorter one cannot be extended on either side |
| PageoutCluster.ClusterAligned | asgn3/vm_pageout.c:374-456 | if the aligned block around the page is dirty, that block is the cluster |
| PageoutCluster.ClusterIsGood | asgn3/vm_pageout.c:351-456 | a cluster is a stretch of resident pages at consecutive indices around the page; each but the page itself is unbusied, unheld, dirty and in the laundry; a stretch that is not full stops for a reason on both sides |
| PageoutCluster.Cluster | asgn3/vm_pageout.c:351-456 | the back-and-forth scan ends, stays inside its array, and flushes exactly that cluster, which is such a stretch |
| ScanContig.AlignedTestOk | asgn3/vm_page.c:2124 | the mask test says whether the address is a multiple of the alignment |
| ScanContig.BoundaryTestOk | asgn3/vm_page.c:2128-2129 | the xor-and-mask test says whether the run lies within one boundary block |
| ScanContig.AlignSkip | asgn3/vm_page.c:2124-2127 | no start that is skipped to reach alignment is aligned |
| ScanContig.BoundarySkip | asgn3/vm_page.c:2128-2132 | no start that is skipped to reach the next boundary stays within one block |
| ScanContig.ExtentSkips | asgn3/vm_page.c:2136-2240 | a page extends the run by what the scan advances, or no page skipped with it can be part of a run |
| ScanContig.ScanNeverReturns | asgn3/vm_page.c:2087-2132 | a request longer than its nonzero boundary, with a page in range that is aligned and a multiple of the boundary: after any number of turns the loop is still at a page where no run may start |
| ScanContig.EndlessRequest | asgn3/vm_page.c:2087-2132 | such a request: three pages with a boundary of two; the loop stays at page 0 for ever |
| ScanContig.RunUsable | asgn3/vm_page.c:2136-2262 | every page of a run is free or relocatable |
| ScanContig.UsableRun | asgn3/vm_page.c:2136-2262 | and every run of usable pages is collected, unless it begins inside a free block that starts before it |
| ScanContig.QualifiesIffSuits | asgn3/vm_page.c:2087-2263 | so a start qualifies exactly if it is in range, aligned, within the boundary, not inside such a block, and followed by enough usable pages |
| ScanContig.Scan | asgn3/vm_page.c:2087-2263 | for every other request the scan ends, and returns the first start that is in range, aligned, within the boundary, not inside a free block and followed by enough usable pages, or none if there is none |
| RunQueue.WrapAround | asgn2/kern_switch.c:328-358 | the first nonempty queue after wrapping around is the cyclically first |
| RunQueue.FirstFromMeans | asgn2/kern_switch.c:328-358 | that is, every queue from the start to it, or to the end and from 0 to it, is empty |
| Lists.AddRemove | asgn2/kern_switch.c:381-416 | adding a thread at either end and removing it restores the queue |
| RunQueue.Runq.SetBit | asgn2/kern_switch.c:364-375 | afterwards a queue has its status bit exactly if it is the given one or had it before, in either layout of the words, and no other bit appears |
| RunQueue.Runq.ClearBit | asgn2/kern_switch.c:292-303 | afterwards a queue has its status bit exactly if it is not the given one and had it before, in either layout of the words, and no other bit appears |
| RunQueue.Runq.Add | asgn2/kern_switch.c:381-398 | puts the thread at the tail, or head, of the queue of its priority; a bit is set exactly if its queue is not empty, and each thread is only on the queue it names |
| RunQueue.Runq.AddPri | asgn2/kern_switch.c:400-416 | the same for a given queue |
| RunQueue.Runq.RemoveIdx | asgn2/kern_switch.c:593-613 | takes the thread off its queue, keeps the bits right, and moves the index on exactly if its queue became empty |
| RunQueue.Runq.FindBit | asgn2/kern_switch.c:309-326 | the lowest nonempty queue |
| RunQueue.Runq.FindBitFrom | asgn2/kern_switch.c:328-358 | the cyclically first nonempty queue, for one word of 64 bits and two of 32 |
| RunQueue.Runq.Check | asgn2/kern_switch.c:441-457 | whether any queue is nonempty |
| RunQueue.Runq.Choose | asgn2/kern_switch.c:504-522 | the head of the lowest nonempty queue |
| RunQueue.Runq.ChooseFrom | asgn2/kern_switch.c:524-543 | the head of the cyclically first nonempty queue |
| Steal.PickSound | asgn2/sched_ule.c:1146-1185 | what is stolen was in the scan and is eligible; nothing is stolen exactly if all but the head of the scan are not eligible (and a lone head neither) |
| Steal.PickIsFirst | asgn2/sched_ule.c:1146-1185 | no thread between the head of the scan and the one picked is eligible |
| Steal.StealComplete | asgn2/sched_ule.c:1146-1185 | starting past queue 0 with a thread at or after the start, no eligible thread is missed |
| Steal.FirstIsMissed | asgn2/sched_ule.c:1146-1185 | an eligible thread is missed exactly if nothing is queued at or after a start other than 0, several threads are queued, and only the first of them is eligible |
| Steal.MissedThread | asgn2/sched_ule.c:1146-1185 | for example with two threads in one queue, the first of which is eligible |
| Steal.RunqStealFrom | asgn2/sched_ule.c:1146-1185 | the scan over words and bits takes the first eligible thread after the head of the scan, failing that its last |
| Steal.RunqSteal | asgn2/sched_ule.c:1190-1214 | the first eligible thread in priority order |
| Lottery.DrawsAreTickets | asgn2/kern_switch.c:545-580 | a thread wins exactly as many of the draws 1..num_tickets as it has tickets |
| Lottery.WinnerExists | asgn2/kern_switch.c:545-580 | every draw has a winner |
| Lottery.WinnerUnique | asgn2/kern_switch.c:545-580 | and only one |
| Lottery.NoTickets | asgn2/kern_switch.c:545-580 | a queue has no ticket exactly if none of its threads has one |
| Lottery.NothingToDraw | asgn2/sched_ule.c:495-501 | that is, exactly if all its threads have the nice value -20 |
| Lottery.LotteryQueue.Add | asgn2/sched_ule.c:494-501 | adds the thread and its 20 + nice tickets to the counts |
| Lottery.LotteryQueue.Choose | asgn2/kern_switch.c:545-580 | divides by zero exactly if threads are queued and all have the nice value -20; otherwise, if any are queued, chooses the winner of the draw and takes it out of the counts |
| Lottery.LotteryQueue.Remove | asgn2/kern_switch.c:586-613 | removing the chosen thread makes the counts those of the queue again |
| ThreadQueue.FreshPlacement | asgn2/sched_ule.c:518-528 | while the indices differ no fresh thread enters the removal slot; a better priority never goes into a later slot; the exact distance from the insert index |
| ThreadQueue.BetterIsServedFirst | asgn2/sched_ule.c:476-536 | a better priority never goes into a queue that is served later, nor into a later slot of the same queue |
| ThreadQueue.PreemptedIsNext | asgn2/sched_ule.c:518-532 | a remark: a preempted timeshare thread is the next that runq_choose_from picks |
| ThreadQueue.AddedRightly | asgn2/sched_ule.c:460-537 | a queued thread has the state, kind and slot that its priority and user call for, and the flag if it may migrate; nothing else of it changes |
| ThreadQueue.AddedInPlace | asgn2/sched_ule.c:460-537 | it is at the tail of its list, or at the head if preempted; no other list, index or load changes |
| ThreadQueue.OffsetSpreads | asgn2/sched_ule.c:518-528 | the batch priorities are spread evenly over the 64 slots, the best at the insert index, the worst right before it |
| ThreadQueue.RemovalIndexCatchesUp | asgn2/sched_ule.c:544-564 | when the last timeshare thread of the removal slot leaves, the removal index becomes the insert index; otherwise it stays |
| ThreadQueue.TickPassesOver | asgn2/sched_ule.c:2474-2482 | a tick moves the insert index by one if the indices are equal, the removal index with it unless both the timeshare and the lottery queue have threads in its slot, and nothing else; so it leaves a nonempty slot behind exactly if the lottery queue has nobody in that slot |
| ThreadQueue.TickLeavesBehind | asgn2/sched_ule.c:2474-2482 | since lottery threads are only queued in slot 0, a tick at which the insert and removal indices are equal and their slot is not empty moves the removal index on, leaving the threads of the slot behind, exactly if that is not slot 0 or no lottery thread waits on the CPU |
| ThreadQueue.AddKeeps | asgn2/sched_ule.c:460-582 | queueing a thread keeps lists and records, load, transferable count and indices right |
| ThreadQueue.RemKeeps | asgn2/sched_ule.c:544-602 | so does dequeueing it, to run it or for good |
| ThreadQueue.BlockKeeps | asgn2/sched_ule.c:588-602 | so does blocking the running thread |
| ThreadQueue.TickKeeps | asgn2/sched_ule.c:2474-2482 | so does a clock tick: the removal index is the insert index or just before it |
| Sched.Scheduler.RunqAdd | asgn2/sched_ule.c:460-537 | the branches of tdq_runq_add: queue, slot, flag and transferable count |
| Sched.Scheduler.RunqRem | asgn2/sched_ule.c:544-564 | takes the thread off its queue, clears its flag and moves the removal index |
| Sched.Scheduler.Add | asgn2/sched_ule.c:2591-2607 | queues a thread on a CPU and adds it to the load |
| Sched.Scheduler.Rem | asgn2/sched_ule.c:2666-2684 | takes a queued thread off and out of the load |
| Sched.Scheduler.Run | asgn2/sched_ule.c:2543-2553 | a queued thread leaves its list to run; the load stays |
| Sched.Scheduler.Requeue | asgn2/sched_ule.c:2110-2115 | the running thread goes back to a queue as tdq_runq_add says; the load stays |
| Sched.Scheduler.Block | asgn2/sched_ule.c:2122-2126 | the running thread leaves the load |
| Sched.Scheduler.Tick | asgn2/sched_ule.c:2474-2482 | the index step of a clock tick |
| CpuSearch.TotalUnion | asgn2/sched_ule.c:778-780 | weights of disjoint groups add up |
| CpuSearch.Step | asgn2/sched_ule.c:782-802 | one more item compared: the answer so far is still the best |
| CpuSearch.BestIsEligible | asgn2/sched_ule.c:703-812 | the CPU at the end of the best path belongs to the group and meets mask, load and priority limits |
| CpuSearch.FoundIffEligible | asgn2/sched_ule.c:703-812 | a CPU is found exactly if some CPU of the group is eligible |
| CpuSearch.Search | asgn2/sched_ule.c:703-812 | returns 256 times the load of the group, less 64 for the preferred CPU, and on each side a CPU whose path has at every level the least (greatest) total among those with an eligible CPU |
| CpuSearch.SearchCpu | asgn2/sched_ule.c:757-780 | weight and eligibility of a single CPU |
| CpuSearch.SchedLowest | asgn2/sched_ule.c:842-855 | the least loaded CPU on the least loaded path; -1 exactly if none is eligible |
| CpuSearch.SchedHighest | asgn2/sched_ule.c:860-870 | the most loaded CPU on the most loaded path; -1 exactly if none is eligible |
| Balance.FlatHighest | asgn2/sched_ule.c:860-870 | in a group without children the search finds the greatest load |
| Balance.TriedAll | asgn2/sched_ule.c:884-914 | each way in which the loop stops without a move leaves nothing to balance |
| Balance.ShiftImproves | asgn2/sched_ule.c:960-983 | a move keeps the total load and lowers the sum of squares by twice the difference of the loads less one |
| Balance.StolenIsMovable | asgn2/sched_ule.c:1219-1234 | what is stolen from a CPU is a queued, unpinned thread of it that may run on the thief |
| Balance.StealOrder | asgn2/sched_ule.c:1219-1234 | nothing is stolen exactly if no queue of the CPU has anything to take: no movable realtime or idle thread, and no movable timeshare or lottery thread but one that the scan of its queue misses; a thread is taken from a queue only if those of better kinds have nothing to take |
| Balance.StealIsRight | asgn2/sched_ule.c:1219-1234 | the thread taken waits on the CPU and may move; no better kind has anything to take; a realtime or idle thread comes from the lowest slot that has a movable one |
| Balance.TdqMove | asgn2/sched_ule.c:988-1017 | moves a thread exactly if the CPU has something to take, moves the right one, and no other; the loads change by one each |
| Balance.BalancePair | asgn2/sched_ule.c:960-983 | a thread moves exactly if there is a transferable one, the loads differ and some queue has something to take |
| Balance.Offer | asgn2/sched_ule.c:884-912 | the loop over targets ends; if the balancer stops here, no remaining CPU is less loaded |
| Balance.BalanceGroup | asgn2/sched_ule.c:872-914 | terminates; threads are kept, only unpinned queued ones move, and only to CPUs they may run on; total load kept, sum of squares not raised, no CPU's load changes by more than one; in a group without children, if no load changes, no CPU with a thread to spare has anything in its queues that a less loaded CPU could take |
| Priority.UpdateSound | asgn2/sched_ule.c:1763-1783 | the recorded ticks stay within the window exactly if a running thread is updated in time; the division is never by zero |
| Priority.UpdateRecords | asgn2/sched_ule.c:1763-1783 | an update of a running thread records 1024 for each tick since the last one; what was recorded before is dropped if the last update is ten seconds ago, cut to the last ten seconds in proportion if the record spans eleven, and else kept |
| Priority.PriTicksBound | asgn2/sched_ule.c:143-170 | the priority offset of a sound history stays within its range |
| Priority.PriTicksCountsSlices | asgn2/sched_ule.c:143-170 | the offset is how often a thirty-second of the window, rounded up, fits into the ticks used |
| Priority.ScoreInRange | asgn2/sched_ule.c:1574-1608 | the interactivity score is between 0 and 100 |
| Priority.ScoreCountsFiftieths | asgn2/sched_ule.c:1574-1608 | a thread that sleeps more scores one for each fiftieth of its sleep that it ran; one that runs more, 100 less those of its run that it slept |
| Priority.ScoreSeparates | asgn2/sched_ule.c:1574-1608 | a thread that mostly runs scores at least 50, and one that mostly sleeps at most 50, exactly if the smaller time is below 51 times the larger divided by 50, rounded down (or, for the former, the threshold is at most 50) |
| Priority.FarApartSeparates | asgn2/sched_ule.c:1574-1608 | which holds whenever the times differ by 50 or more, or the larger is at least 2450 |
| Priority.LimitedOk | asgn2/sched_ule.c:1666-1703 | the decay brings run plus sleep time to at most one above its limit, and does not swap which of the two is greater |
| Priority.LimitedKeeps | asgn2/sched_ule.c:1666-1703 | below the limit both times stay; above it both keep four fifths, or half when far above; above twice the limit only the larger counts |
| Priority.LongTicksSeparate | asgn2/sched_ule.c:1531-1540 | where tickincr is at least 2450, the score separates for all times that wakeups and clock ticks of a new thread lead to, whatever the threshold |
| Priority.RunnerTakenForSleeper | asgn2/sched_ule.c:2264-2493 | at clock rates 128 and 127 and a raised threshold (both are parameters), a wakeup and a clock tick lead to times at which the thread has mostly run and scores 49 |
| Priority.SleeperTakenForRunner | asgn2/sched_ule.c:2264-2493 | at clock rates 100 and 250, with the default threshold, they lead to times at which it has mostly slept and scores 51 |
| Priority.PriorityInRange | asgn2/sched_ule.c:1614-1659 | the priority is in the interactive or the batch range, as asserted, for every nice value |
| Priority.BatchPriority | asgn2/sched_ule.c:1614-1659 | a batch thread has the priority of nice 0 and no use, plus its nice value, plus the slices it has used, 31 at most |
| Priority.InteractivePriority | asgn2/sched_ule.c:1614-1659 | an interactive thread starts at the best priority and loses the same step for each point of score and nice value |
| Priority.PriorityMonotone | asgn2/sched_ule.c:1614-1659 | a higher nice value never gives a better priority |
| Priority.Thread.PctcpuUpdate | asgn2/sched_ule.c:1763-1783 | updates the history; it stays sound exactly under that condition |
| Priority.Thread.ComputePriority | asgn2/sched_ule.c:1614-1659 | computes the priority from score, ticks and nice value |
| Priority.Thread.InteractUpdate | asgn2/sched_ule.c:1666-1703 | brings the two times to their decayed values, of which LimitedOk speaks |
| HelloFs.LoadChain | asgn4/hello.c:289-304 | following the links fills the buffer with the blocks of the chain in order |
| HelloFs.ChainsDisjoint | asgn4/hello.c:256-529 | no block is in two chains, or twice in one |
| HelloFs.StoredContent | asgn4/hello.c:395-434 | after the blocks have been written back the chain holds the buffer |
| HelloFs.WriteResult | asgn4/hello.c:324-442 | a write keeps the image sound and changes exactly the one file |
| HelloFs.WroteWithin | asgn4/hello.c:324-442 | a write at an offset within the file leaves old[..offset] followed by the data: it cuts off the rest |
| HelloFs.ReadBack | asgn4/hello.c:256-442 | reading what was written gives it back |
| HelloFs.CreateResult | asgn4/hello.c:477-529 | a create adds one empty file and keeps the image sound |
| HelloFs.FileSystem.constructor | asgn4/hello.c:540-570 | a zeroed image is sound and has no files |
| HelloFs.FileSystem.Lookup | asgn4/hello.c:271-282 | finds the first block of the file, if it exists |
| HelloFs.FileSystem.FindFree | asgn4/hello.c:498-512 | finds a free block, or there is none |
| HelloFs.FileSystem.Store | asgn4/hello.c:395-434 | writes the buffer back along the chain, extending it; fails exactly if too few blocks are free |
| HelloFs.FileSystem.Read | asgn4/hello.c:256-323 | for a file, exactly the bytes from the offset on, as many as asked for or as there are, and none at or past its end; an error for any other path |
| HelloFs.FileSystem.Rewrite | asgn4/hello.c:361-437 | loads the file, changes it and stores it again |
| HelloFs.FileSystem.Write | asgn4/hello.c:324-442 | the outcome of a write for existing and missing files, too large requests and a full disk |
| HelloFs.FileSystem.Create | asgn4/hello.c:477-529 | the outcome of a create, and what it does to the free blocks |
| HelloFs.FileSystem.CreateWriteRead | asgn4/hello.c:256-529 | a new file reads back what was written into it, and no other file changes |
| Isqrt.IntegerSqrt | asgn3/vm_pageout.c:909-928 | r*r <= n < (r+1)*(r+1) for every 32-bit n, without overflow |
| Isqrt.RootUnique | asgn3/vm_pageout.c:909-928 | only one number satisfies that |
| Isqrt.RootStep | asgn3/vm_pageout.c:915-926 | each turn of the loop fixes one more binary digit of the root |
| Bits.AndLowMask | asgn3/vm_page.c:2124 | masking with a power of two less one is the remainder |
| Bits.AndHighMask | asgn3/vm_page.c:2128-2129 | masking with its complement rounds down |
| Bits.RoundDown2Power | asgn3/vm_page.c:2128-2129 | rounddown2 rounds down to a multiple |
| Bits.RoundUp2Power | asgn3/vm_page.c:2124-2132 | roundup2 gives the next multiple |
| Bits.SameBlock | asgn3/vm_page.c:2128-2129 | rounding down the exclusive or gives zero exactly if both addresses are in the same block |

## Left out

- BusyLock.BusyWordSafe: sharer counts beyond the width of the word are not modelled; every thread that asks for a lock it already has is excluded, as the code's own assertions demand.
- ObjectIndex.Vm.Rename: required not to be its own predecessor; RenameWithinObject says what goes wrong otherwise.
- PageDaemon.OtherScansReclaim: says that such a scan is a reclaiming one, not that it frees pages.
- AllocContig.PageAllocator.AllocContig: waiting and retrying, memory attributes, reservations and the count of zeroed pages are not modelled; a page that could not be entered has its index reset.
- AllocContig.PageAllocator.FreeToq: pages of a contiguous allocation only, which are neither managed nor held; PageQueues.Vm.FreePrep models what happens to the others.
- GrabPages.Pages: pages that have been grabbed are assumed to stay in the object while the call sleeps; the flags NOBUSY and SBUSY are not given together.
- PageScan.ActiveScan: page locks are always obtained, so the retry with a marker is not modelled; the computation of min_scan and of the shortage is left to the caller.
- InactiveScan.InactiveScan: page and object locks are always obtained; what follows the loop (laundry requests, swapping) is not modelled.
- CpuSearch.Search: the loads are one snapshot, while the code reads them without locks; the summed load times 256 must fit into an int.
- Balance.BalanceGroup: all queues are taken as locked throughout; tdq_lowpri, notification of the target CPU and tdq_idled are not modelled.
- Sched.Scheduler.Run: which thread tdq_choose picks is left open; RunQueue and Lottery describe the choices within a queue.
- Sched.Scheduler.Requeue: a running thread that has to move to another CPU (sched_switch_migrate) is not modelled.
- Lottery.LotteryQueue.Choose: the least and greatest ticket counts are not modelled, and neither are the removals by sched_rem and the peeks by tdq_setlowpri, which let the counters drift.
- HelloFs.FileSystem.Write: files of at most 32 blocks of 4016 bytes, since the code loads a 33rd block beyond the end of its buffer of 128 kB, or requests above 128 kB, which are refused; offset plus size below 2^31; after a full disk only the soundness of the bitmap and the chains in memory is stated.
- ScanContig.Scan: page and object locks are taken as held throughout.
- Priority.LongTicksSeparate: the changes that forking and reaping a child make to the two times are not modelled.
- Priority.Thread.PctcpuUpdate: tick counters do not wrap around.
- The statistics block of vm_pageout_scan, the laundry thread, vm_pageout_launder and the victim choice of the out-of-memory killer.
- hello_truncate, hello_open, hello_unlink, hello_getattr and hello_readdir; timestamps and errno text.
- runq_choose_fuzz, critical sections and preemption; tdq_slice, sched_pickcpu and the idle thread.
- Boot-time sizing, blacklists, fictitious pages, topology printing, and everything of asgn1.
