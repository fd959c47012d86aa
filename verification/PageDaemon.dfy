/**
  The sleep/wakeup handshake between threads that wait for free pages and the
  page daemons (asgn3/vm_pageout.c:1799-1872 and 1976-2012,
  asgn3/vm_page.c:2596-2611, 2641-2665 and 2834-2857), as a transition system with one step
  per shared access.  Everything except pagedaemon_wakeup runs under the free
  queue mutex; pagedaemon_wakeup, whose callers must not own it, reads and writes
  `wanted` at any time.

  Whether enough pages are free, whether a scan met its target and when a timed
  sleep expires are left open: every step may go either way.  There may be any
  number of daemons (one for each memory domain).
 */
module PageDaemon {
  import opened Wrappers

  type Tid = nat

  datatype Kind = Ordinary | Daemon | Helper  // Helper: another thread of the page daemon's process

  datatype PC =
    | Idle                  // outside the functions modelled here
    | AdvTest               // pagedaemon_wakeup: `if (!vm_pageout_wanted && ...)`
    | AdvSet                //   vm_pageout_wanted = true
    | AdvWake               //   wakeup(&vm_pageout_wanted)
    | Locked                // holds the free queue mutex
    | WaitTest              // pagedaemon_wait: `if (!vm_pageout_wanted || !vm_pages_needed)`
    | WaitSet
    | WaitWake
    | WaitNeed              //   vm_pages_needed = true
    | WaitSleep             //   msleep(&v_free_count, PDROP)
    | WaitAsleep
    | ProcNeed              // _vm_wait by a thread of the daemon's process
    | ProcSleep
    | ProcAsleep
    | FreeTest              // vm_page_free_wakeup
    | FreeWakeProc
    | FreeClearProc
    | FreeTestMin
    | FreeClear             //   vm_pages_needed = false
    | FreeWake              //   wakeup(&v_free_count)
    | TopLock    // vm_pageout_worker, head of the loop: mtx_lock
    | TopTestMin
    | TopClear
    | TopWake
    | TopTestMet
    | TopClearWanted
    | TopTestWanted
    | TopAgain   //   wanted: unlock, pause, scan one level higher
    | TopTestNeeded
    | TopRescan  //   waiters: unlock and scan at level 1 or more
    | TopSleep              //   mtx_sleep(&vm_pageout_wanted, PDROP, hz)
    | DaemonAsleep

  datatype State = State(
    kind: map<Tid, Kind>,
    pc: map<Tid, PC>,
    mtx: Option<Tid>,
    wanted: bool,       // vm_pageout_wanted
    needed: bool,       // vm_pages_needed
    procNeeded: bool,   // vm_pageout_pages_needed
    pass: map<Tid, nat>,      // each daemon's scan level
    daemonsAsleep: set<Tid>,  // the sleep queue of &vm_pageout_wanted
    waiters: set<Tid>,        // that of &vm_cnt.v_free_count
    procWaiters: set<Tid>     // that of &vm_pageout_pages_needed
  )

  function At(s: State, t: Tid, p: PC): State {
    s.(pc := s.pc[t := p])
  }

  // ---- steps ---------------------------------------------------------------

  /** The operations a thread may begin, and the ways in which an open test may go. */
  datatype Move =
    | LockMutex | UnlockMutex
    | Advise              // call pagedaemon_wakeup, which asserts that the mutex is not owned
    | WaitForPages        // call pagedaemon_wait or _vm_wait with the mutex held
    | FreePages           // call vm_page_free_wakeup with the mutex held
    | Timeout             // mtx_sleep returned EWOULDBLOCK
    | FinishScan
    | Go(yes: bool)       // the next step; `yes` decides a test on free memory or on the target

  predicate MayMove(s: State, t: Tid, m: Move) {
    t in s.pc && t in s.kind && t in s.pass &&
    match m
    case LockMutex => s.pc[t] == Idle && s.mtx == None
    case UnlockMutex => s.pc[t] == Locked
    case Advise => s.pc[t] == Idle
    case WaitForPages => s.pc[t] == Locked
    case FreePages => s.pc[t] == Locked
    case Timeout => s.pc[t] == DaemonAsleep && t in s.daemonsAsleep
    case FinishScan => s.kind[t] == Daemon && s.pc[t] == Idle
    case Go(_) =>
      match s.pc[t]
      case Idle => false
      case Locked => false
      case WaitAsleep => t !in s.waiters
      case ProcAsleep => t !in s.procWaiters
      case DaemonAsleep => t !in s.daemonsAsleep
      case TopLock => s.mtx == None
      case _ => true
  }

  function Begin(s: State, t: Tid, m: Move): State
    requires MayMove(s, t, m) && !m.Go?
  {
    match m
    case LockMutex => At(s, t, Locked).(mtx := Some(t))
    case UnlockMutex => At(s, t, Idle).(mtx := None)
    case Advise => At(s, t, AdvTest)
    case WaitForPages => At(s, t, if s.kind[t] == Ordinary then WaitTest else ProcNeed)
    case FreePages => At(s, t, FreeTest)
    case Timeout => At(s, t, Idle).(pass := s.pass[t := 0], daemonsAsleep := s.daemonsAsleep - {t})
    case FinishScan => At(s, t, TopLock)
  }

  predicate InAdvice(p: PC) { p.AdvTest? || p.AdvSet? || p.AdvWake? }

  predicate InWait(p: PC) {
    p.WaitTest? || p.WaitSet? || p.WaitWake? || p.WaitNeed? || p.WaitSleep? || p.WaitAsleep?
    || p.ProcNeed? || p.ProcSleep? || p.ProcAsleep?
  }

  predicate InFree(p: PC) {
    p.FreeTest? || p.FreeWakeProc? || p.FreeClearProc? || p.FreeTestMin? || p.FreeClear? || p.FreeWake?
  }

  /** pagedaemon_wakeup (vm_pageout.c:1976-1986); it takes no lock itself. */
  function AdviceStep(s: State, t: Tid): State
    requires t in s.pc && t in s.kind && InAdvice(s.pc[t])
  {
    match s.pc[t]
    case AdvTest => At(s, t, if !s.wanted && s.kind[t] == Ordinary then AdvSet else Idle)
    case AdvSet => At(s, t, AdvWake).(wanted := true)
    case AdvWake => At(s, t, Idle).(daemonsAsleep := {})
  }

  /** pagedaemon_wait (vm_pageout.c:1993-2012) and the page process's own wait (vm_page.c:2600-2603). */
  function WaitStep(s: State, t: Tid): State
    requires t in s.pc && InWait(s.pc[t])
  {
    match s.pc[t]
    case WaitTest => At(s, t, if !s.wanted || !s.needed then WaitSet else WaitNeed)
    case WaitSet => At(s, t, WaitWake).(wanted := true)
    case WaitWake => At(s, t, WaitNeed).(daemonsAsleep := {})
    case WaitNeed => At(s, t, WaitSleep).(needed := true)
    case WaitSleep => At(s, t, WaitAsleep).(mtx := None, waiters := s.waiters + {t})
    case WaitAsleep => At(s, t, Idle)
    case ProcNeed => At(s, t, ProcSleep).(procNeeded := true)
    case ProcSleep => At(s, t, ProcAsleep).(mtx := None, procWaiters := s.procWaiters + {t})
    case ProcAsleep => At(s, t, Idle)
  }

  /** vm_page_free_wakeup (vm_page.c:2834-2857). */
  function FreeStep(s: State, t: Tid, enough: bool): State
    requires t in s.pc && InFree(s.pc[t])
  {
    match s.pc[t]
    case FreeTest => At(s, t, if s.procNeeded && enough then FreeWakeProc else FreeTestMin)
    case FreeWakeProc => At(s, t, FreeClearProc).(procWaiters := {})
    case FreeClearProc => At(s, t, FreeTestMin).(procNeeded := false)
    case FreeTestMin => At(s, t, if s.needed && enough then FreeClear else Locked)
    case FreeClear => At(s, t, FreeWake).(needed := false)
    case FreeWake => At(s, t, Locked).(waiters := {})
  }

  predicate InTop(p: PC) {
    p.TopLock? || p.TopTestMin? || p.TopClear? || p.TopWake? || p.TopTestMet? || p.TopClearWanted?
    || p.TopTestWanted? || p.TopAgain? || p.TopTestNeeded? || p.TopRescan? || p.TopSleep? || p.DaemonAsleep?
  }

  /** The head of vm_pageout_worker's loop (vm_pageout.c:1808-1872); Idle is the scan after it. */
  function TopStep(s: State, t: Tid, yes: bool): State
    requires t in s.pc && t in s.pass && InTop(s.pc[t])
  {
    match s.pc[t]
    case TopLock => At(s, t, TopTestMin).(mtx := Some(t))
    case TopTestMin => At(s, t, if s.needed && yes then TopClear else TopTestMet)
    case TopClear => At(s, t, TopWake).(needed := false)
    case TopWake => At(s, t, TopTestMet).(waiters := {})
    case TopTestMet => At(s, t, if s.wanted && yes then TopClearWanted else TopTestWanted)
    case TopClearWanted => At(s, t, TopTestWanted).(wanted := false)
    case TopTestWanted => At(s, t, if s.wanted then TopAgain else TopTestNeeded)
    case TopAgain => At(s, t, Idle).(mtx := None, pass := s.pass[t := s.pass[t] + 1])
    case TopTestNeeded => At(s, t, if s.needed then TopRescan else TopSleep)
    case TopRescan =>
      At(s, t, Idle).(mtx := None, pass := s.pass[t := if s.pass[t] == 0 then 1 else s.pass[t]])
    case TopSleep => At(s, t, DaemonAsleep).(mtx := None, daemonsAsleep := s.daemonsAsleep + {t})
    case DaemonAsleep => At(s, t, Idle).(pass := s.pass[t := 1])
  }

  function Step(s: State, t: Tid, m: Move): State
    requires MayMove(s, t, m)
  {
    if !m.Go? then Begin(s, t, m)
    else if InAdvice(s.pc[t]) then AdviceStep(s, t)
    else if InWait(s.pc[t]) then WaitStep(s, t)
    else if InFree(s.pc[t]) then FreeStep(s, t, m.yes)
    else TopStep(s, t, m.yes)
  }

  ghost predicate Init(s: State) {
    && s.mtx == None && !s.needed && !s.procNeeded
    && s.daemonsAsleep == s.waiters == s.procWaiters == {}
    && s.kind.Keys == s.pc.Keys == s.pass.Keys
    && forall t | t in s.pc :: s.pass[t] == 0 && s.pc[t] == if s.kind[t] == Daemon then TopLock else Idle
  }

  ghost predicate Next(s: State, s': State) {
    exists t, m :: MayMove(s, t, m) && s' == Step(s, t, m)
  }

  ghost predicate IsRun(run: seq<State>) {
    && |run| > 0 && Init(run[0])
    && forall i, j | 0 <= i < j < |run| && j == i + 1 :: Next(run[i], run[j])
  }

  // ---- the invariant -------------------------------------------------------

  /** Everything but resting, sleeping, asking for the mutex and advising is done under the mutex. */
  predicate HoldsMutex(p: PC) {
    match p
    case Idle => false
    case AdvTest => false
    case AdvSet => false
    case AdvWake => false
    case WaitAsleep => false
    case ProcAsleep => false
    case TopLock => false
    case DaemonAsleep => false
    case _ => true
  }

  ghost predicate ThreadOk(s: State, t: Tid)
    requires t in s.pc
  {
    && (HoldsMutex(s.pc[t]) <==> s.mtx == Some(t))
    && (s.pc[t] == WaitNeed ==> s.daemonsAsleep == {})
    && (s.pc[t] == WaitSleep ==> s.needed)
    && (s.pc[t] == ProcSleep ==> s.procNeeded)
    && (s.pc[t] == FreeClearProc ==> s.procWaiters == {})
    && (s.pc[t] == TopSleep ==> !s.needed)
  }

  /** vm_pages_needed has just been cleared and wakeup(&v_free_count) follows. */
  ghost predicate WakeupOwed(s: State) {
    s.mtx.Some? && s.mtx.value in s.pc && (s.pc[s.mtx.value].FreeWake? || s.pc[s.mtx.value].TopWake?)
  }

  ghost predicate Inv(s: State) {
    && s.kind.Keys == s.pc.Keys == s.pass.Keys
    && (forall t | t in s.pc :: ThreadOk(s, t))
    && QueuesOk(s)
  }

  /** What a step of `t` leaves alone. */
  ghost predicate Respects(s: State, s': State, t: Tid) {
    && t in s.pc && s'.pc.Keys == s.pc.Keys && s'.kind == s.kind && s'.pass.Keys == s.pass.Keys
    && (forall u | u in s.pc && u != t :: s'.pc[u] == s.pc[u] && (s.mtx == Some(u) <==> s'.mtx == Some(u)))
    && (s.mtx != Some(t) ==>
          && s'.needed == s.needed && s'.procNeeded == s.procNeeded && s'.waiters == s.waiters
          && s'.procWaiters == s.procWaiters && s'.daemonsAsleep <= s.daemonsAsleep)
  }

  /** The part of the invariant that ties the sleep queues to the flags. */
  ghost predicate QueuesOk(s: State) {
    && (s.waiters == {} || s.needed || WakeupOwed(s))
    && (s.needed ==> s.daemonsAsleep == {})
    && (s.procWaiters == {} || s.procNeeded)
  }

  ghost predicate GoodStep(s: State, s': State, t: Tid) {
    Respects(s, s', t) && ThreadOk(s', t) && QueuesOk(s')
  }

  lemma StepKeepsInv(s: State, s': State, t: Tid)
    requires Inv(s) && t in s.pc && GoodStep(s, s', t)
    ensures Inv(s')
  {
    assert ThreadOk(s, t);
    forall u | u in s'.pc
      ensures ThreadOk(s', u)
    {
      assert ThreadOk(s, u);
    }
  }

  lemma MutexMoveOk(s: State, t: Tid, m: Move)
    requires QueuesOk(s) && t in s.pc && ThreadOk(s, t) && MayMove(s, t, m) && (m.LockMutex? || m.UnlockMutex?)
    ensures GoodStep(s, Begin(s, t, m), t)
  {
  }

  lemma TimeoutOk(s: State, t: Tid)
    requires QueuesOk(s) && t in s.pc && ThreadOk(s, t) && MayMove(s, t, Timeout)
    ensures GoodStep(s, Begin(s, t, Timeout), t)
  {
  }

  lemma EnterOk(s: State, t: Tid, m: Move)
    requires QueuesOk(s) && t in s.pc && ThreadOk(s, t) && MayMove(s, t, m)
    requires m.Advise? || m.WaitForPages? || m.FreePages? || m.FinishScan?
    ensures GoodStep(s, Begin(s, t, m), t)
  {
  }

  lemma AdviceOk(s: State, t: Tid)
    requires QueuesOk(s) && t in s.pc && ThreadOk(s, t) && t in s.kind && InAdvice(s.pc[t])
    ensures GoodStep(s, AdviceStep(s, t), t)
  {
  }

  lemma WaitHeadOk(s: State, t: Tid)
    requires QueuesOk(s) && t in s.pc && ThreadOk(s, t) && (s.pc[t].WaitTest? || s.pc[t].WaitSet? || s.pc[t].WaitWake?)
    ensures GoodStep(s, WaitStep(s, t), t)
  {
  }

  lemma WaitTailOk(s: State, t: Tid)
    requires QueuesOk(s) && t in s.pc && ThreadOk(s, t) && (s.pc[t].WaitNeed? || s.pc[t].WaitSleep? || s.pc[t].WaitAsleep?)
      && (s.pc[t].WaitAsleep? ==> t !in s.waiters)
    ensures GoodStep(s, WaitStep(s, t), t)
  {
  }

  lemma ProcWaitOk(s: State, t: Tid)
    requires QueuesOk(s) && t in s.pc && ThreadOk(s, t) && (s.pc[t].ProcNeed? || s.pc[t].ProcSleep? || s.pc[t].ProcAsleep?)
      && (s.pc[t].ProcAsleep? ==> t !in s.procWaiters)
    ensures GoodStep(s, WaitStep(s, t), t)
  {
  }

  lemma FreeHeadOk(s: State, t: Tid, enough: bool)
    requires QueuesOk(s) && t in s.pc && ThreadOk(s, t) && (s.pc[t].FreeTest? || s.pc[t].FreeWakeProc? || s.pc[t].FreeClearProc?)
    ensures GoodStep(s, FreeStep(s, t, enough), t)
  {
  }

  lemma FreeTailOk(s: State, t: Tid, enough: bool)
    requires QueuesOk(s) && t in s.pc && ThreadOk(s, t) && (s.pc[t].FreeTestMin? || s.pc[t].FreeClear? || s.pc[t].FreeWake?)
    ensures GoodStep(s, FreeStep(s, t, enough), t)
  {
  }

  lemma TopHeadOk(s: State, t: Tid, yes: bool)
    requires QueuesOk(s) && t in s.pc && ThreadOk(s, t) && t in s.pass
    requires (s.pc[t].TopLock? || s.pc[t].TopTestMin? || s.pc[t].TopClear? || s.pc[t].TopWake?)
      && (s.pc[t].TopLock? ==> s.mtx == None)
    ensures GoodStep(s, TopStep(s, t, yes), t)
  {
  }

  lemma TopMiddleOk(s: State, t: Tid, yes: bool)
    requires QueuesOk(s) && t in s.pc && ThreadOk(s, t) && t in s.pass
    requires s.pc[t].TopTestMet? || s.pc[t].TopClearWanted? || s.pc[t].TopTestWanted?
    ensures GoodStep(s, TopStep(s, t, yes), t)
  {
  }

  lemma TopTailOk(s: State, t: Tid, yes: bool)
    requires QueuesOk(s) && t in s.pc && ThreadOk(s, t) && t in s.pass
    requires s.pc[t].TopAgain? || s.pc[t].TopTestNeeded? || s.pc[t].TopRescan?
    ensures GoodStep(s, TopStep(s, t, yes), t)
  {
  }

  lemma TopSleepOk(s: State, t: Tid, yes: bool)
    requires QueuesOk(s) && t in s.pc && ThreadOk(s, t) && t in s.pass && s.pc[t].TopSleep?
    ensures GoodStep(s, TopStep(s, t, yes), t)
  {
  }

  lemma WokenOk(s: State, t: Tid, yes: bool)
    requires QueuesOk(s) && t in s.pc && ThreadOk(s, t) && t in s.pass && s.pc[t].DaemonAsleep? && t !in s.daemonsAsleep
    ensures GoodStep(s, TopStep(s, t, yes), t)
  {
  }

  lemma StepOk(s: State, t: Tid, m: Move)
    requires Inv(s) && MayMove(s, t, m)
    ensures GoodStep(s, Step(s, t, m), t)
  {
    assert ThreadOk(s, t);
    match m
    case LockMutex => MutexMoveOk(s, t, m);
    case UnlockMutex => MutexMoveOk(s, t, m);
    case Timeout => TimeoutOk(s, t);
    case Go(yes) =>
      var p := s.pc[t];
      if InAdvice(p) { AdviceOk(s, t); }
      else if p.WaitTest? || p.WaitSet? || p.WaitWake? { WaitHeadOk(s, t); }
      else if p.WaitNeed? || p.WaitSleep? || p.WaitAsleep? { WaitTailOk(s, t); }
      else if InWait(p) { ProcWaitOk(s, t); }
      else if p.FreeTest? || p.FreeWakeProc? || p.FreeClearProc? { FreeHeadOk(s, t, yes); }
      else if InFree(p) { FreeTailOk(s, t, yes); }
      else if p.TopLock? || p.TopTestMin? || p.TopClear? || p.TopWake? { TopHeadOk(s, t, yes); }
      else if p.TopTestMet? || p.TopClearWanted? || p.TopTestWanted? { TopMiddleOk(s, t, yes); }
      else if p.TopSleep? { TopSleepOk(s, t, yes); }
      else if p.DaemonAsleep? { WokenOk(s, t, yes); }
      else { TopTailOk(s, t, yes); }
    case _ => EnterOk(s, t, m);
  }

  lemma NextKeepsInv(s: State, s': State)
    requires Inv(s) && Next(s, s')
    ensures Inv(s')
  {
    var t, m :| MayMove(s, t, m) && s' == Step(s, t, m);
    StepOk(s, t, m);
    StepKeepsInv(s, s', t);
  }

  // ---- what holds over every run -------------------------------------------

  lemma {:induction false} RunKeepsInv(run: seq<State>, i: nat)
    requires IsRun(run) && i < |run|
    ensures Inv(run[i])
  {
    if i > 0 {
      RunKeepsInv(run, i - 1);
      NextKeepsInv(run[i - 1], run[i]);
    }
  }

  /**
    While nobody has the free queue mutex, a thread asleep for free pages means
    that vm_pages_needed is set, a sleeping daemon means that it is clear, and
    so no thread sleeps for pages while any daemon sleeps for work.
   */
  lemma NeverBothAsleep(run: seq<State>, i: nat)
    requires IsRun(run) && i < |run| && run[i].mtx == None
    ensures run[i].waiters != {} ==> run[i].needed
    ensures run[i].daemonsAsleep != {} ==> !run[i].needed
    ensures run[i].procWaiters != {} ==> run[i].procNeeded
    ensures run[i].waiters == {} || run[i].daemonsAsleep == {}
  {
    RunKeepsInv(run, i);
  }

  /** A daemon's sleep times out into a scan that reclaims nothing (level 0) only while nobody waits for pages. */
  lemma IdleScanOnlyWithoutWaiters(run: seq<State>, i: nat, t: Tid)
    requires IsRun(run) && i < |run| && MayMove(run[i], t, Timeout)
    ensures !run[i].needed
    ensures run[i].mtx == None ==> run[i].waiters == {}
  {
    RunKeepsInv(run, i);
  }

  /** Every other way out of the loop head leads to a scan at level 1 or more. */
  lemma OtherScansReclaim(s: State, t: Tid, m: Move)
    requires MayMove(s, t, m) && InTop(s.pc[t]) && Step(s, t, m).pc[t] == Idle
    ensures Step(s, t, m).pass[t] == 0 <==> m == Timeout
  {
    if m.Go? {
      hide InAdvice, InWait, InFree, InTop;
      assert Step(s, t, m) == TopStep(s, t, m.yes) by { TopIsTop(s.pc[t]); }
    }
  }

  /** One level higher while the request stays, at least level 1 for waiters, and level 1 after a wakeup. */
  lemma ScanLevels(s: State, t: Tid, yes: bool)
    requires t in s.pc && t in s.pass && InTop(s.pc[t])
    ensures t in TopStep(s, t, yes).pass
    ensures s.pc[t] == TopAgain ==> TopStep(s, t, yes).pass[t] == s.pass[t] + 1
    ensures s.pc[t] == TopRescan ==>
      TopStep(s, t, yes).pass[t] >= 1 && (s.pass[t] >= 1 ==> TopStep(s, t, yes).pass[t] == s.pass[t])
    ensures s.pc[t] == DaemonAsleep ==> TopStep(s, t, yes).pass[t] == 1
  {
  }

  lemma TopIsTop(p: PC)
    requires InTop(p)
    ensures !InAdvice(p) && !InWait(p) && !InFree(p)
  {
  }

  // ---- the page daemon does not wait for itself ------------------------------

  /** Where the threads of the page daemon's process, and where all others, may be; and where they may sleep. */
  ghost predicate RoleOk(s: State, t: Tid)
    requires t in s.pc && t in s.kind
  {
    && (s.kind[t] != Ordinary ==> Outsider(s.pc[t]) && t !in s.waiters)
    && (s.kind[t] == Ordinary ==> !s.pc[t].ProcNeed? && !s.pc[t].ProcSleep? && !s.pc[t].ProcAsleep? && t !in s.procWaiters)
  }

  /** Not in the part of pagedaemon_wakeup or pagedaemon_wait that asks the daemon to work. */
  predicate Outsider(p: PC) {
    !p.AdvSet? && !p.AdvWake? && !p.WaitTest? && !p.WaitSet? && !p.WaitWake? && !p.WaitNeed? && !p.WaitSleep? && !p.WaitAsleep?
  }

  ghost predicate RolesOk(s: State) {
    s.kind.Keys == s.pc.Keys && forall t | t in s.pc :: RoleOk(s, t)
  }

  /** Where a step takes its thread; and only the thread itself may join the sleepers, from the point of sleeping. */
  ghost predicate RoleEffect(s: State, s': State, t: Tid) {
    && t in s.pc && t in s.kind && t in s'.pc && s'.kind == s.kind
    && s'.waiters <= s.waiters + (if s.pc[t].WaitSleep? then {t} else {})
    && s'.procWaiters <= s.procWaiters + (if s.pc[t].ProcSleep? then {t} else {})
    && (s.kind[t] != Ordinary ==> Outsider(s'.pc[t]))
    && (s.kind[t] == Ordinary ==> !s'.pc[t].ProcNeed? && !s'.pc[t].ProcSleep? && !s'.pc[t].ProcAsleep?)
  }

  lemma AdviceRole(s: State, t: Tid)
    requires t in s.pc && t in s.kind && RoleOk(s, t) && InAdvice(s.pc[t])
    ensures RoleEffect(s, AdviceStep(s, t), t)
  {
  }

  lemma WaitRole(s: State, t: Tid)
    requires t in s.pc && t in s.kind && RoleOk(s, t) && InWait(s.pc[t])
    ensures RoleEffect(s, WaitStep(s, t), t)
  {
  }

  lemma FreeRole(s: State, t: Tid, yes: bool)
    requires t in s.pc && t in s.kind && RoleOk(s, t) && InFree(s.pc[t])
    ensures RoleEffect(s, FreeStep(s, t, yes), t)
  {
  }

  lemma TopRole(s: State, t: Tid, yes: bool)
    requires t in s.pc && t in s.kind && t in s.pass && InTop(s.pc[t])
    ensures RoleEffect(s, TopStep(s, t, yes), t)
  {
  }

  lemma BeginRole(s: State, t: Tid, m: Move)
    requires MayMove(s, t, m) && !m.Go?
    ensures RoleEffect(s, Begin(s, t, m), t)
  {
  }

  lemma StepRole(s: State, t: Tid, m: Move)
    requires MayMove(s, t, m) && RoleOk(s, t)
    ensures RoleEffect(s, Step(s, t, m), t)
  {
    hide RoleEffect, RoleOk, AdviceStep, WaitStep, FreeStep, TopStep, Begin;
    if !m.Go? {
      BeginRole(s, t, m);
    } else if InAdvice(s.pc[t]) {
      AdviceRole(s, t);
    } else if InWait(s.pc[t]) {
      WaitRole(s, t);
    } else if InFree(s.pc[t]) {
      FreeRole(s, t, m.yes);
    } else {
      TopRole(s, t, m.yes);
    }
  }

  lemma NoSleepOutside(p: PC)
    ensures Outsider(p) ==> !p.WaitSleep?
  {
  }

  lemma RoleOthers(s: State, s': State, t: Tid, u: Tid)
    requires RolesOk(s) && RoleEffect(s, s', t) && Respects(s, s', t) && u in s.pc
    ensures u in s'.pc && u in s'.kind && RoleOk(s', u)
  {
    hide Outsider;
    assert RoleOk(s, u) && RoleOk(s, t);
    NoSleepOutside(s.pc[t]);
  }

  lemma RolesKept(s: State, s': State)
    requires Inv(s) && RolesOk(s) && Next(s, s')
    ensures RolesOk(s')
  {
    hide Inv, Step, MayMove, RoleEffect, RoleOk, Respects;
    var t, m :| MayMove(s, t, m) && s' == Step(s, t, m);
    StepRespects(s, t, m);
    assert RoleOk(s, t);
    StepRole(s, t, m);
    SameThreads(s, s', t);
    forall u | u in s'.pc
      ensures RoleOk(s', u)
    {
      RoleOthers(s, s', t, u);
    }
  }

  lemma SameThreads(s: State, s': State, t: Tid)
    requires Respects(s, s', t)
    ensures s'.pc.Keys == s.pc.Keys && s'.kind == s.kind
  {
  }

  lemma StepRespects(s: State, t: Tid, m: Move)
    requires Inv(s) && MayMove(s, t, m)
    ensures t in s.pc && Respects(s, Step(s, t, m), t)
  {
    hide Respects;
    StepOk(s, t, m);
  }

  lemma RunStarts(run: seq<State>)
    requires IsRun(run)
    ensures Init(run[0])
  {
  }

  lemma InitRoles(s: State)
    requires Init(s)
    ensures RolesOk(s)
  {
  }

  /**
    No thread of the page daemon's process ever waits for the page daemon, or asks it to
    work: such threads wait on a queue of their own, and only they do.
   */
  lemma {:induction false} NeverWaitsForItself(run: seq<State>, i: nat)
    requires IsRun(run) && i < |run|
    ensures RolesOk(run[i])
  {
    hide IsRun, Init, Inv, Next, RolesOk;
    if i > 0 {
      NeverWaitsForItself(run, i - 1);
      RunStep(run, i - 1);
      RolesKept(run[i - 1], run[i]);
    } else {
      RunStarts(run);
      InitRoles(run[0]);
    }
  }

  // ---- when an advisory wakeup is lost -----------------------------------------

  /** Daemon `d` has seen no request and, as things stand, goes to sleep next. */
  predicate InWindow(s: State, d: Tid) {
    d in s.pc && (s.pc[d] == TopSleep || (s.pc[d] == TopTestNeeded && !s.needed))
  }

  ghost predicate WindowOpen(s: State) {
    exists d :: InWindow(s, d)
  }

  /** A thread has set vm_pageout_wanted and is about to wake the daemons. */
  predicate Waking(p: PC) { p.AdvWake? || p.WaitWake? }

  /** A request is pending, a daemon sleeps, and nobody is about to wake it. */
  ghost predicate Lost(s: State) {
    s.wanted && s.daemonsAsleep != {} && forall t | t in s.pc :: !Waking(s.pc[t])
  }

  /** pagedaemon_wakeup sets the flag. */
  ghost predicate Advises(s: State, s': State) {
    s'.pc.Keys == s.pc.Keys && exists t :: t in s.pc && s.pc[t].AdvSet? && s'.pc[t].AdvWake?
  }

  /** pagedaemon_wait sets it. */
  ghost predicate Demands(s: State, s': State) {
    s'.pc.Keys == s.pc.Keys && exists t :: t in s.pc && s.pc[t].WaitSet? && s'.pc[t].WaitWake?
  }

  /** pagedaemon_wakeup sets the flag while a daemon is about to sleep. */
  ghost predicate Intrudes(s: State, s': State) {
    WindowOpen(s) && Advises(s, s')
  }

  ghost predicate Served(s: State) {
    && (s.wanted ==> !WindowOpen(s))
    && (s.wanted && s.daemonsAsleep != {} ==> exists t :: t in s.pc && Waking(s.pc[t]))
  }

  /** What a step of `t` that does not intrude must do itself for Served to be kept. */
  ghost predicate Serves(s: State, s': State, t: Tid) {
    && t in s.pc && t in s'.pc
    && (s'.wanted ==> !InWindow(s', t))
    && (s'.wanted && !s.wanted ==> Waking(s'.pc[t]) && !WindowOpen(s))
    && (s'.wanted ==> s'.daemonsAsleep <= s.daemonsAsleep)
    && (Waking(s.pc[t]) ==> s'.daemonsAsleep == {})
  }

  /** No other thread's window opens: vm_pages_needed is only cleared under the mutex. */
  lemma OpensNoOther(s: State, s': State, t: Tid, u: Tid)
    requires Inv(s) && Respects(s, s', t) && u != t && InWindow(s', u)
    ensures InWindow(s, u)
  {
    assert ThreadOk(s, u);
  }

  lemma ServesKeeps(s: State, s': State, t: Tid)
    requires Inv(s) && Served(s) && Respects(s, s', t) && Serves(s, s', t)
    ensures Served(s')
  {
    hide Inv;
    if s'.wanted {
      forall d | d != t
        ensures !InWindow(s', d)
      {
        if InWindow(s', d) {
          OpensNoOther(s, s', t, d);
        }
      }
      if s'.daemonsAsleep != {} {
        if s.wanted {
          var u :| u in s.pc && Waking(s.pc[u]);
          assert u != t && u in s'.pc && Waking(s'.pc[u]);
        } else {
          assert t in s'.pc && Waking(s'.pc[t]);
        }
      }
    }
  }

  /** A thread in pagedaemon_wait holds the mutex, and so no daemon is about to sleep. */
  lemma MutexExcludesWindow(s: State, t: Tid)
    requires Inv(s) && t in s.pc && HoldsMutex(s.pc[t]) && !InWindow(s, t)
    ensures !WindowOpen(s)
  {
    assert ThreadOk(s, t);
    forall d
      ensures !InWindow(s, d)
    {
      assert d in s.pc ==> ThreadOk(s, d);
    }
  }

  lemma AdviceServes(s: State, t: Tid)
    requires t in s.pc && t in s.kind && InAdvice(s.pc[t])
    requires s.pc[t].AdvSet? ==> !WindowOpen(s)
    ensures Serves(s, AdviceStep(s, t), t)
  {
    hide WindowOpen;
  }

  lemma WaitServes(s: State, t: Tid)
    requires t in s.pc && InWait(s.pc[t])
    requires s.pc[t] == WaitSet ==> !WindowOpen(s)
    ensures Serves(s, WaitStep(s, t), t)
  {
    hide WindowOpen;
  }

  lemma FreeServes(s: State, t: Tid, yes: bool)
    requires t in s.pc && InFree(s.pc[t])
    ensures Serves(s, FreeStep(s, t, yes), t)
  {
    hide WindowOpen;
  }

  lemma TopServes(s: State, t: Tid, yes: bool)
    requires t in s.pc && t in s.pass && InTop(s.pc[t]) && (InWindow(s, t) ==> !s.wanted)
    ensures Serves(s, TopStep(s, t, yes), t)
  {
    hide WindowOpen;
  }

  lemma BeginServes(s: State, t: Tid, m: Move)
    requires MayMove(s, t, m) && !m.Go?
    ensures Serves(s, Begin(s, t, m), t)
  {
    hide WindowOpen;
  }

  lemma StepServes(s: State, t: Tid, m: Move)
    requires Inv(s) && MayMove(s, t, m) && (InWindow(s, t) ==> !s.wanted)
    requires s.pc[t] == AdvSet ==> !WindowOpen(s)
    ensures Serves(s, Step(s, t, m), t) && Respects(s, Step(s, t, m), t)
  {
    StepOk(s, t, m);
    if s.pc[t] == WaitSet {
      MutexExcludesWindow(s, t);
    }
    hide Serves, Inv, WindowOpen, InWindow, Respects, AdviceStep, WaitStep, FreeStep, TopStep, Begin;
    if !m.Go? {
      BeginServes(s, t, m);
    } else if InAdvice(s.pc[t]) {
      AdviceServes(s, t);
    } else if InWait(s.pc[t]) {
      WaitServes(s, t);
    } else if InFree(s.pc[t]) {
      FreeServes(s, t, m.yes);
    } else {
      TopServes(s, t, m.yes);
    }
  }

  lemma SetsFlag(s: State, t: Tid, m: Move)
    requires MayMove(s, t, m) && s.pc[t].AdvSet?
    ensures Step(s, t, m).pc.Keys == s.pc.Keys && Step(s, t, m).pc[t].AdvWake?
  {
  }

  lemma NextServes(s: State, s': State)
    requires Inv(s) && Served(s) && Next(s, s') && !Intrudes(s, s')
    ensures Served(s')
  {
    var t, m :| MayMove(s, t, m) && s' == Step(s, t, m);
    if s.pc[t] == AdvSet {
      SetsFlag(s, t, m);
    }
    hide Inv, Step, MayMove, Respects, Serves;
    StepServes(s, t, m);
    ServesKeeps(s, s', t);
  }

  /**
    A run that loses a request contains a step in which pagedaemon_wakeup set the flag
    while a daemon was about to sleep: as long as it never does, whenever a request is
    pending and a daemon sleeps, some thread is about to wake it.
   */
  lemma {:induction false} NoRequestLost(run: seq<State>, i: nat)
    requires IsRun(run) && i < |run|
    requires forall j | 0 <= j < i :: !Intrudes(run[j], run[j + 1])
    ensures Served(run[i]) && !Lost(run[i])
  {
    if i > 0 {
      NoRequestLost(run, i - 1);
      RunKeepsInv(run, i - 1);
      NextServes(run[i - 1], run[i]);
    }
  }

  // ---- what becomes of a single request ------------------------------------------

  /** However requests were lost before, one made outside the window is served. */
  lemma RequestServes(s: State, s': State)
    requires Inv(s) && Next(s, s') && !Intrudes(s, s') && (Advises(s, s') || Demands(s, s'))
    ensures Served(s')
  {
    var t := OneMoves(s, s');
    if s.pc[t] == WaitSet {
      MutexExcludesWindow(s, t);
    }
    hide Inv, Respects;
    forall d
      ensures !InWindow(s', d)
    {
      if InWindow(s', d) {
        OpensNoOther(s, s', t, d);
      }
    }
    assert t in s'.pc && Waking(s'.pc[t]);
  }

  lemma OneMoves(s: State, s': State) returns (t: Tid)
    requires Inv(s) && Next(s, s') && (Advises(s, s') || Demands(s, s'))
    ensures Respects(s, s', t) && t in s.pc && t in s'.pc
    ensures if Advises(s, s') then s.pc[t].AdvSet? && s'.pc[t].AdvWake? else s.pc[t].WaitSet? && s'.pc[t].WaitWake?
  {
    var m;
    t, m :| MayMove(s, t, m) && s' == Step(s, t, m);
    StepOk(s, t, m);
    hide Inv, Step, MayMove, ThreadOk, QueuesOk;
    if Advises(s, s') {
      var u :| u in s.pc && s.pc[u].AdvSet? && s'.pc[u].AdvWake?;
    } else {
      var u :| u in s.pc && s.pc[u].WaitSet? && s'.pc[u].WaitWake?;
    }
  }

  /** The flag is set in the states of the run from number n to number i. */
  ghost predicate Pending(run: seq<State>, n: nat, i: nat) {
    i < |run| && forall k | n <= k <= i :: run[k].wanted
  }

  lemma PendingServes(s: State, s': State)
    requires Inv(s) && Served(s) && s.wanted && Next(s, s')
    ensures Served(s')
  {
    assert !Intrudes(s, s');
    hide Inv, Next, Served;
    NextServes(s, s');
  }

  lemma RunStep(run: seq<State>, i: nat)
    requires IsRun(run) && i + 1 < |run|
    ensures Inv(run[i]) && Next(run[i], run[i + 1])
  {
    hide Inv;
    RunKeepsInv(run, i);
  }

  lemma ServedNotLost(s: State)
    requires Served(s)
    ensures !Lost(s)
  {
  }

  /**
    A request made outside the window, after state number n, is not lost while it is
    pending, whatever other callers of pagedaemon_wakeup do and have done.
   */
  lemma {:induction false} RequestIsServed(run: seq<State>, n: nat, i: nat)
    requires IsRun(run) && n < i && Pending(run, n + 1, i)
    requires (Advises(run[n], run[n + 1]) || Demands(run[n], run[n + 1])) && !Intrudes(run[n], run[n + 1])
    ensures Served(run[i]) && !Lost(run[i])
  {
    hide IsRun, Inv, Next, Served, Lost, Intrudes, Advises, Demands;
    RunStep(run, i - 1);
    if i == n + 1 {
      RequestServes(run[n], run[i]);
    } else {
      RequestIsServed(run, n, i - 1);
      PendingServes(run[i - 1], run[i]);
    }
    ServedNotLost(run[i]);
  }

  lemma DemandOutsideWindow(s: State, s': State)
    requires Inv(s) && Next(s, s') && Demands(s, s')
    ensures !Intrudes(s, s')
  {
    var t := OneMoves(s, s');
    hide Next, Respects, WindowOpen;
    if !Advises(s, s') {
      MutexExcludesWindow(s, t);
    }
  }

  /** A request of pagedaemon_wait is never lost while it is pending. */
  lemma DemandIsServed(run: seq<State>, n: nat, i: nat)
    requires IsRun(run) && n < i && Pending(run, n + 1, i) && Demands(run[n], run[n + 1])
    ensures !Lost(run[i])
  {
    hide IsRun, Inv, Next, Served, Lost, Demands;
    RunStep(run, n);
    DemandOutsideWindow(run[n], run[n + 1]);
    RequestIsServed(run, n, i);
  }

  /** A run that has come to state s. */
  ghost predicate Ends(run: seq<State>, s: State) {
    IsRun(run) && run[|run| - 1] == s
  }

  /** `run'` goes on from `run` with the flag set all the time, to state s'. */
  ghost predicate GoesOn(run: seq<State>, run': seq<State>, s': State) {
    Ends(run', s') && run <= run' && forall k | |run| <= k < |run'| :: run'[k].wanted
  }

  lemma GoesOnTwice(run: seq<State>, run1: seq<State>, s1: State, run2: seq<State>, s2: State)
    requires GoesOn(run, run1, s1) && GoesOn(run1, run2, s2)
    ensures GoesOn(run, run2, s2)
  {
  }

  lemma Extend(run: seq<State>, s: State, t: Tid, m: Move) returns (run': seq<State>)
    requires Ends(run, s) && MayMove(s, t, m) && Step(s, t, m).wanted
    ensures run' == run + [Step(s, t, m)] && GoesOn(run, run', Step(s, t, m)) && Inv(Step(s, t, m))
  {
    run' := run + [Step(s, t, m)];
    assert Next(s, Step(s, t, m));
    RunKeepsInv(run', |run'| - 1);
  }

  /** A request has been made while daemon d is about to sleep. */
  ghost predicate Doomed(s: State, d: Tid) {
    Inv(s) && s.wanted && InWindow(s, d)
  }

  function Wakers(s: State): set<Tid> {
    set t | t in s.pc && s.pc[t].AdvWake?
  }

  lemma DoomedFacts(s: State, d: Tid, u: Tid)
    requires Doomed(s, d) && u in s.pc
    ensures u in s.kind && u in s.pass && s.mtx == Some(d) && !s.needed
    ensures !s.pc[u].WaitWake?
  {
    assert ThreadOk(s, d) && ThreadOk(s, u);
  }

  /** One caller of pagedaemon_wakeup calls wakeup() too early. */
  lemma WakesNobody(run: seq<State>, s: State, d: Tid, u: Tid) returns (run': seq<State>, s': State)
    requires Ends(run, s) && Doomed(s, d) && u in Wakers(s)
    ensures GoesOn(run, run', s') && Doomed(s', d) && Wakers(s') == Wakers(s) - {u}
  {
    hide Ends, IsRun, GoesOn;
    DoomedFacts(s, d, u);
    s' := Step(s, u, Go(true));
    run' := Extend(run, s, u, Go(true));
  }

  lemma AllWakeNobody(run: seq<State>, s: State, d: Tid) returns (run': seq<State>, s': State)
    requires Ends(run, s) && Doomed(s, d)
    ensures GoesOn(run, run', s') && Doomed(s', d) && Wakers(s') == {}
    decreases |Wakers(s)|
  {
    hide IsRun, Doomed, Wakers;
    run', s' := run, s;
    if Wakers(s) != {} {
      var u :| u in Wakers(s);
      var run1, s1 := WakesNobody(run, s, d, u);
      run', s' := AllWakeNobody(run1, s1, d);
      GoesOnTwice(run, run1, s1, run', s');
    }
  }

  lemma NextIsTopStep(s: State, d: Tid)
    requires d in s.pc && d in s.kind && d in s.pass && s.pc[d] == TopTestNeeded && !s.needed
    ensures MayMove(s, d, Go(true)) && Step(s, d, Go(true)) == At(s, d, TopSleep)
  {
  }

  /** The daemon passes its last test ... */
  lemma PassesTest(run: seq<State>, s: State, d: Tid) returns (run': seq<State>, s': State)
    requires Ends(run, s) && Doomed(s, d) && Wakers(s) == {} && s.pc[d] == TopTestNeeded
    ensures GoesOn(run, run', s') && Doomed(s', d) && Wakers(s') == {} && s'.pc[d] == TopSleep
  {
    hide Ends, IsRun, GoesOn, Inv, InAdvice, InWait, InFree, InTop, Respects, ThreadOk;
    DoomedFacts(s, d, d);
    NextIsTopStep(s, d);
    s' := Step(s, d, Go(true));
    run' := Extend(run, s, d, Go(true));
    assert Wakers(s') == Wakers(s);
  }

  /** ... and goes to sleep. */
  lemma SleepsOn(run: seq<State>, s: State, d: Tid) returns (run': seq<State>, s': State)
    requires Ends(run, s) && Doomed(s, d) && Wakers(s) == {} && s.pc[d] == TopSleep
    ensures GoesOn(run, run', s') && Lost(s')
  {
    hide Ends, IsRun, GoesOn;
    DoomedFacts(s, d, d);
    s' := Step(s, d, Go(true));
    run' := Extend(run, s, d, Go(true));
    hide Inv;
    forall u | u in s.pc
      ensures !Waking(s'.pc[u])
    {
      DoomedFacts(s, d, u);
      assert u !in Wakers(s);
    }
  }

  lemma MayAdvise(run: seq<State>, s: State, t: Tid)
    requires Ends(run, s) && t in s.pc && s.pc[t].AdvSet?
    ensures |run| > 0 && run[|run| - 1] == s
    ensures Inv(s) && MayMove(s, t, Go(true)) && Step(s, t, Go(true)) == AdviceStep(s, t)
    ensures Advises(s, AdviceStep(s, t)) && AdviceStep(s, t).wanted
  {
    RunKeepsInv(run, |run| - 1);
    hide IsRun;
    assert AdviceStep(s, t).pc[t].AdvWake?;
  }

  /** The next step is that thread t sets the flag. */
  ghost predicate RequestBy(run: seq<State>, run': seq<State>, s: State, t: Tid) {
    t in s.pc && s.pc[t].AdvSet? && t in s.kind && |run'| > |run| && run'[|run|] == AdviceStep(s, t)
  }

  lemma IsDoomed(run: seq<State>, s: State, t: Tid, d: Tid) returns (run': seq<State>, s': State)
    requires Ends(run, s) && t in s.pc && s.pc[t].AdvSet? && InWindow(s, d)
    ensures GoesOn(run, run', s') && RequestBy(run, run', s, t) && Doomed(s', d)
  {
    MayAdvise(run, s, t);
    hide Ends, IsRun, GoesOn, Inv, Advises;
    s' := Step(s, t, Go(true));
    run' := Extend(run, s, t, Go(true));
  }

  /** A request made while a daemon is about to sleep can be lost. */
  lemma RequestCanBeLost(run: seq<State>, s: State, t: Tid, d: Tid) returns (run': seq<State>, s': State)
    requires Ends(run, s) && t in s.pc && s.pc[t].AdvSet? && InWindow(s, d)
    ensures GoesOn(run, run', s') && RequestBy(run, run', s, t) && Lost(s')
  {
    hide IsRun, Inv, Lost, Wakers, AdviceStep;
    var run1, s1 := IsDoomed(run, s, t, d);
    var run2, s2 := AllWakeNobody(run1, s1, d);
    var run3, s3 := run2, s2;
    if s2.pc[d] == TopTestNeeded {
      run3, s3 := PassesTest(run2, s2, d);
    }
    run', s' := SleepsOn(run3, s3, d);
    assert run <= run1 <= run2 <= run3 <= run';
  }

  lemma OutsideWindowServed(run: seq<State>, s: State, t: Tid, run': seq<State>, s': State)
    requires Ends(run, s) && !WindowOpen(s) && GoesOn(run, run', s') && RequestBy(run, run', s, t)
    ensures !Lost(s')
  {
    hide Inv, Lost, WindowOpen, IsRun, Advises, AdviceStep;
    MayAdvise(run, s, t);
    assert run'[..|run|] == run;
    RequestIsServed(run', |run| - 1, |run'| - 1);
  }

  /**
    Wherever a run has come to: if a caller of pagedaemon_wakeup that has seen the flag
    clear is about to set it, the run can go on in a way that loses this request, while
    it is pending, exactly if a daemon is about to sleep.
   */
  lemma RequestLostExactly(run: seq<State>, s: State, t: Tid)
    requires Ends(run, s) && t in s.pc && s.pc[t].AdvSet?
    ensures WindowOpen(s) <==>
      exists run', s' :: GoesOn(run, run', s') && RequestBy(run, run', s, t) && Lost(s')
  {
    hide Inv, Lost, InWindow, Ends, GoesOn, RequestBy;
    if WindowOpen(s) {
      var d :| InWindow(s, d);
      var run', s' := RequestCanBeLost(run, s, t, d);
    } else {
      forall run', s' | GoesOn(run, run', s') && RequestBy(run, run', s, t)
        ensures !Lost(s')
      {
        OutsideWindowServed(run, s, t, run', s');
      }
    }
  }

  /** One daemon (thread 0) and one other thread, nobody waiting for pages. */
  function Duo(d: PC, o: PC, mtx: Option<Tid>, wanted: bool, asleep: set<Tid>): State {
    State(map[0 := Daemon, 1 := Ordinary], map[0 := d, 1 := o], mtx, wanted, false, false,
          map[0 := 0, 1 := 0], asleep, {}, {})
  }

  lemma DuoStep(s: State, t: Tid, m: Move, s': State)
    requires s.pc.Keys == {0, 1} && MayMove(s, t, m) && s' == Step(s, t, m)
    ensures Next(s, s')
  {
  }

  lemma DuoAt(d: PC, o: PC, p: PC)
    ensures map[0 := d, 1 := o][0 := p] == map[0 := p, 1 := o]
    ensures map[0 := d, 1 := o][1 := p] == map[0 := d, 1 := p]
  {
  }

  predicate DaemonEdge(d: PC, d': PC, mtx: Option<Tid>, mtx': Option<Tid>) {
    || (d == TopLock && d' == TopTestMin && mtx == None && mtx' == Some(0))
    || (d == TopTestMin && d' == TopTestMet && mtx == mtx')
    || (d == TopTestMet && d' == TopTestWanted && mtx == mtx')
    || (d == TopTestWanted && d' == TopTestNeeded && mtx == mtx')
    || (d == TopTestNeeded && d' == TopSleep && mtx == mtx')
  }

  lemma DaemonTop(d: PC, d': PC, o: PC, mtx: Option<Tid>, mtx': Option<Tid>)
    requires DaemonEdge(d, d', mtx, mtx')
    ensures InTop(d)
    ensures TopStep(Duo(d, o, mtx, false, {}), 0, true) == Duo(d', o, mtx', false, {})
  {
    DuoAt(d, o, d');
  }

  lemma DaemonMay(d: PC, d': PC, o: PC, mtx: Option<Tid>, mtx': Option<Tid>)
    requires DaemonEdge(d, d', mtx, mtx')
    ensures MayMove(Duo(d, o, mtx, false, {}), 0, Go(true))
  {
  }

  lemma DaemonNext(d: PC, d': PC, o: PC, mtx: Option<Tid>, mtx': Option<Tid>)
    requires DaemonEdge(d, d', mtx, mtx')
    ensures Next(Duo(d, o, mtx, false, {}), Duo(d', o, mtx', false, {}))
  {
    DaemonTop(d, d', o, mtx, mtx');
    DaemonMay(d, d', o, mtx, mtx');
    DuoStep(Duo(d, o, mtx, false, {}), 0, Go(true), Duo(d', o, mtx', false, {}));
  }

  /** The daemon goes from `d` to `d'`, the other thread stays at `o`. */
  lemma DaemonGoes(run: seq<State>, d: PC, d': PC, o: PC, mtx: Option<Tid>, mtx': Option<Tid>)
    returns (run': seq<State>)
    requires IsRun(run) && run[|run| - 1] == Duo(d, o, mtx, false, {})
    requires DaemonEdge(d, d', mtx, mtx')
    ensures IsRun(run') && run'[|run'| - 1] == Duo(d', o, mtx', false, {})
  {
    DaemonNext(d, d', o, mtx, mtx');
    run' := run + [Duo(d', o, mtx', false, {})];
  }

  /** The other thread goes from `o` to `o'`, its first steps through pagedaemon_wakeup. */
  lemma AdviserGoes(run: seq<State>, d: PC, o: PC, o': PC) returns (run': seq<State>)
    requires IsRun(run) && run[|run| - 1] == Duo(d, o, None, false, {})
    requires (o == Idle && o' == AdvTest) || (o == AdvTest && o' == AdvSet)
    ensures IsRun(run') && run'[|run'| - 1] == Duo(d, o', None, false, {})
  {
    DuoAt(d, o, o');
    DuoStep(Duo(d, o, None, false, {}), 1, if o == Idle then Advise else Go(true), Duo(d, o', None, false, {}));
    run' := run + [Duo(d, o', None, false, {})];
  }

  /**
    The window is reached: a caller that has seen the flag clear is delayed while the
    daemon comes to the point of going to sleep.
   */
  lemma WindowIsReached() returns (run: seq<State>)
    ensures IsRun(run) && run[|run| - 1] == Duo(TopSleep, AdvSet, Some(0), false, {})
  {
    var m, o := Some(0), AdvSet;
    run := [Duo(TopLock, Idle, None, false, {})];
    hide Duo, Next;
    run := AdviserGoes(run, TopLock, Idle, AdvTest);
    run := AdviserGoes(run, TopLock, AdvTest, o);
    run := DaemonGoes(run, TopLock, TopTestMin, o, None, m);
    run := DaemonGoes(run, TopTestMin, TopTestMet, o, m, m);
    run := DaemonGoes(run, TopTestMet, TopTestWanted, o, m, m);
    run := DaemonGoes(run, TopTestWanted, TopTestNeeded, o, m, m);
    run := DaemonGoes(run, TopTestNeeded, TopSleep, o, m, m);
  }

  /** The window can be reached, so a request can be lost. */
  lemma AdvisoryWakeupCanBeLost() returns (run: seq<State>, s: State)
    ensures Ends(run, s) && Lost(s)
  {
    var before := WindowIsReached();
    run, s := RequestCanBeLost(before, before[|before| - 1], 1, 0);
  }

  /** An advisory wakeup that finds the flag set changes nothing and wakes nobody. */
  lemma AdviceIgnoredWhileWanted(s: State, t: Tid)
    requires MayMove(s, t, Advise) && s.wanted
    ensures Step(Step(s, t, Advise), t, Go(true)) == s
  {
    assert s.pc[t := AdvTest][t := s.pc[t]] == s.pc;
  }

  /**
    Which is why pagedaemon_wait also tests vm_pages_needed: whenever a daemon
    sleeps, with or without a lost request, the waiter goes on to wake it.
   */
  lemma WaiterAlwaysWakesSleepingDaemon(run: seq<State>, i: nat, t: Tid)
    requires IsRun(run) && i < |run|
    requires t in run[i].pc && run[i].pc[t] == WaitTest && run[i].daemonsAsleep != {}
    ensures var s1 := WaitStep(run[i], t);
            && s1.pc[t] == WaitSet
            && var s2 := WaitStep(s1, t);
               s2.pc[t] == WaitWake && WaitStep(s2, t).daemonsAsleep == {}
  {
    RunKeepsInv(run, i);
  }

  // ---- what vm_page_free_wakeup and the daemon's loop head do for the waiters ------

  /** From state i to state j thread t makes its way through places of one kind, and comes out of them in state j. */
  ghost predicate Passes(run: seq<State>, t: Tid, i: nat, j: nat, inside: PC -> bool) {
    && i < j < |run|
    && (forall m | i <= m < j :: t in run[m].pc && inside(run[m].pc[t]))
    && t in run[j].pc && !inside(run[j].pc[t])
  }

  /** The tests that t makes at `p` on its way are answered `yes`. */
  ghost predicate Answers(run: seq<State>, t: Tid, i: nat, j: nat, p: PC, yes: bool)
    requires j < |run|
  {
    forall m | i <= m < j :: AnswersAt(run, t, m, p, yes)
  }

  ghost predicate AnswersAt(run: seq<State>, t: Tid, m: nat, p: PC, yes: bool)
    requires m + 1 < |run|
  {
    t in run[m].pc && run[m].pc[t] == p && t in run[m + 1].pc && run[m + 1].pc[t] != p ==>
      MayMove(run[m], t, Go(yes)) && run[m + 1] == Step(run[m], t, Go(yes))
  }

  /** While t owns the mutex, what it protects changes only by a step of t. */
  lemma OwnerUndisturbed(s: State, s': State, t: Tid)
    requires Inv(s) && Next(s, s') && t in s.pc && HoldsMutex(s.pc[t])
    ensures t in s'.pc
    ensures Undisturbed(s, s', t) || exists m :: MayMove(s, t, m) && s' == Step(s, t, m)
  {
    hide Inv, Step, MayMove, Undisturbed;
    var u, m :| MayMove(s, u, m) && s' == Step(s, u, m);
    OthersMove(s, u, m, t);
  }

  ghost predicate Undisturbed(s: State, s': State, t: Tid) {
    && t in s.pc && t in s'.pc && s'.pc[t] == s.pc[t]
    && s'.needed == s.needed && s'.procNeeded == s.procNeeded && s'.waiters == s.waiters
    && s'.procWaiters == s.procWaiters && (s.wanted ==> s'.wanted)
  }

  lemma OthersMove(s: State, u: Tid, m: Move, t: Tid)
    requires Inv(s) && MayMove(s, u, m) && t in s.pc && HoldsMutex(s.pc[t])
    ensures t in Step(s, u, m).pc && (u != t ==> Undisturbed(s, Step(s, u, m), t))
  {
    assert ThreadOk(s, t) && ThreadOk(s, u);
    ClearsWanted(s, u, m);
    hide Inv, Step, MayMove, ThreadOk, QueuesOk;
    StepOk(s, u, m);
  }

  lemma ClearsWanted(s: State, u: Tid, m: Move)
    requires MayMove(s, u, m)
    ensures s.wanted && s.pc[u] != TopClearWanted ==> Step(s, u, m).wanted
  {
  }

  /**
    How far t is with the waiters: `before` is how things were at its first step, `proc`
    and `all` the answers to the two questions whether enough memory is free.
   */
  ghost predicate FreeSoFar(before: State, s: State, t: Tid, proc: bool, all: bool) {
    t in s.pc &&
    match s.pc[t]
    case FreeTest => Same(before, s, true, true)
    case FreeWakeProc => Same(before, s, true, true) && proc
    case FreeClearProc => Same(before, s, false, true) && proc && s.procWaiters == {}
    case FreeTestMin => ProcServed(before, s, proc) && Same(before, s, false, true)
    case FreeClear => ProcServed(before, s, proc) && Same(before, s, false, true) && all
    case FreeWake => ProcServed(before, s, proc) && all && !s.needed
    case Locked => ProcServed(before, s, proc) && AllServed(before, s, all)
    case _ => false
  }

  ghost predicate Same(before: State, s: State, proc: bool, all: bool) {
    && (proc ==> s.procNeeded == before.procNeeded && s.procWaiters == before.procWaiters)
    && (all ==> s.needed == before.needed && s.waiters == before.waiters)
  }

  ghost predicate ProcServed(before: State, s: State, yes: bool) {
    if yes then !s.procNeeded && s.procWaiters == {} else Same(before, s, true, false)
  }

  ghost predicate AllServed(before: State, s: State, yes: bool) {
    if yes then !s.needed && s.waiters == {} else Same(before, s, false, true)
  }

  lemma FreeStepGoesOn(before: State, s: State, t: Tid, proc: bool, all: bool, yes: bool)
    requires QueuesOk(s) && t in s.pc && ThreadOk(s, t) && InFree(s.pc[t]) && FreeSoFar(before, s, t, proc, all)
    requires s.pc[t] == FreeTest ==> yes == proc
    requires s.pc[t] == FreeTestMin ==> yes == all
    ensures FreeSoFar(before, FreeStep(s, t, yes), t, proc, all)
  {
  }

  lemma FreeMove(before: State, s: State, s': State, t: Tid, m: Move, proc: bool, all: bool)
    requires Inv(s) && MayMove(s, t, m) && s' == Step(s, t, m) && InFree(s.pc[t]) && FreeSoFar(before, s, t, proc, all)
    requires s.pc[t] == FreeTest ==> s' == Step(s, t, Go(proc))
    requires s.pc[t] == FreeTestMin ==> s' == Step(s, t, Go(all))
    ensures t in s'.pc && s'.pc[t] != s.pc[t] && FreeSoFar(before, s', t, proc, all)
  {
    assert ThreadOk(s, t);
    FreeMoveIsGo(s, t, m);
    hide Inv, ThreadOk, QueuesOk, FreeSoFar, Step;
    var yes := if s.pc[t] == FreeTest then proc else if s.pc[t] == FreeTestMin then all else m.yes;
    FreeMoveIsGo(s, t, Go(yes));
    FreeStepGoesOn(before, s, t, proc, all, yes);
  }

  lemma FreeMoveIsGo(s: State, t: Tid, m: Move)
    requires t in s.pc && t in s.kind && t in s.pass && InFree(s.pc[t])
    ensures MayMove(s, t, m) <==> m.Go?
    ensures m.Go? ==> Step(s, t, m) == FreeStep(s, t, m.yes) && FreeStep(s, t, m.yes).pc[t] != s.pc[t]
  {
  }

  lemma FreeUndisturbed(before: State, s: State, s': State, t: Tid, proc: bool, all: bool)
    requires Undisturbed(s, s', t) && FreeSoFar(before, s, t, proc, all)
    ensures FreeSoFar(before, s', t, proc, all)
  {
  }

  lemma PassesOn(run: seq<State>, t: Tid, i: nat, j: nat, inside: PC -> bool)
    requires Passes(run, t, i, j, inside)
    ensures i + 1 <= j < |run| && t in run[i].pc && inside(run[i].pc[t]) && t in run[i + 1].pc
    ensures i + 1 < j ==> Passes(run, t, i + 1, j, inside)
    ensures i + 1 == j ==> !inside(run[j].pc[t])
  {
  }

  lemma InFreeHolds(p: PC)
    requires InFree(p)
    ensures HoldsMutex(p)
  {
  }

  lemma FreeHere(run: seq<State>, t: Tid, before: State, i: nat, j: nat, proc: bool, all: bool)
    requires IsRun(run) && Passes(run, t, i, j, InFree) && FreeSoFar(before, run[i], t, proc, all)
    requires AnswersAt(run, t, i, FreeTest, proc) && AnswersAt(run, t, i, FreeTestMin, all)
    ensures FreeSoFar(before, run[i + 1], t, proc, all)
  {
    hide IsRun, Inv, Next, Step, MayMove, Passes, FreeSoFar, InFree, HoldsMutex, Undisturbed;
    PassesOn(run, t, i, j, InFree);
    RunStep(run, i);
    InFreeHolds(run[i].pc[t]);
    OwnerUndisturbed(run[i], run[i + 1], t);
    if Undisturbed(run[i], run[i + 1], t) {
      FreeUndisturbed(before, run[i], run[i + 1], t, proc, all);
    } else {
      var m :| MayMove(run[i], t, m) && run[i + 1] == Step(run[i], t, m);
      FreeMoves(run[i], t, m);
      FreeMove(before, run[i], run[i + 1], t, m, proc, all);
    }
  }

  lemma FreeMoves(s: State, t: Tid, m: Move)
    requires MayMove(s, t, m) && InFree(s.pc[t])
    ensures t in Step(s, t, m).pc && Step(s, t, m).pc[t] != s.pc[t]
  {
    hide Step;
    FreeMoveIsGo(s, t, m);
  }

  lemma {:induction false} FreeCall(run: seq<State>, t: Tid, before: State, i: nat, j: nat, proc: bool, all: bool)
    requires IsRun(run) && Passes(run, t, i, j, InFree) && FreeSoFar(before, run[i], t, proc, all)
    requires Answers(run, t, i, j, FreeTest, proc) && Answers(run, t, i, j, FreeTestMin, all)
    ensures FreeSoFar(before, run[j], t, proc, all)
    decreases j - i
  {
    hide IsRun, Passes, FreeSoFar, AnswersAt, InFree;
    PassesOn(run, t, i, j, InFree);
    FreeHere(run, t, before, i, j, proc, all);
    if i + 1 < j {
      FreeCall(run, t, before, i + 1, j, proc, all);
    }
  }

  /**
    vm_page_free_wakeup, from its first test to its return: if enough memory is free
    for it (`proc`), no thread of the daemon's process is left waiting, and none is
    expected to; if there is enough for everybody (`all`), nobody else is.  Otherwise
    the flag and its sleepers are as they were.
   */
  lemma FreeingWakesWaiters(run: seq<State>, t: Tid, i: nat, j: nat, proc: bool, all: bool)
    requires IsRun(run) && Passes(run, t, i, j, InFree) && run[i].pc[t] == FreeTest
    requires Answers(run, t, i, j, FreeTest, proc) && Answers(run, t, i, j, FreeTestMin, all)
    ensures run[j].pc[t] == Locked
    ensures proc ==> !run[j].procNeeded && run[j].procWaiters == {}
    ensures !proc ==> run[j].procNeeded == run[i].procNeeded && run[j].procWaiters == run[i].procWaiters
    ensures all ==> !run[j].needed && run[j].waiters == {}
    ensures !all ==> run[j].needed == run[i].needed && run[j].waiters == run[i].waiters
  {
    hide IsRun, Answers;
    FreeCall(run, t, run[i], i, j, proc, all);
  }

  predicate InTopFree(p: PC) { p.TopTestMin? || p.TopClear? || p.TopWake? }

  ghost predicate TopSoFar(before: State, s: State, t: Tid, all: bool) {
    t in s.pc &&
    match s.pc[t]
    case TopTestMin => Same(before, s, false, true)
    case TopClear => Same(before, s, false, true) && all
    case TopWake => all && !s.needed
    case TopTestMet => AllServed(before, s, all)
    case _ => false
  }

  lemma TopFreeStepGoesOn(before: State, s: State, t: Tid, all: bool, yes: bool)
    requires QueuesOk(s) && t in s.pc && t in s.pass && ThreadOk(s, t) && InTopFree(s.pc[t]) && TopSoFar(before, s, t, all)
    requires s.pc[t] == TopTestMin ==> yes == all
    ensures TopSoFar(before, TopStep(s, t, yes), t, all)
  {
  }

  lemma TopMoveIsGo(s: State, t: Tid, m: Move)
    requires t in s.pc && t in s.kind && t in s.pass
    requires InTopFree(s.pc[t]) || s.pc[t].TopTestMet? || s.pc[t].TopClearWanted?
    ensures HoldsMutex(s.pc[t]) && InTop(s.pc[t]) && (MayMove(s, t, m) <==> m.Go?)
    ensures m.Go? ==> Step(s, t, m) == TopStep(s, t, m.yes)
    ensures t in TopStep(s, t, m.Go? && m.yes).pc && TopStep(s, t, m.Go? && m.yes).pc[t] != s.pc[t]
  {
  }

  lemma TopUndisturbed(before: State, s: State, s': State, t: Tid, all: bool)
    requires Undisturbed(s, s', t) && TopSoFar(before, s, t, all)
    ensures TopSoFar(before, s', t, all)
  {
  }

  lemma InTables(s: State, t: Tid)
    requires Inv(s) && t in s.pc
    ensures t in s.kind && t in s.pass && ThreadOk(s, t) && QueuesOk(s)
  {
  }

  lemma TopFreeHere(run: seq<State>, t: Tid, before: State, i: nat, j: nat, all: bool)
    requires IsRun(run) && Passes(run, t, i, j, InTopFree) && TopSoFar(before, run[i], t, all)
    requires AnswersAt(run, t, i, TopTestMin, all)
    ensures TopSoFar(before, run[i + 1], t, all)
  {
    hide IsRun, Inv, Next, Step, TopStep, MayMove, Passes, TopSoFar, InTopFree, HoldsMutex, Undisturbed, ThreadOk, QueuesOk;
    PassesOn(run, t, i, j, InTopFree);
    RunStep(run, i);
    InTables(run[i], t);
    TopMoveIsGo(run[i], t, Go(all));
    OwnerUndisturbed(run[i], run[i + 1], t);
    if Undisturbed(run[i], run[i + 1], t) {
      TopUndisturbed(before, run[i], run[i + 1], t, all);
    } else {
      var m :| MayMove(run[i], t, m) && run[i + 1] == Step(run[i], t, m);
      TopMoveIsGo(run[i], t, m);
      TopFreeStepGoesOn(before, run[i], t, all, if run[i].pc[t] == TopTestMin then all else m.yes);
    }
  }

  lemma {:induction false} TopFreeCall(run: seq<State>, t: Tid, before: State, i: nat, j: nat, all: bool)
    requires IsRun(run) && Passes(run, t, i, j, InTopFree) && TopSoFar(before, run[i], t, all)
    requires Answers(run, t, i, j, TopTestMin, all)
    ensures TopSoFar(before, run[j], t, all)
    decreases j - i
  {
    hide IsRun, Passes, TopSoFar, AnswersAt, InTopFree;
    PassesOn(run, t, i, j, InTopFree);
    TopFreeHere(run, t, before, i, j, all);
    if i + 1 < j {
      TopFreeCall(run, t, before, i + 1, j, all);
    }
  }

  /** The daemon's own wakeup at the head of its loop does the same for the threads that wait for pages. */
  lemma DaemonWakesWaiters(run: seq<State>, t: Tid, i: nat, j: nat, all: bool)
    requires IsRun(run) && Passes(run, t, i, j, InTopFree) && run[i].pc[t] == TopTestMin
    requires Answers(run, t, i, j, TopTestMin, all)
    ensures run[j].pc[t] == TopTestMet
    ensures all ==> !run[j].needed && run[j].waiters == {}
    ensures !all ==> run[j].needed == run[i].needed && run[j].waiters == run[i].waiters
  {
    hide IsRun, Answers;
    TopFreeCall(run, t, run[i], i, j, all);
  }

  predicate InTopMet(p: PC) { p.TopTestMet? || p.TopClearWanted? }

  ghost predicate Cleared(run: seq<State>, i: nat, j: nat) {
    j < |run| && exists m :: i <= m <= j && !run[m].wanted
  }

  ghost predicate MetSoFar(run: seq<State>, t: Tid, i0: nat, i: nat, met: bool)
    requires i0 <= i < |run|
  {
    t in run[i].pc &&
    match run[i].pc[t]
    case TopTestMet => run[i0].wanted ==> run[i].wanted
    case TopClearWanted => met
    case TopTestWanted => if met then Cleared(run, i0, i) else run[i0].wanted ==> run[i].wanted
    case _ => false
  }

  lemma MetStep(s: State, t: Tid, met: bool)
    requires t in s.pc && t in s.pass && InTopMet(s.pc[t])
    ensures var s' := TopStep(s, t, met);
      if s.pc[t] == TopTestMet then
        s'.wanted == s.wanted && s'.pc[t] == if met && s.wanted then TopClearWanted else TopTestWanted
      else s'.pc[t] == TopTestWanted && !s'.wanted
  {
  }

  lemma MetHere(run: seq<State>, t: Tid, i0: nat, i: nat, j: nat, met: bool)
    requires IsRun(run) && Passes(run, t, i, j, InTopMet) && i0 <= i && MetSoFar(run, t, i0, i, met)
    requires AnswersAt(run, t, i, TopTestMet, met)
    ensures i + 1 < |run| && MetSoFar(run, t, i0, i + 1, met)
  {
    hide IsRun, Inv, Next, Step, TopStep, MayMove, Passes, HoldsMutex, ThreadOk, QueuesOk;
    PassesOn(run, t, i, j, InTopMet);
    RunStep(run, i);
    InTables(run[i], t);
    var m := Go(met);
    TopMoveIsGo(run[i], t, m);
    OwnerUndisturbed(run[i], run[i + 1], t);
    if !Undisturbed(run[i], run[i + 1], t) {
      m :| MayMove(run[i], t, m) && run[i + 1] == Step(run[i], t, m);
      TopMoveIsGo(run[i], t, m);
      MetStep(run[i], t, if run[i].pc[t] == TopTestMet then met else m.yes);
    }
  }

  lemma {:induction false} MetCall(run: seq<State>, t: Tid, i0: nat, i: nat, j: nat, met: bool)
    requires IsRun(run) && Passes(run, t, i, j, InTopMet) && i0 <= i && MetSoFar(run, t, i0, i, met)
    requires Answers(run, t, i, j, TopTestMet, met)
    ensures i < j < |run| && MetSoFar(run, t, i0, j, met)
    decreases j - i
  {
    hide IsRun, Passes, MetSoFar, AnswersAt, InTopMet;
    PassesOn(run, t, i, j, InTopMet);
    MetHere(run, t, i0, i, j, met);
    if i + 1 < j {
      MetCall(run, t, i0, i + 1, j, met);
    }
  }

  /** If the last scan met its target, a pending request is taken back; if not, it stays. */
  lemma TargetMetClearsRequest(run: seq<State>, t: Tid, i: nat, j: nat, met: bool)
    requires IsRun(run) && Passes(run, t, i, j, InTopMet) && run[i].pc[t] == TopTestMet
    requires Answers(run, t, i, j, TopTestMet, met)
    ensures run[j].pc[t] == TopTestWanted
    ensures if met then Cleared(run, i, j) else run[i].wanted ==> run[j].wanted
  {
    hide IsRun, Answers, Cleared;
    MetCall(run, t, i, i, j, met);
  }
}
