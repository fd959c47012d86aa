/**
  The page busy lock (asgn3/vm_page.h:190-207, 559-586; asgn3/vm_page.c:762-970)
  as a transition system: one step per atomic operation on the busy word, per
  page-lock acquisition or release, per wakeup and per sleep.  Any thread may
  take its next step at any time, so a run is an arbitrary interleaving.

  `xholder` and `sholders` exist only in the model: no step reads them except to
  say which operations a caller is entitled to start.
 */
module BusyLock {
  import opened Wrappers

  type Tid = nat

  // ---- the word (vm_page.h:190-207) --------------------------------------

  /** The busy word by its fields: three flag bits and, above them, the sharer count. */
  datatype Word = Word(sharers: nat, waiters: bool, exclusive: bool, shared: bool)

  const UNBUSIED := SharersWord(0)
  const SINGLE_EXCLUSIVER := Word(0, false, true, false)

  function SharersWord(n: nat): Word { Word(n, false, false, true) }

  function Bit(b: bool): nat { if b then 1 else 0 }

  /** The machine word: VPB_BIT_SHARED is 1, _EXCLUSIVE 2, _WAITERS 4, VPB_ONE_SHARER 8. */
  function Encode(w: Word): nat {
    w.sharers * 8 + Bit(w.waiters) * 4 + Bit(w.exclusive) * 2 + Bit(w.shared)
  }

  /** The masks and shifts of vm_page.h read the fields back. */
  lemma EncodeFields(w: Word)
    ensures Encode(w) % 2 == Bit(w.shared)
    ensures Encode(w) / 2 % 2 == Bit(w.exclusive)
    ensures Encode(w) / 4 % 2 == Bit(w.waiters)
    ensures Encode(w) / 8 == w.sharers
  {
    assert Encode(w) / 4 == w.sharers * 2 + Bit(w.waiters);
    assert Encode(w) / 2 == w.sharers * 4 + Bit(w.waiters) * 2 + Bit(w.exclusive);
  }

  /** So a compare-and-set on machine words is one on their fields. */
  lemma EncodeInjective(w: Word, v: Word)
    requires Encode(w) == Encode(v)
    ensures w == v
  {
    EncodeFields(w);
    EncodeFields(v);
  }

  /** Adding or subtracting VPB_ONE_SHARER and setting or clearing the waiters bit change one field. */
  lemma EncodeUpdates(w: Word)
    ensures Encode(w.(sharers := w.sharers + 1)) == Encode(w) + 8
    ensures w.sharers >= 1 ==> Encode(w.(sharers := w.sharers - 1)) == Encode(w) - 8
    ensures !w.waiters ==> Encode(w.(waiters := true)) == Encode(w) + 4
    ensures w.waiters ==> Encode(w.(waiters := false)) == Encode(w) - 4
    ensures Encode(UNBUSIED) == 1 && Encode(SINGLE_EXCLUSIVER) == 2
    ensures forall n: nat :: Encode(SharersWord(n)) == n * 8 + 1
  {
  }

  // ---- states ------------------------------------------------------------

  /**
    Where a thread is inside one of the busy-lock functions.  The name of a
    constructor says which operation comes next; `x` is the local copy of the
    word, `locked` whether the page lock was already owned on entry and
    `nonshared` the argument of vm_page_busy_sleep.
   */
  datatype PC =
    | Idle
    | TrysLoad
    | TrysCas(x: Word)
    | SunLoad
    | SunCasMany(x: Word)
    | SunCasLast
    | SunLock(x: Word)
    | SunCasWaiters(x: Word)
    | SunRetry
    | SunWake
    | SunUnlock
    | DownLoad(locked: bool)
    | DownLock
    | DownCas(locked: bool, waiters: bool)
    | DownRetry
    | DownWake(locked: bool)
    | DownUnlock
    | SleepLoad(nonshared: bool)
    | SleepCas(nonshared: bool, x: Word)
    | SleepUnlock
    | SleepEnter(nonshared: bool)
    | Asleep(nonshared: bool)
    | XunFast(locked: bool)
    | XunLock
    | XunStore(locked: bool)
    | XunWake(locked: bool)
    | XunUnlock
    | FlashLoad
    | FlashCas(x: Word)
    | FlashWake
    | AssertionFailed

  datatype State = State(
    word: Word,
    lock: Option<Tid>,
    pc: map<Tid, PC>,
    xholder: Option<Tid>,
    sholders: multiset<Tid>
  )

  /** What an idle thread may do next. */
  datatype Call =
    | LockPage
    | UnlockPage
    | TryXbusy
    | TrySbusy
    | Sunbusy
    | Downgrade
    | BusySleep(nonshared: bool)
    | Xunbusy
    | Flash
    | HandOver(to: Tid)        // the exclusive hold passes to another thread
    | HandOverShared(to: Tid)  // and so may a shared one

  function At(s: State, t: Tid, p: PC): State {
    s.(pc := s.pc[t := p])
  }

  /** wakeup(m): every thread sleeping on the page leaves vm_page_busy_sleep. */
  function WakeAll(pc: map<Tid, PC>): map<Tid, PC> {
    map t | t in pc :: if pc[t].Asleep? then Idle else pc[t]
  }

  function AfterWakeup(s: State, t: Tid, p: PC): State {
    s.(pc := WakeAll(s.pc)[t := p])
  }

  // ---- steps -------------------------------------------------------------

  /** What the source demands of a caller (its lock and busy assertions). */
  ghost predicate MayStart(s: State, t: Tid, c: Call) {
    t in s.pc && s.pc[t] == Idle &&
    match c
    case LockPage => s.lock == None
    case UnlockPage => s.lock == Some(t)
    case TryXbusy => true
    case TrySbusy => true
    case Sunbusy => s.lock != Some(t) && t in s.sholders
    case Downgrade => s.xholder == Some(t)
    case BusySleep(_) => s.lock == Some(t)
    case Xunbusy => s.xholder == Some(t)
    case Flash => s.lock == Some(t)
    case HandOver(u) => s.xholder == Some(t) && u in s.pc
    case HandOverShared(u) => t in s.sholders && u in s.pc
  }

  ghost function Start(s: State, t: Tid, c: Call): State
    requires MayStart(s, t, c)
  {
    match c
    case LockPage => s.(lock := Some(t))
    case UnlockPage => s.(lock := None)
    case TryXbusy =>
      if s.word == UNBUSIED then s.(word := SINGLE_EXCLUSIVER, xholder := Some(t)) else s
    case TrySbusy => At(s, t, TrysLoad)
    case Sunbusy => At(s, t, SunLoad)
    case Downgrade => At(s, t, DownLoad(s.lock == Some(t)))
    case BusySleep(ns) => At(s, t, SleepLoad(ns))
    case Xunbusy => At(s, t, XunFast(s.lock == Some(t)))
    case Flash => At(s, t, FlashLoad)
    case HandOver(u) => s.(xholder := Some(u))
    case HandOverShared(u) => s.(sholders := s.sholders - multiset{t} + multiset{u})
  }

  /** A thread inside a function can step unless it waits for the page lock or for a wakeup. */
  predicate MayAdvance(s: State, t: Tid) {
    t in s.pc &&
    match s.pc[t]
    case Idle => false
    case Asleep(_) => false
    case AssertionFailed => false
    case SunLock(_) => s.lock == None
    case DownLock => s.lock == None
    case XunLock => s.lock == None
    case _ => true
  }

  predicate InTrysbusy(p: PC) { p.TrysLoad? || p.TrysCas? }

  predicate InSunbusy(p: PC) {
    p.SunLoad? || p.SunCasMany? || p.SunCasLast? || p.SunLock? || p.SunCasWaiters?
    || p.SunRetry? || p.SunWake? || p.SunUnlock?
  }

  predicate InDowngrade(p: PC) {
    p.DownLoad? || p.DownLock? || p.DownCas? || p.DownRetry? || p.DownWake? || p.DownUnlock?
  }

  predicate InBusySleep(p: PC) { p.SleepLoad? || p.SleepCas? || p.SleepUnlock? || p.SleepEnter? }

  predicate InXunbusy(p: PC) { p.XunFast? || p.XunLock? || p.XunStore? || p.XunWake? || p.XunUnlock? }

  /** vm_page_trysbusy (vm_page.c:880-892). */
  ghost function TrysbusyStep(s: State, t: Tid): State
    requires t in s.pc && InTrysbusy(s.pc[t])
  {
    match s.pc[t]
    case TrysLoad =>
      At(s, t, if s.word.shared then TrysCas(s.word) else Idle)
    case TrysCas(x) =>
      if s.word == x then
        At(s, t, Idle).(word := x.(sharers := x.sharers + 1), sholders := s.sholders + multiset{t})
      else At(s, t, TrysLoad)
  }

  /** vm_page_sunbusy (vm_page.c:808-844). */
  ghost function SunbusyStep(s: State, t: Tid): State
    requires t in s.pc && InSunbusy(s.pc[t])
  {
    match s.pc[t]
    case SunLoad =>
      var x := s.word;
      At(s, t,
         if x.sharers > 1 then SunCasMany(x)
         else if !x.waiters then
           (if x == SharersWord(1) then SunCasLast else AssertionFailed)
         else
           (if x == SharersWord(1).(waiters := true) then SunLock(x) else AssertionFailed))
    case SunCasMany(x) =>
      if s.word == x then
        At(s, t, Idle).(word := x.(sharers := if x.sharers > 0 then x.sharers - 1 else 0),
                        sholders := s.sholders - multiset{t})
      else At(s, t, SunLoad)
    case SunCasLast =>
      if s.word == SharersWord(1) then
        At(s, t, Idle).(word := UNBUSIED, sholders := s.sholders - multiset{t})
      else At(s, t, SunLoad)
    case SunLock(x) => At(s, t, SunCasWaiters(x)).(lock := Some(t))
    case SunCasWaiters(x) =>
      if s.word == x then
        At(s, t, SunWake).(word := UNBUSIED, sholders := s.sholders - multiset{t})
      else At(s, t, SunRetry)
    case SunRetry => At(s, t, SunLoad).(lock := None)
    case SunWake => AfterWakeup(s, t, SunUnlock)
    case SunUnlock => At(s, t, Idle).(lock := None)
  }

  /** vm_page_busy_downgrade (vm_page.c:762-787). */
  ghost function DowngradeStep(s: State, t: Tid): State
    requires t in s.pc && InDowngrade(s.pc[t])
  {
    match s.pc[t]
    case DownLoad(locked) =>
      At(s, t, if s.word.waiters && !locked then DownLock
               else DownCas(locked, s.word.waiters))
    case DownLock => At(s, t, DownCas(false, true)).(lock := Some(t))
    case DownCas(locked, waiters) =>
      if s.word == SINGLE_EXCLUSIVER.(waiters := waiters) then
        At(s, t, if waiters then DownWake(locked) else Idle)
        .(word := SharersWord(1), xholder := None, sholders := s.sholders + multiset{t})
      else At(s, t, if waiters && !locked then DownRetry else DownLoad(locked))
    case DownRetry => At(s, t, DownLoad(false)).(lock := None)
    case DownWake(locked) => AfterWakeup(s, t, if locked then Idle else DownUnlock)
    case DownUnlock => At(s, t, Idle).(lock := None)
  }

  /** vm_page_busy_sleep (vm_page.c:856-871); msleep sleeps and drops the lock in one step. */
  ghost function BusySleepStep(s: State, t: Tid): State
    requires t in s.pc && InBusySleep(s.pc[t])
  {
    match s.pc[t]
    case SleepLoad(ns) =>
      var x := s.word;
      At(s, t, if x == UNBUSIED || (ns && x.shared) then SleepUnlock
               else if !x.waiters then SleepCas(ns, x)
               else SleepEnter(ns))
    case SleepCas(ns, x) =>
      if s.word == x then At(s, t, SleepEnter(ns)).(word := x.(waiters := true))
      else At(s, t, SleepUnlock)
    case SleepUnlock => At(s, t, Idle).(lock := None)
    case SleepEnter(ns) => At(s, t, Asleep(ns)).(lock := None)
  }

  /** vm_page_xunbusy, _maybelocked and _hard (vm_page.h:579-584, vm_page.c:894-944). */
  ghost function XunbusyStep(s: State, t: Tid): State
    requires t in s.pc && InXunbusy(s.pc[t])
  {
    match s.pc[t]
    case XunFast(locked) =>
      if s.word == SINGLE_EXCLUSIVER then At(s, t, Idle).(word := UNBUSIED, xholder := None)
      else At(s, t, if locked then XunStore(locked) else XunLock)
    case XunLock => At(s, t, XunStore(false)).(lock := Some(t))
    case XunStore(locked) => At(s, t, XunWake(locked)).(word := UNBUSIED, xholder := None)
    case XunWake(locked) => AfterWakeup(s, t, if locked then Idle else XunUnlock)
    case XunUnlock => At(s, t, Idle).(lock := None)
  }

  /** vm_page_flash (vm_page.c:954-970). */
  ghost function FlashStep(s: State, t: Tid): State
    requires t in s.pc && (s.pc[t].FlashLoad? || s.pc[t].FlashCas? || s.pc[t].FlashWake?)
  {
    match s.pc[t]
    case FlashLoad => At(s, t, if s.word.waiters then FlashCas(s.word) else Idle)
    case FlashCas(x) =>
      if s.word == x then At(s, t, FlashWake).(word := x.(waiters := false)) else At(s, t, FlashLoad)
    case FlashWake => AfterWakeup(s, t, Idle)
  }

  ghost function Advance(s: State, t: Tid): State
    requires MayAdvance(s, t)
  {
    var p := s.pc[t];
    if InTrysbusy(p) then TrysbusyStep(s, t)
    else if InSunbusy(p) then SunbusyStep(s, t)
    else if InDowngrade(p) then DowngradeStep(s, t)
    else if InBusySleep(p) then BusySleepStep(s, t)
    else if InXunbusy(p) then XunbusyStep(s, t)
    else FlashStep(s, t)
  }

  ghost predicate Init(s: State) {
    && s.word == UNBUSIED && s.lock == None
    && s.xholder == None && s.sholders == multiset{}
    && forall t | t in s.pc :: s.pc[t] == Idle
  }

  ghost predicate Next(s: State, s': State) {
    || (exists t, c :: MayStart(s, t, c) && s' == Start(s, t, c))
    || (exists t :: MayAdvance(s, t) && s' == Advance(s, t))
  }

  ghost predicate IsRun(run: seq<State>) {
    && |run| > 0 && Init(run[0])
    && forall i, j | 0 <= i < j < |run| && j == i + 1 :: Next(run[i], run[j])
  }

  // ---- the invariant -----------------------------------------------------

  /** The word says exactly who holds the page: nobody, one exclusive holder or the sharers. */
  ghost predicate WordEncodesHolders(s: State) {
    if s.xholder.Some? then
      s.sholders == multiset{} && s.word.(waiters := false) == SINGLE_EXCLUSIVER
    else
      && s.word.(waiters := false) == SharersWord(|s.sholders|)
      && (s.word.waiters ==> s.sholders != multiset{})
  }

  /** The points at which a thread runs with the page lock. */
  predicate InLockedRegion(p: PC) {
    match p
    case SunCasWaiters(_) => true
    case SunRetry => true
    case SunWake => true
    case SunUnlock => true
    case DownLoad(locked) => locked
    case DownCas(locked, waiters) => locked || waiters
    case DownRetry => true
    case DownWake(_) => true
    case DownUnlock => true
    case SleepLoad(_) => true
    case SleepCas(_, _) => true
    case SleepUnlock => true
    case SleepEnter(_) => true
    case XunFast(locked) => locked
    case XunStore(_) => true
    case XunWake(_) => true
    case XunUnlock => true
    case FlashLoad => true
    case FlashCas(_) => true
    case FlashWake => true
    case _ => false
  }

  /** An idle thread, and one in vm_page_trysbusy, may have the page lock or not. */
  predicate LockKnown(p: PC) { !p.Idle? && !p.TrysLoad? && !p.TrysCas? && !p.AssertionFailed? }

  /** The points at which the waiters bit has been cleared and wakeup(m) is still to come. */
  predicate OwesWakeup(p: PC) {
    p.SunWake? || p.DownWake? || p.XunWake? || p.FlashWake?
  }

  predicate ReleasingShared(p: PC) {
    p.SunLoad? || p.SunCasMany? || p.SunCasLast? || p.SunLock? || p.SunCasWaiters? || p.SunRetry?
  }

  predicate ReleasingExclusive(p: PC) {
    p.DownLoad? || p.DownLock? || p.DownCas? || p.DownRetry? || p.XunFast? || p.XunLock? || p.XunStore?
  }

  /** What each local copy of the word is known to look like. */
  ghost predicate LocalsOk(s: State, t: Tid)
    requires t in s.pc
  {
    match s.pc[t]
    case TrysCas(x) => x.shared
    case SunCasMany(x) => x.sharers > 1
    case SunLock(x) => x == SharersWord(1).(waiters := true)
    case SunCasWaiters(x) => x == SharersWord(1).(waiters := true)
    case SleepCas(ns, x) => !x.waiters && x != UNBUSIED && !(ns && x.shared)
    case SleepEnter(ns) => s.word.waiters && (ns ==> s.word.exclusive)
    case FlashCas(x) => x.waiters
    case AssertionFailed => false
    case _ => true
  }

  ghost predicate ThreadOk(s: State, t: Tid)
    requires t in s.pc
  {
    && (LockKnown(s.pc[t]) ==> (s.lock == Some(t) <==> InLockedRegion(s.pc[t])))
    && (ReleasingShared(s.pc[t]) ==> t in s.sholders)
    && (ReleasingExclusive(s.pc[t]) ==> s.xholder == Some(t))
    && LocalsOk(s, t)
  }

  ghost predicate WakeupOwed(s: State) {
    s.lock.Some? && s.lock.value in s.pc && OwesWakeup(s.pc[s.lock.value])
  }

  /** A sleeper is announced by the waiters bit, or the page-lock holder is about to wake it. */
  ghost predicate SleeperOk(s: State, t: Tid)
    requires t in s.pc
  {
    s.pc[t].Asleep? ==>
      WakeupOwed(s) || (s.word.waiters && (s.pc[t].nonshared ==> s.word.exclusive))
  }

  ghost predicate Inv(s: State) {
    && WordEncodesHolders(s)
    && (forall t | t in s.pc :: ThreadOk(s, t))
    && (forall t | t in s.pc :: SleeperOk(s, t))
  }

  /** What a step of `t` leaves alone, as every other thread may rely on. */
  ghost predicate Respects(s: State, s': State, t: Tid) {
    && s'.pc.Keys == s.pc.Keys && t in s.pc
    && (forall u | u in s.pc && u != t ::
          && (s'.pc[u] == s.pc[u] || (s.pc[u].Asleep? && s'.pc[u] == Idle))
          && (s.lock == Some(u) <==> s'.lock == Some(u))
          && (s.xholder == Some(u) ==> s'.xholder == Some(u))
          && (u in s.sholders ==> u in s'.sholders))
  }

  /** The waiters bit, and an exclusive hold under it, go away only by the page-lock holder's hand. */
  ghost predicate KeepsAnnouncement(s: State, s': State) {
    s.word.waiters ==> s'.word.waiters && (s.word.exclusive ==> s'.word.exclusive)
  }

  ghost predicate NobodyAsleep(s: State) {
    forall u | u in s.pc :: !s.pc[u].Asleep?
  }

  /** The obligations of one step of `t`; StepKeepsInv shows they are enough. */
  ghost predicate GoodStep(s: State, s': State, t: Tid) {
    && Respects(s, s', t)
    && ThreadOk(s', t) && SleeperOk(s', t)
    && (s.lock == Some(t) || KeepsAnnouncement(s, s'))
    && (OwesWakeup(s.pc[t]) ==> NobodyAsleep(s'))
    && (NobodyAsleep(s') || WakeupOwed(s') || KeepsAnnouncement(s, s'))
  }

  lemma StepKeepsInv(s: State, s': State, t: Tid)
    requires Inv(s) && WordEncodesHolders(s') && GoodStep(s, s', t)
    ensures Inv(s')
  {
    forall u | u in s'.pc
      ensures ThreadOk(s', u) && SleeperOk(s', u)
    {
      assert ThreadOk(s, u) && SleeperOk(s, u);
    }
  }

  lemma TrysLoadOk(s: State, t: Tid)
    requires WordEncodesHolders(s) && MayAdvance(s, t) && ThreadOk(s, t)
    requires s.pc[t].TrysLoad?
    ensures WordEncodesHolders(TrysbusyStep(s, t)) && GoodStep(s, TrysbusyStep(s, t), t)
  {
  }

  lemma TrysCasOk(s: State, t: Tid)
    requires WordEncodesHolders(s) && MayAdvance(s, t) && ThreadOk(s, t)
    requires s.pc[t].TrysCas?
    ensures WordEncodesHolders(TrysbusyStep(s, t)) && GoodStep(s, TrysbusyStep(s, t), t)
  {
    if s.word == s.pc[t].x {
      assert s.xholder == None;
      assert |s.sholders + multiset{t}| == |s.sholders| + 1;
    }
  }

  lemma SunLoadOk(s: State, t: Tid)
    requires WordEncodesHolders(s) && MayAdvance(s, t) && ThreadOk(s, t)
    requires s.pc[t].SunLoad?
    ensures WordEncodesHolders(SunbusyStep(s, t)) && GoodStep(s, SunbusyStep(s, t), t)
  {
  }

  lemma SunCasManyOk(s: State, t: Tid)
    requires WordEncodesHolders(s) && MayAdvance(s, t) && ThreadOk(s, t)
    requires s.pc[t].SunCasMany?
    ensures WordEncodesHolders(SunbusyStep(s, t)) && GoodStep(s, SunbusyStep(s, t), t)
  {
    var x := s.pc[t].x;
    if s.word == x {
      assert |s.sholders - multiset{t}| == |s.sholders| - 1;
      assert |s.sholders - multiset{t}| > 0;
    }
  }

  lemma SunCasLastOk(s: State, t: Tid)
    requires WordEncodesHolders(s) && MayAdvance(s, t) && ThreadOk(s, t)
    requires s.pc[t].SunCasLast?
    ensures WordEncodesHolders(SunbusyStep(s, t)) && GoodStep(s, SunbusyStep(s, t), t)
  {
    if s.word == SharersWord(1) {
      assert |s.sholders - multiset{t}| == |s.sholders| - 1;
      assert s.sholders - multiset{t} == multiset{};
    }
  }

  lemma SunLockOk(s: State, t: Tid)
    requires WordEncodesHolders(s) && MayAdvance(s, t) && ThreadOk(s, t)
    requires s.pc[t].SunLock?
    ensures WordEncodesHolders(SunbusyStep(s, t)) && GoodStep(s, SunbusyStep(s, t), t)
  {
  }

  lemma SunCasWaitersOk(s: State, t: Tid)
    requires WordEncodesHolders(s) && MayAdvance(s, t) && ThreadOk(s, t)
    requires s.pc[t].SunCasWaiters?
    ensures WordEncodesHolders(SunbusyStep(s, t)) && GoodStep(s, SunbusyStep(s, t), t)
  {
    if s.word == s.pc[t].x {
      assert |s.sholders - multiset{t}| == |s.sholders| - 1;
      assert s.sholders - multiset{t} == multiset{};
    }
  }

  lemma SunRetryOk(s: State, t: Tid)
    requires WordEncodesHolders(s) && MayAdvance(s, t) && ThreadOk(s, t)
    requires s.pc[t].SunRetry?
    ensures WordEncodesHolders(SunbusyStep(s, t)) && GoodStep(s, SunbusyStep(s, t), t)
  {
  }

  lemma SunWakeOk(s: State, t: Tid)
    requires WordEncodesHolders(s) && MayAdvance(s, t) && ThreadOk(s, t)
    requires s.pc[t].SunWake?
    ensures WordEncodesHolders(SunbusyStep(s, t)) && GoodStep(s, SunbusyStep(s, t), t)
  {
  }

  lemma SunUnlockOk(s: State, t: Tid)
    requires WordEncodesHolders(s) && MayAdvance(s, t) && ThreadOk(s, t)
    requires s.pc[t].SunUnlock?
    ensures WordEncodesHolders(SunbusyStep(s, t)) && GoodStep(s, SunbusyStep(s, t), t)
  {
  }

  lemma DownLoadOk(s: State, t: Tid)
    requires WordEncodesHolders(s) && MayAdvance(s, t) && ThreadOk(s, t)
    requires s.pc[t].DownLoad?
    ensures WordEncodesHolders(DowngradeStep(s, t)) && GoodStep(s, DowngradeStep(s, t), t)
  {
  }

  lemma DownLockOk(s: State, t: Tid)
    requires WordEncodesHolders(s) && MayAdvance(s, t) && ThreadOk(s, t)
    requires s.pc[t].DownLock?
    ensures WordEncodesHolders(DowngradeStep(s, t)) && GoodStep(s, DowngradeStep(s, t), t)
  {
  }

  lemma DownCasOk(s: State, t: Tid)
    requires WordEncodesHolders(s) && MayAdvance(s, t) && ThreadOk(s, t)
    requires s.pc[t].DownCas?
    ensures WordEncodesHolders(DowngradeStep(s, t)) && GoodStep(s, DowngradeStep(s, t), t)
  {
  }

  lemma DownRetryOk(s: State, t: Tid)
    requires WordEncodesHolders(s) && MayAdvance(s, t) && ThreadOk(s, t)
    requires s.pc[t].DownRetry?
    ensures WordEncodesHolders(DowngradeStep(s, t)) && GoodStep(s, DowngradeStep(s, t), t)
  {
  }

  lemma DownWakeOk(s: State, t: Tid)
    requires WordEncodesHolders(s) && MayAdvance(s, t) && ThreadOk(s, t)
    requires s.pc[t].DownWake?
    ensures WordEncodesHolders(DowngradeStep(s, t)) && GoodStep(s, DowngradeStep(s, t), t)
  {
  }

  lemma DownUnlockOk(s: State, t: Tid)
    requires WordEncodesHolders(s) && MayAdvance(s, t) && ThreadOk(s, t)
    requires s.pc[t].DownUnlock?
    ensures WordEncodesHolders(DowngradeStep(s, t)) && GoodStep(s, DowngradeStep(s, t), t)
  {
  }

  lemma SleepLoadOk(s: State, t: Tid)
    requires WordEncodesHolders(s) && MayAdvance(s, t) && ThreadOk(s, t)
    requires s.pc[t].SleepLoad?
    ensures WordEncodesHolders(BusySleepStep(s, t)) && GoodStep(s, BusySleepStep(s, t), t)
  {
  }

  lemma SleepUnlockOk(s: State, t: Tid)
    requires WordEncodesHolders(s) && MayAdvance(s, t) && ThreadOk(s, t)
    requires s.pc[t].SleepUnlock?
    ensures WordEncodesHolders(BusySleepStep(s, t)) && GoodStep(s, BusySleepStep(s, t), t)
  {
  }

  lemma SleepCasOk(s: State, t: Tid)
    requires WordEncodesHolders(s) && MayAdvance(s, t) && ThreadOk(s, t)
    requires s.pc[t].SleepCas?
    ensures WordEncodesHolders(BusySleepStep(s, t)) && GoodStep(s, BusySleepStep(s, t), t)
  {
  }

  lemma SleepEnterOk(s: State, t: Tid)
    requires WordEncodesHolders(s) && MayAdvance(s, t) && ThreadOk(s, t)
    requires s.pc[t].SleepEnter?
    ensures WordEncodesHolders(BusySleepStep(s, t)) && GoodStep(s, BusySleepStep(s, t), t)
  {
  }

  lemma XunFastOk(s: State, t: Tid)
    requires WordEncodesHolders(s) && MayAdvance(s, t) && ThreadOk(s, t)
    requires s.pc[t].XunFast?
    ensures WordEncodesHolders(XunbusyStep(s, t)) && GoodStep(s, XunbusyStep(s, t), t)
  {
  }

  lemma XunLockOk(s: State, t: Tid)
    requires WordEncodesHolders(s) && MayAdvance(s, t) && ThreadOk(s, t)
    requires s.pc[t].XunLock?
    ensures WordEncodesHolders(XunbusyStep(s, t)) && GoodStep(s, XunbusyStep(s, t), t)
  {
  }

  lemma XunStoreOk(s: State, t: Tid)
    requires WordEncodesHolders(s) && MayAdvance(s, t) && ThreadOk(s, t)
    requires s.pc[t].XunStore?
    ensures WordEncodesHolders(XunbusyStep(s, t)) && GoodStep(s, XunbusyStep(s, t), t)
  {
  }

  lemma XunWakeOk(s: State, t: Tid)
    requires WordEncodesHolders(s) && MayAdvance(s, t) && ThreadOk(s, t)
    requires s.pc[t].XunWake?
    ensures WordEncodesHolders(XunbusyStep(s, t)) && GoodStep(s, XunbusyStep(s, t), t)
  {
  }

  lemma XunUnlockOk(s: State, t: Tid)
    requires WordEncodesHolders(s) && MayAdvance(s, t) && ThreadOk(s, t)
    requires s.pc[t].XunUnlock?
    ensures WordEncodesHolders(XunbusyStep(s, t)) && GoodStep(s, XunbusyStep(s, t), t)
  {
  }

  lemma FlashLoadOk(s: State, t: Tid)
    requires WordEncodesHolders(s) && MayAdvance(s, t) && ThreadOk(s, t)
    requires s.pc[t].FlashLoad?
    ensures WordEncodesHolders(FlashStep(s, t)) && GoodStep(s, FlashStep(s, t), t)
  {
  }

  lemma FlashCasOk(s: State, t: Tid)
    requires WordEncodesHolders(s) && MayAdvance(s, t) && ThreadOk(s, t)
    requires s.pc[t].FlashCas?
    ensures WordEncodesHolders(FlashStep(s, t)) && GoodStep(s, FlashStep(s, t), t)
  {
  }

  lemma FlashWakeOk(s: State, t: Tid)
    requires WordEncodesHolders(s) && MayAdvance(s, t) && ThreadOk(s, t)
    requires s.pc[t].FlashWake?
    ensures WordEncodesHolders(FlashStep(s, t)) && GoodStep(s, FlashStep(s, t), t)
  {
  }

  lemma AdvanceOk(s: State, t: Tid)
    requires WordEncodesHolders(s) && MayAdvance(s, t) && ThreadOk(s, t)
    ensures WordEncodesHolders(Advance(s, t)) && GoodStep(s, Advance(s, t), t)
  {
    hide WordEncodesHolders, GoodStep, ThreadOk;
    match s.pc[t]
    case TrysLoad => TrysLoadOk(s, t);
    case TrysCas(_) => TrysCasOk(s, t);
    case SunLoad => SunLoadOk(s, t);
    case SunCasMany(_) => SunCasManyOk(s, t);
    case SunCasLast => SunCasLastOk(s, t);
    case SunLock(_) => SunLockOk(s, t);
    case SunCasWaiters(_) => SunCasWaitersOk(s, t);
    case SunRetry => SunRetryOk(s, t);
    case SunWake => SunWakeOk(s, t);
    case SunUnlock => SunUnlockOk(s, t);
    case DownLoad(_) => DownLoadOk(s, t);
    case DownLock => DownLockOk(s, t);
    case DownCas(_, _) => DownCasOk(s, t);
    case DownRetry => DownRetryOk(s, t);
    case DownWake(_) => DownWakeOk(s, t);
    case DownUnlock => DownUnlockOk(s, t);
    case SleepLoad(_) => SleepLoadOk(s, t);
    case SleepUnlock => SleepUnlockOk(s, t);
    case SleepCas(_, _) => SleepCasOk(s, t);
    case SleepEnter(_) => SleepEnterOk(s, t);
    case XunFast(_) => XunFastOk(s, t);
    case XunLock => XunLockOk(s, t);
    case XunStore(_) => XunStoreOk(s, t);
    case XunWake(_) => XunWakeOk(s, t);
    case XunUnlock => XunUnlockOk(s, t);
    case FlashLoad => FlashLoadOk(s, t);
    case FlashCas(_) => FlashCasOk(s, t);
    case FlashWake => FlashWakeOk(s, t);
  }

  lemma LockCallOk(s: State, t: Tid, c: Call)
    requires WordEncodesHolders(s) && MayStart(s, t, c) && ThreadOk(s, t)
    requires c.LockPage? || c.UnlockPage? || c.TryXbusy?
    ensures WordEncodesHolders(Start(s, t, c)) && GoodStep(s, Start(s, t, c), t)
  {
  }

  lemma SharedCallOk(s: State, t: Tid, c: Call)
    requires WordEncodesHolders(s) && MayStart(s, t, c) && ThreadOk(s, t)
    requires c.TrySbusy? || c.Sunbusy?
    ensures WordEncodesHolders(Start(s, t, c)) && GoodStep(s, Start(s, t, c), t)
  {
  }

  lemma ExclusiveCallOk(s: State, t: Tid, c: Call)
    requires WordEncodesHolders(s) && MayStart(s, t, c) && ThreadOk(s, t)
    requires c.Downgrade? || c.Xunbusy?
    ensures WordEncodesHolders(Start(s, t, c)) && GoodStep(s, Start(s, t, c), t)
  {
  }

  lemma WaitCallOk(s: State, t: Tid, c: Call)
    requires WordEncodesHolders(s) && MayStart(s, t, c) && ThreadOk(s, t)
    requires c.BusySleep? || c.Flash?
    ensures WordEncodesHolders(Start(s, t, c)) && GoodStep(s, Start(s, t, c), t)
  {
  }

  lemma CallOk(s: State, t: Tid, c: Call)
    requires WordEncodesHolders(s) && MayStart(s, t, c) && ThreadOk(s, t)
    requires !c.HandOver? && !c.HandOverShared?
    ensures WordEncodesHolders(Start(s, t, c)) && GoodStep(s, Start(s, t, c), t)
  {
    if c.LockPage? || c.UnlockPage? || c.TryXbusy? {
      LockCallOk(s, t, c);
    } else if c.TrySbusy? || c.Sunbusy? {
      SharedCallOk(s, t, c);
    } else if c.Downgrade? || c.Xunbusy? {
      ExclusiveCallOk(s, t, c);
    } else {
      WaitCallOk(s, t, c);
    }
  }

  lemma HandOverKeepsInv(s: State, t: Tid, c: Call)
    requires Inv(s) && MayStart(s, t, c)
    requires c.HandOver? || c.HandOverShared?
    ensures Inv(Start(s, t, c))
  {
    var s' := Start(s, t, c);
    forall u | u in s'.pc
      ensures ThreadOk(s', u) && SleeperOk(s', u)
    {
      assert ThreadOk(s, u) && SleeperOk(s, u);
    }
  }

  lemma NextKeepsInv(s: State, s': State)
    requires Inv(s) && Next(s, s')
    ensures Inv(s')
  {
    if t, c :| MayStart(s, t, c) && s' == Start(s, t, c) {
      if c.HandOver? || c.HandOverShared? {
        HandOverKeepsInv(s, t, c);
      } else {
        CallOk(s, t, c);
        StepKeepsInv(s, s', t);
      }
    } else {
      var t :| MayAdvance(s, t) && s' == Advance(s, t);
      AdvanceOk(s, t);
      StepKeepsInv(s, s', t);
    }
  }

  // ---- what holds over every run -------------------------------------------

  lemma {:induction false} RunKeepsInv(run: seq<State>, i: nat)
    requires IsRun(run) && i < |run|
    ensures Inv(run[i])
  {
    if i > 0 {
      RunKeepsInv(run, i - 1);
      NextKeepsInv(run[i - 1], run[i]);
    }
  }

  /**
    In every interleaving the word counts exactly the holders: one exclusive
    holder and no sharer, or any number of sharers and no exclusive holder.  No
    assertion of vm_page_sunbusy fails.
   */
  lemma BusyWordSafe(run: seq<State>, i: nat)
    requires IsRun(run) && i < |run|
    ensures var s := run[i];
            && (s.word.exclusive <==> s.xholder.Some?)
            && s.word.shared != s.word.exclusive
            && s.word.sharers == |s.sholders|
            && (s.xholder.Some? ==> s.sholders == multiset{})
            && (s.word == UNBUSIED <==> s.xholder == None && s.sholders == multiset{})
            && forall t | t in s.pc :: s.pc[t] != AssertionFailed
  {
    RunKeepsInv(run, i);
    forall t | t in run[i].pc
      ensures run[i].pc[t] != AssertionFailed
    {
      assert ThreadOk(run[i], t);
    }
  }

  /**
    No wakeup is lost: while nobody has the page lock, a thread that sleeps on
    the page has its waiters bit set and a holder whose release must take the
    slow path; one that asked to wait for an exclusive holder only has one.
   */
  lemma NoSleeperLost(run: seq<State>, i: nat, t: Tid)
    requires IsRun(run) && i < |run|
    requires run[i].lock == None && t in run[i].pc && run[i].pc[t].Asleep?
    ensures run[i].word.waiters && run[i].word != UNBUSIED
    ensures run[i].xholder.Some? || run[i].sholders != multiset{}
    ensures run[i].pc[t].nonshared ==> run[i].xholder.Some?
  {
    RunKeepsInv(run, i);
    assert SleeperOk(run[i], t);
  }

  /** A page lock held across a cleared waiters bit always comes with a pending wakeup for the sleepers. */
  lemma SleeperAnnounced(run: seq<State>, i: nat, t: Tid)
    requires IsRun(run) && i < |run|
    requires t in run[i].pc && run[i].pc[t].Asleep? && !run[i].word.waiters
    ensures WakeupOwed(run[i])
  {
    RunKeepsInv(run, i);
    assert SleeperOk(run[i], t);
  }

  // ---- what a call has done when it returns --------------------------------

  /** A thread is inside a call from state i of the run until it returns in state j. */
  ghost predicate Inside(run: seq<State>, t: Tid, i: nat, j: nat) {
    && i < j < |run|
    && (forall m | i <= m < j :: t in run[m].pc && !run[m].pc[t].Idle?)
    && t in run[j].pc && run[j].pc[t].Idle?
  }

  /** Nobody's hold changes, and of the word at most the waiters bit. */
  ghost predicate Quiet(s: State, s': State) {
    s'.xholder == s.xholder && s'.sholders == s.sholders && s'.word.(waiters := s.word.waiters) == s.word
  }

  /** Of the steps of t from state i to state j, only the one into state k is not quiet. */
  ghost predicate QuietExcept(run: seq<State>, t: Tid, i: nat, j: nat, k: nat)
    requires j < |run|
  {
    forall m | i < m <= j && m != k :: QuietAt(run, t, m)
  }

  /** A thread whose program counter changes, unless it is woken, has taken the step. */
  ghost predicate QuietAt(run: seq<State>, t: Tid, m: nat)
    requires m < |run|
  {
    (m > 0 && t in run[m - 1].pc && t in run[m].pc && run[m].pc[t] != run[m - 1].pc[t] && !run[m - 1].pc[t].Asleep?) ==>
      Quiet(run[m - 1], run[m])
  }

  lemma MovedItself(s: State, s': State, t: Tid)
    requires Inv(s) && Next(s, s') && t in s.pc && !s.pc[t].Idle? && !s.pc[t].Asleep?
    ensures t in s'.pc && (s'.pc[t] != s.pc[t] ==> MayAdvance(s, t) && s' == Advance(s, t))
    ensures s'.pc[t] == s.pc[t] ==> (s'.lock == Some(t) <==> s.lock == Some(t))
  {
    hide Inv, WordEncodesHolders, ThreadOk, SleeperOk, KeepsAnnouncement;
    if u, c :| MayStart(s, u, c) && s' == Start(s, u, c) {
      if c.HandOver? || c.HandOverShared? {
      } else {
        StartRespects(s, u, c);
      }
    } else {
      var u :| MayAdvance(s, u) && s' == Advance(s, u);
      AdvanceRespects(s, u);
      if u == t {
        AdvanceMoves(s, t);
      }
    }
  }

  lemma StartRespects(s: State, u: Tid, c: Call)
    requires Inv(s) && MayStart(s, u, c) && !c.HandOver? && !c.HandOverShared?
    ensures Respects(s, Start(s, u, c), u)
  {
    hide WordEncodesHolders, Respects;
    assert ThreadOk(s, u);
    CallOk(s, u, c);
  }

  lemma AdvanceRespects(s: State, u: Tid)
    requires Inv(s) && MayAdvance(s, u)
    ensures Respects(s, Advance(s, u), u)
  {
    hide WordEncodesHolders, Respects;
    assert ThreadOk(s, u);
    AdvanceOk(s, u);
  }

  lemma AdvanceMoves(s: State, t: Tid)
    requires MayAdvance(s, t)
    ensures t in Advance(s, t).pc && Advance(s, t).pc[t] != s.pc[t]
  {
  }

  // -- releasing: vm_page_sunbusy, vm_page_busy_downgrade and vm_page_xunbusy

  datatype Release = Sharer | Downgrader | Owner

  predicate InCall(p: PC, r: Release) {
    match r
    case Sharer => InSunbusy(p)
    case Downgrader => InDowngrade(p)
    case Owner => InXunbusy(p)
  }

  /** The release is still to come. */
  predicate Pending(p: PC) { ReleasingShared(p) || ReleasingExclusive(p) }

  /** The page lock was owned when the call began, or not. */
  predicate Entered(p: PC, locked: bool) {
    match p
    case DownLoad(l) => l == locked
    case DownCas(l, _) => l == locked
    case DownWake(l) => l == locked
    case XunFast(l) => l == locked
    case XunStore(l) => l == locked
    case XunWake(l) => l == locked
    case _ => !locked
  }

  /** What the call is for. */
  ghost predicate Released(s: State, s': State, t: Tid, r: Release) {
    if r == Sharer then
      t in s.sholders && s'.sholders == s.sholders - multiset{t} && s'.xholder == s.xholder
    else
      && s.xholder == Some(t) && s'.xholder == None
      && s'.sholders == s.sholders + (if r == Downgrader then multiset{t} else multiset{})
      && s'.word == SharersWord(if r == Downgrader then 1 else 0)
  }

  /** Thread t is inside such a call, or has just returned from it. */
  ghost predicate Mid(s: State, t: Tid, r: Release, locked: bool) {
    t in s.pc && InCall(s.pc[t], r) && Entered(s.pc[t], locked)
  }

  ghost predicate Left(s: State, t: Tid, locked: bool) {
    t in s.pc && s.pc[t].Idle? && (s.lock == Some(t) <==> locked)
  }

  /** The release takes place on the way from s to s'. */
  ghost predicate Releases(s: State, s': State, t: Tid) {
    t in s.pc && t in s'.pc && Pending(s.pc[t]) && !Pending(s'.pc[t])
  }

  ghost predicate GoodRelease(s: State, s': State, t: Tid, r: Release, locked: bool) {
    && t in s.pc && t in s'.pc
    && (Left(s', t, locked) || Mid(s', t, r, locked))
    && (Pending(s'.pc[t]) ==> Pending(s.pc[t]))
    && if Releases(s, s', t) then Released(s, s', t, r) else Quiet(s, s')
  }

  lemma SunbusyBegins(s: State, t: Tid)
    requires WordEncodesHolders(s) && MayAdvance(s, t) && ThreadOk(s, t)
    requires s.pc[t].SunLoad? || s.pc[t].SunLock? || s.pc[t].SunRetry?
    ensures GoodRelease(s, SunbusyStep(s, t), t, Sharer, false)
  {
  }

  lemma SunbusySets(s: State, t: Tid)
    requires MayAdvance(s, t) && ThreadOk(s, t) && (s.pc[t].SunCasMany? || s.pc[t].SunCasLast?)
    ensures GoodRelease(s, SunbusyStep(s, t), t, Sharer, false)
  {
    hide WordEncodesHolders;
  }

  lemma SunbusySetsLocked(s: State, t: Tid)
    requires MayAdvance(s, t) && ThreadOk(s, t) && s.pc[t].SunCasWaiters?
    ensures GoodRelease(s, SunbusyStep(s, t), t, Sharer, false)
  {
    hide WordEncodesHolders;
  }

  lemma SunbusyEnds(s: State, t: Tid)
    requires MayAdvance(s, t) && ThreadOk(s, t) && (s.pc[t].SunWake? || s.pc[t].SunUnlock?)
    ensures GoodRelease(s, SunbusyStep(s, t), t, Sharer, false)
  {
  }

  lemma SunbusyEffect(s: State, t: Tid)
    requires WordEncodesHolders(s) && MayAdvance(s, t) && ThreadOk(s, t) && InSunbusy(s.pc[t])
    ensures GoodRelease(s, SunbusyStep(s, t), t, Sharer, false)
  {
    hide WordEncodesHolders, ThreadOk, GoodRelease, SunbusyStep;
    if s.pc[t].SunLoad? || s.pc[t].SunLock? || s.pc[t].SunRetry? {
      SunbusyBegins(s, t);
    } else if s.pc[t].SunWake? || s.pc[t].SunUnlock? {
      SunbusyEnds(s, t);
    } else if s.pc[t].SunCasWaiters? {
      SunbusySetsLocked(s, t);
    } else {
      SunbusySets(s, t);
    }
  }

  lemma DowngradeSets(s: State, t: Tid, locked: bool)
    requires WordEncodesHolders(s) && MayAdvance(s, t) && ThreadOk(s, t) && s.pc[t].DownCas? && Entered(s.pc[t], locked)
    ensures GoodRelease(s, DowngradeStep(s, t), t, Downgrader, locked)
  {
  }

  lemma DowngradeGoesOn(s: State, t: Tid, locked: bool)
    requires MayAdvance(s, t) && ThreadOk(s, t) && InDowngrade(s.pc[t]) && !s.pc[t].DownCas? && Entered(s.pc[t], locked)
    ensures GoodRelease(s, DowngradeStep(s, t), t, Downgrader, locked)
  {
  }

  lemma DowngradeEffect(s: State, t: Tid, locked: bool)
    requires WordEncodesHolders(s) && MayAdvance(s, t) && ThreadOk(s, t) && InDowngrade(s.pc[t]) && Entered(s.pc[t], locked)
    ensures GoodRelease(s, DowngradeStep(s, t), t, Downgrader, locked)
  {
    hide WordEncodesHolders, ThreadOk, GoodRelease, DowngradeStep;
    if s.pc[t].DownCas? {
      DowngradeSets(s, t, locked);
    } else {
      DowngradeGoesOn(s, t, locked);
    }
  }

  lemma XunbusySets(s: State, t: Tid, locked: bool)
    requires WordEncodesHolders(s) && MayAdvance(s, t) && ThreadOk(s, t)
    requires (s.pc[t].XunFast? || s.pc[t].XunStore?) && Entered(s.pc[t], locked)
    ensures GoodRelease(s, XunbusyStep(s, t), t, Owner, locked)
  {
  }

  lemma XunbusyGoesOn(s: State, t: Tid, locked: bool)
    requires MayAdvance(s, t) && ThreadOk(s, t)
    requires (s.pc[t].XunLock? || s.pc[t].XunWake? || s.pc[t].XunUnlock?) && Entered(s.pc[t], locked)
    ensures GoodRelease(s, XunbusyStep(s, t), t, Owner, locked)
  {
  }

  lemma XunbusyEffect(s: State, t: Tid, locked: bool)
    requires WordEncodesHolders(s) && MayAdvance(s, t) && ThreadOk(s, t) && InXunbusy(s.pc[t]) && Entered(s.pc[t], locked)
    ensures GoodRelease(s, XunbusyStep(s, t), t, Owner, locked)
  {
    hide WordEncodesHolders, ThreadOk, GoodRelease, XunbusyStep;
    if s.pc[t].XunFast? || s.pc[t].XunStore? {
      XunbusySets(s, t, locked);
    } else {
      XunbusyGoesOn(s, t, locked);
    }
  }

  lemma ReleaseEffect(s: State, t: Tid, r: Release, locked: bool)
    requires WordEncodesHolders(s) && MayAdvance(s, t) && ThreadOk(s, t) && Mid(s, t, r, locked)
    ensures GoodRelease(s, Advance(s, t), t, r, locked)
  {
    hide WordEncodesHolders, ThreadOk, GoodRelease, SunbusyStep, DowngradeStep, XunbusyStep;
    match r
    case Sharer => SunbusyEffect(s, t);
    case Downgrader => DowngradeEffect(s, t, locked);
    case Owner => XunbusyEffect(s, t, locked);
  }

  lemma InCallMoves(p: PC, r: Release)
    requires InCall(p, r)
    ensures !p.Idle? && !p.Asleep?
  {
  }

  /** A step of anybody while t is inside such a call. */
  lemma ReleaseStep(s: State, s': State, t: Tid, r: Release, locked: bool)
    requires Inv(s) && Next(s, s') && Mid(s, t, r, locked)
    ensures t in s.pc && t in s'.pc && (s'.pc[t] == s.pc[t] || GoodRelease(s, s', t, r, locked))
  {
    hide WordEncodesHolders, ThreadOk, SleeperOk, GoodRelease, Next, Advance, MayAdvance, InCall, Entered;
    InCallMoves(s.pc[t], r);
    MovedItself(s, s', t);
    if s'.pc[t] != s.pc[t] {
      ReleaseEffect(s, t, r, locked);
    }
  }

  lemma RunStep(run: seq<State>, i: nat)
    requires IsRun(run) && i + 1 < |run|
    ensures Inv(run[i]) && Next(run[i], run[i + 1])
  {
    hide Inv;
    RunKeepsInv(run, i);
  }

  lemma Shorter(run: seq<State>, t: Tid, i: nat, j: nat)
    requires Inside(run, t, i, j)
    ensures i + 1 <= j < |run|
    ensures i + 1 < j ==> Inside(run, t, i + 1, j)
    ensures t in run[i].pc && !run[i].pc[t].Idle? && t in run[i + 1].pc && (run[i + 1].pc[t].Idle? <==> i + 1 == j)
  {
  }

  lemma NotPending(p: PC)
    requires p.Idle?
    ensures !Pending(p)
  {
  }

  /** One state on: either t is still inside, or this was the return. */
  lemma ReleaseHere(run: seq<State>, t: Tid, i: nat, j: nat, r: Release, locked: bool)
    requires IsRun(run) && Inside(run, t, i, j) && Mid(run[i], t, r, locked)
    ensures i + 1 <= j < |run| && t in run[i].pc && t in run[i + 1].pc
    ensures if i + 1 < j then Inside(run, t, i + 1, j) && Mid(run[i + 1], t, r, locked)
            else !Pending(run[j].pc[t]) && Left(run[j], t, locked)
    ensures Pending(run[i + 1].pc[t]) ==> Pending(run[i].pc[t])
    ensures if Releases(run[i], run[i + 1], t) then Released(run[i], run[i + 1], t, r) else QuietAt(run, t, i + 1)
  {
    hide IsRun, Inv, Next, Inside, Released, Quiet, Pending, InCall, Entered;
    Shorter(run, t, i, j);
    RunStep(run, i);
    ReleaseStep(run[i], run[i + 1], t, r, locked);
    if i + 1 == j {
      NotPending(run[j].pc[t]);
      if Mid(run[j], t, r, locked) {
        InCallMoves(run[j].pc[t], r);
      }
    }
  }

  /** If the release is still to come, it is one step of the call; all others are quiet. */
  lemma {:induction false} ReleaseCall(run: seq<State>, t: Tid, i: nat, j: nat, r: Release, locked: bool) returns (k: nat)
    requires IsRun(run) && Inside(run, t, i, j) && Mid(run[i], t, r, locked)
    ensures j < |run| && t in run[i].pc && Left(run[j], t, locked)
    ensures if Pending(run[i].pc[t]) then i < k <= j && Released(run[k - 1], run[k], t, r) else k == i
    ensures QuietExcept(run, t, i, j, k)
    decreases j - i
  {
    hide IsRun, Inside, Released, Mid, Left, QuietAt, Pending;
    ReleaseHere(run, t, i, j, r, locked);
    k := if Pending(run[i].pc[t]) then i + 1 else i;
    if i + 1 < j {
      var k' := ReleaseCall(run, t, i + 1, j, r, locked);
      k := if Pending(run[i].pc[t]) then k' else i;
    }
  }

  lemma EntryLock(run: seq<State>, t: Tid, i: nat)
    requires IsRun(run) && i < |run| && t in run[i].pc
    ensures LockKnown(run[i].pc[t]) ==> (run[i].lock == Some(t) <==> InLockedRegion(run[i].pc[t]))
  {
    RunKeepsInv(run, i);
    assert ThreadOk(run[i], t);
  }

  /**
    vm_page_xunbusy, from its first step to its return: at one step the exclusive hold
    of the thread ends and the page is unbusied; its other steps change no hold.  It
    returns with the page lock exactly if it was called with it.
   */
  lemma XunbusyReleases(run: seq<State>, t: Tid, i: nat, j: nat) returns (k: nat)
    requires IsRun(run) && Inside(run, t, i, j) && run[i].pc[t].XunFast?
    ensures i < k <= j && QuietExcept(run, t, i, j, k)
    ensures run[k - 1].xholder == Some(t) && run[k].xholder == None && run[k].word == UNBUSIED
    ensures run[j].lock == Some(t) <==> run[i].lock == Some(t)
  {
    hide IsRun, QuietExcept;
    EntryLock(run, t, i);
    k := ReleaseCall(run, t, i, j, Owner, run[i].pc[t].locked);
  }

  /** vm_page_sunbusy: at one step exactly one shared hold of the thread ends; it returns without the page lock. */
  lemma SunbusyReleases(run: seq<State>, t: Tid, i: nat, j: nat) returns (k: nat)
    requires IsRun(run) && Inside(run, t, i, j) && run[i].pc[t].SunLoad?
    ensures i < k <= j && QuietExcept(run, t, i, j, k)
    ensures t in run[k - 1].sholders && run[k].sholders == run[k - 1].sholders - multiset{t}
    ensures run[k].xholder == run[k - 1].xholder && run[j].lock != Some(t)
  {
    hide IsRun, QuietExcept;
    k := ReleaseCall(run, t, i, j, Sharer, false);
  }

  /**
    vm_page_busy_downgrade: at one step the exclusive hold of the thread becomes one
    shared hold, the only one; it returns with the page lock exactly if called with it.
   */
  lemma DowngradeShares(run: seq<State>, t: Tid, i: nat, j: nat) returns (k: nat)
    requires IsRun(run) && Inside(run, t, i, j) && run[i].pc[t].DownLoad?
    ensures i < k <= j && QuietExcept(run, t, i, j, k)
    ensures run[k - 1].xholder == Some(t) && run[k].xholder == None
    ensures run[k].sholders == multiset{t} && run[k].word == SharersWord(1)
    ensures run[j].lock == Some(t) <==> run[i].lock == Some(t)
  {
    hide IsRun, QuietExcept;
    EntryLock(run, t, i);
    BusyWordSafeAt(run, j);
    k := ReleaseCall(run, t, i, j, Downgrader, run[i].pc[t].locked);
  }

  /** In every state of the run. */
  lemma BusyWordSafeAt(run: seq<State>, j: nat)
    requires IsRun(run) && j < |run|
    ensures forall m | 0 <= m <= j :: run[m].xholder.Some? ==> run[m].sholders == multiset{}
  {
    forall m | 0 <= m <= j
      ensures run[m].xholder.Some? ==> run[m].sholders == multiset{}
    {
      BusyWordSafe(run, m);
    }
  }

  // -- vm_page_tryxbusy and vm_page_trysbusy

  /** An attempt at an exclusive hold succeeds exactly if nobody holds the page. */
  lemma TryXbusyTakes(run: seq<State>, i: nat, t: Tid)
    requires IsRun(run) && i < |run| && MayStart(run[i], t, TryXbusy)
    ensures var s, s' := run[i], Start(run[i], t, TryXbusy);
      && s'.xholder == (if s.xholder == None && s.sholders == multiset{} then Some(t) else s.xholder)
      && s'.sholders == s.sholders
  {
    BusyWordSafe(run, i);
  }

  predicate TrysPC(p: PC) { p.TrysLoad? || p.TrysCas? }

  lemma TrysbusyStepEffect(s: State, s': State, t: Tid)
    requires Inv(s) && Next(s, s') && t in s.pc && TrysPC(s.pc[t])
    ensures t in s'.pc && (TrysPC(s'.pc[t]) || s'.pc[t].Idle?)
    ensures s'.pc[t].Idle? ==>
      s'.xholder == s.xholder && s'.sholders == s.sholders + if s.xholder == None then multiset{t} else multiset{}
    ensures TrysPC(s'.pc[t]) && s'.pc[t] != s.pc[t] ==> Quiet(s, s')
  {
    MovedItself(s, s', t);
    assert ThreadOk(s, t);
    hide ThreadOk, SleeperOk, Next;
  }

  lemma {:induction false} TrysbusyQuiet(run: seq<State>, t: Tid, i: nat, j: nat)
    requires IsRun(run) && Inside(run, t, i, j) && TrysPC(run[i].pc[t])
    ensures TrysPC(run[j - 1].pc[t]) && QuietExcept(run, t, i, j, j)
    decreases j - i
  {
    hide IsRun, Inv, Next, Inside, Quiet;
    Shorter(run, t, i, j);
    RunStep(run, i);
    TrysbusyStepEffect(run[i], run[i + 1], t);
    if i + 1 < j {
      assert QuietAt(run, t, i + 1);
      TrysbusyQuiet(run, t, i + 1, j);
    }
  }

  /**
    vm_page_trysbusy: its last step adds a shared hold of the thread, unless at that
    point the page is held exclusively; its other steps change no hold.
   */
  lemma TrysbusyTakes(run: seq<State>, t: Tid, i: nat, j: nat)
    requires IsRun(run) && Inside(run, t, i, j) && run[i].pc[t].TrysLoad?
    ensures QuietExcept(run, t, i, j, j)
    ensures run[j].sholders == run[j - 1].sholders + if run[j - 1].xholder == None then multiset{t} else multiset{}
    ensures run[j].xholder == run[j - 1].xholder
  {
    hide IsRun, QuietExcept, Inv, Next, Quiet, QuietAt;
    TrysbusyQuiet(run, t, i, j);
    RunStep(run, j - 1);
    TrysbusyStepEffect(run[j - 1], run[j], t);
  }

  // -- vm_page_flash

  predicate InFlash(p: PC) { p.FlashLoad? || p.FlashCas? || p.FlashWake? }

  /** The thread is on its way through vm_page_flash, or has just returned. */
  ghost predicate Flashing(s: State, t: Tid) { t in s.pc && InFlash(s.pc[t]) && s.lock == Some(t) }

  ghost predicate Flashed(s: State, t: Tid) {
    t in s.pc && s.pc[t].Idle? && s.lock == Some(t) && NobodyAsleep(s)
  }

  lemma FlashEffect(s: State, t: Tid)
    requires WordEncodesHolders(s) && MayAdvance(s, t) && ThreadOk(s, t) && Flashing(s, t)
    requires forall u | u in s.pc :: SleeperOk(s, u)
    ensures var s' := FlashStep(s, t);
      && Quiet(s, s') && (Flashing(s', t) || Flashed(s', t))
      && (s'.pc[t].Idle? && !s.pc[t].FlashWake? ==> !s.word.waiters)
      && (s'.pc[t].FlashWake? ==> !s'.word.waiters)
  {
    if s.pc[t].FlashLoad? && !s.word.waiters {
      forall u | u in s.pc
        ensures !s.pc[u].Asleep?
      {
        assert SleeperOk(s, u);
      }
    }
  }

  lemma FlashGoesOn(s: State, s': State, t: Tid)
    requires Inv(s) && Next(s, s') && Flashing(s, t)
    ensures t in s'.pc && (Flashing(s', t) || Flashed(s', t))
    ensures s'.pc[t] != s.pc[t] ==> Quiet(s, s')
    ensures s'.pc[t].Idle? && !s.pc[t].FlashWake? ==> !s.word.waiters
    ensures s'.pc[t].FlashWake? && !s.pc[t].FlashWake? ==> !s'.word.waiters
  {
    assert ThreadOk(s, t);
    hide WordEncodesHolders, ThreadOk, SleeperOk, Next, FlashStep, Quiet, TrysbusyStep, SunbusyStep, DowngradeStep,
      BusySleepStep, XunbusyStep, NobodyAsleep;
    MovedItself(s, s', t);
    if s'.pc[t] != s.pc[t] {
      FlashEffect(s, t);
    }
  }

  /** Between states i and j the waiters bit was clear. */
  ghost predicate BitClear(run: seq<State>, i: nat, j: nat) {
    j < |run| && exists m :: i <= m <= j && !run[m].word.waiters
  }

  lemma FlashHere(run: seq<State>, t: Tid, i0: nat, i: nat, j: nat)
    requires IsRun(run) && Inside(run, t, i, j) && Flashing(run[i], t) && i0 <= i
    requires run[i].pc[t].FlashWake? ==> BitClear(run, i0, i)
    ensures i + 1 <= j < |run| && QuietAt(run, t, i + 1)
    ensures if i + 1 < j then Inside(run, t, i + 1, j) && Flashing(run[i + 1], t) else Flashed(run[j], t)
    ensures t in run[i + 1].pc && (run[i + 1].pc[t].FlashWake? || i + 1 == j ==> BitClear(run, i0, i + 1))
  {
    hide IsRun, Inv, Next, Inside, Quiet, InFlash, NobodyAsleep;
    Shorter(run, t, i, j);
    RunStep(run, i);
    FlashGoesOn(run[i], run[i + 1], t);
    NotFlashing(run[i + 1], t);
  }

  lemma NotFlashing(s: State, t: Tid)
    ensures Flashing(s, t) ==> !s.pc[t].Idle?
  {
  }

  lemma {:induction false} FlashCall(run: seq<State>, t: Tid, i0: nat, i: nat, j: nat)
    requires IsRun(run) && Inside(run, t, i, j) && Flashing(run[i], t) && i0 <= i
    requires run[i].pc[t].FlashWake? ==> BitClear(run, i0, i)
    ensures j < |run| && Flashed(run[j], t) && QuietExcept(run, t, i, j, i) && BitClear(run, i0, j)
    decreases j - i
  {
    hide IsRun, Inside, Flashing, Flashed, QuietAt, BitClear;
    FlashHere(run, t, i0, i, j);
    if i + 1 < j {
      assert t in run[i + 1].pc;
      FlashCall(run, t, i0, i + 1, j);
    }
  }

  /**
    vm_page_flash: it returns, with the page lock, when nobody sleeps on the page any
    more and the waiters bit has been clear; it changes no hold.
   */
  lemma FlashWakesAll(run: seq<State>, t: Tid, i: nat, j: nat)
    requires IsRun(run) && Inside(run, t, i, j) && run[i].pc[t].FlashLoad?
    ensures NobodyAsleep(run[j]) && run[j].lock == Some(t)
    ensures QuietExcept(run, t, i, j, i) && BitClear(run, i, j)
  {
    hide IsRun, QuietExcept, NobodyAsleep, BitClear;
    EntryLock(run, t, i);
    FlashCall(run, t, i, i, j);
  }

  // -- vm_page_busy_sleep

  predicate InSleep(p: PC, ns: bool) {
    (p.SleepLoad? || p.SleepCas? || p.SleepEnter? || p.Asleep?) ==> p.nonshared == ns
  }

  ghost predicate Sleeping(s: State, t: Tid, ns: bool) {
    && t in s.pc && (InBusySleep(s.pc[t]) || s.pc[t].Asleep?) && InSleep(s.pc[t], ns)
    && (s.lock == Some(t) <==> !s.pc[t].Asleep?)
  }

  /** The page did not need to be waited for, or its word changed. */
  ghost predicate NoNeed(run: seq<State>, ns: bool, i: nat, j: nat) {
    j < |run| && exists a, b :: i <= a <= b <= j && Excuse(run[a].word, run[b].word, ns)
  }

  predicate Excuse(x: Word, y: Word, ns: bool) { x == UNBUSIED || (ns && x.shared) || y != x }

  /** A step of t itself: what it needs to know in order to give up. */
  lemma SleepEffect(s: State, t: Tid, ns: bool)
    requires MayAdvance(s, t) && Sleeping(s, t, ns)
    ensures var s', p := BusySleepStep(s, t), s.pc[t]; var p' := s'.pc[t];
      && Quiet(s, s') && (Sleeping(s', t, ns) || (p'.Idle? && s'.lock != Some(t)))
      && (p.SleepLoad? ==> if Excuse(s.word, s.word, ns) then p'.SleepUnlock?
                           else p'.SleepEnter? || (p'.SleepCas? && p'.x == s.word))
      && (p.SleepCas? ==> p'.SleepEnter? || (p'.SleepUnlock? && s.word != p.x))
      && (p.SleepUnlock? ==> p'.Idle?) && (p.SleepEnter? ==> p'.Asleep?)
  {
  }

  lemma SleepGoesOn(s: State, s': State, t: Tid, ns: bool)
    requires Inv(s) && Next(s, s') && Sleeping(s, t, ns)
    ensures t in s.pc && t in s'.pc && (Sleeping(s', t, ns) || (s'.pc[t].Idle? && s'.lock != Some(t)))
    ensures s'.pc[t] != s.pc[t] ==>
      if s.pc[t].Asleep? then s'.pc[t].Idle? else MayAdvance(s, t) && s' == BusySleepStep(s, t)
  {
    assert ThreadOk(s, t);
    hide WordEncodesHolders, ThreadOk, SleeperOk, Next, BusySleepStep, Quiet, TrysbusyStep, SunbusyStep, DowngradeStep,
      FlashStep, XunbusyStep, NobodyAsleep;
    if s.pc[t].Asleep? {
      OthersStep(s, s', t);
    } else {
      MovedItself(s, s', t);
      if s'.pc[t] != s.pc[t] {
        SleepEffect(s, t, ns);
      }
    }
  }

  lemma HandOverMovesNobody(s: State, u: Tid, c: Call)
    requires MayStart(s, u, c) && (c.HandOver? || c.HandOverShared?)
    ensures Start(s, u, c).pc == s.pc && Start(s, u, c).lock == s.lock
  {
  }

  lemma SleeperRests(s: State, t: Tid)
    requires t in s.pc && s.pc[t].Asleep?
    ensures !MayAdvance(s, t) && forall c :: !MayStart(s, t, c)
  {
  }

  /** While t sleeps, the others can only wake it. */
  lemma OthersStep(s: State, s': State, t: Tid)
    requires Inv(s) && Next(s, s') && t in s.pc && s.pc[t].Asleep?
    ensures t in s'.pc && (s'.pc[t] == s.pc[t] || s'.pc[t] == Idle) && (s'.lock == Some(t) <==> s.lock == Some(t))
  {
    hide Inv, Start, Advance, MayStart, MayAdvance;
    SleeperRests(s, t);
    if u, c :| MayStart(s, u, c) && s' == Start(s, u, c) {
      if c.HandOver? || c.HandOverShared? {
        HandOverMovesNobody(s, u, c);
      } else {
        StartRespects(s, u, c);
      }
    } else {
      var u :| MayAdvance(s, u) && s' == Advance(s, u);
      AdvanceRespects(s, u);
    }
  }

  ghost predicate Slept(run: seq<State>, t: Tid, i: nat, j: nat) {
    j < |run| && exists m :: i <= m <= j && t in run[m].pc && run[m].pc[t].Asleep?
  }

  /** What has happened since state i, as far as where t is in state m tells. */
  ghost predicate SleepSoFar(run: seq<State>, t: Tid, ns: bool, i: nat, m: nat)
    requires i <= m < |run|
  {
    t in run[m].pc &&
    match run[m].pc[t]
    case SleepCas(_, x) => WordWas(run, i, m, x)
    case SleepUnlock => NoNeed(run, ns, i, m)
    case Asleep(_) => Slept(run, t, i, m)
    case Idle => Slept(run, t, i, m) || NoNeed(run, ns, i, m)
    case _ => true
  }

  ghost predicate WordWas(run: seq<State>, i: nat, m: nat, x: Word) {
    m < |run| && exists a :: i <= a <= m && run[a].word == x
  }

  lemma Longer(run: seq<State>, t: Tid, ns: bool, i: nat, m: nat)
    requires i <= m && m + 1 < |run|
    ensures NoNeed(run, ns, i, m) ==> NoNeed(run, ns, i, m + 1)
    ensures Slept(run, t, i, m) ==> Slept(run, t, i, m + 1)
    ensures forall x | WordWas(run, i, m, x) :: WordWas(run, i, m + 1, x)
    ensures Excuse(run[m].word, run[m].word, ns) ==> NoNeed(run, ns, i, m)
    ensures WordWas(run, i, m, run[m].word)
    ensures forall x | WordWas(run, i, m, x) && x != run[m].word :: NoNeed(run, ns, i, m)
    ensures t in run[m + 1].pc && run[m + 1].pc[t].Asleep? ==> Slept(run, t, i, m + 1)
  {
    if t in run[m + 1].pc && run[m + 1].pc[t].Asleep? {
      assert Slept(run, t, i, m + 1);
    }
  }

  lemma SleepHere(run: seq<State>, t: Tid, ns: bool, i0: nat, i: nat, j: nat)
    requires IsRun(run) && Inside(run, t, i, j) && Sleeping(run[i], t, ns) && i0 <= i && SleepSoFar(run, t, ns, i0, i)
    ensures i + 1 <= j < |run| && t in run[i + 1].pc && SleepSoFar(run, t, ns, i0, i + 1) && QuietAt(run, t, i + 1)
    ensures if i + 1 < j then Inside(run, t, i + 1, j) && Sleeping(run[i + 1], t, ns) else run[j].lock != Some(t)
  {
    hide IsRun, Inv, Next, Inside, Quiet, NoNeed, Slept, WordWas, Excuse, InBusySleep, InSleep, Sleeping, BusySleepStep, MayAdvance;
    Shorter(run, t, i, j);
    RunStep(run, i);
    SleepGoesOn(run[i], run[i + 1], t, ns);
    Longer(run, t, ns, i0, i);
    SleepPlaces(run[i], t, ns);
    SleepPlaces(run[i + 1], t, ns);
    if run[i + 1].pc[t] != run[i].pc[t] && !run[i].pc[t].Asleep? {
      SleepEffect(run[i], t, ns);
    }
  }

  lemma SleepPlaces(s: State, t: Tid, ns: bool)
    ensures Sleeping(s, t, ns) ==>
      t in s.pc && !s.pc[t].Idle? && (s.pc[t].SleepLoad? || s.pc[t].SleepCas? || s.pc[t].SleepUnlock? || s.pc[t].SleepEnter? || s.pc[t].Asleep?)
  {
  }

  lemma {:induction false} SleepCall(run: seq<State>, t: Tid, ns: bool, i0: nat, i: nat, j: nat)
    requires IsRun(run) && Inside(run, t, i, j) && Sleeping(run[i], t, ns) && i0 <= i && SleepSoFar(run, t, ns, i0, i)
    ensures i < j < |run| && run[j].lock != Some(t) && SleepSoFar(run, t, ns, i0, j) && QuietExcept(run, t, i, j, i)
    decreases j - i
  {
    hide IsRun, Inside, Sleeping, SleepSoFar, QuietAt;
    SleepHere(run, t, ns, i0, i, j);
    if i + 1 < j {
      SleepCall(run, t, ns, i0, i + 1, j);
    }
  }

  /**
    vm_page_busy_sleep: it returns without the page lock and changes no hold; and it
    returns without having slept only if it saw the page unbusied, or shared when it
    was to wait for an exclusive holder, or if the word changed meanwhile.
   */
  lemma BusySleepReturns(run: seq<State>, t: Tid, i: nat, j: nat)
    requires IsRun(run) && Inside(run, t, i, j) && run[i].pc[t].SleepLoad?
    ensures run[j].lock != Some(t) && QuietExcept(run, t, i, j, i)
    ensures Slept(run, t, i, j) || NoNeed(run, run[i].pc[t].nonshared, i, j)
  {
    hide IsRun, QuietExcept, NoNeed, Slept, WordWas;
    EntryLock(run, t, i);
    SleepCall(run, t, run[i].pc[t].nonshared, i, i, j);
  }

  // -- and every call returns, if the others leave it alone

  /** The steps that a thread still has to take if no other thread does. */
  function Rank(w: Word, p: PC): nat {
    match p
    case TrysLoad => 2
    case TrysCas(x) => if w == x then 1 else 3
    case SunLoad => 5
    case SunCasMany(x) => if w == x then 1 else 6
    case SunCasLast => if w == SharersWord(1) then 1 else 6
    case SunLock(x) => if w == x then 4 else 8
    case SunCasWaiters(x) => if w == x then 3 else 7
    case SunRetry => 6
    case SunWake => 2
    case SunUnlock => 1
    case DownLoad(_) => 5
    case DownLock => if w.waiters then 4 else 8
    case DownCas(_, waiters) => if w.waiters == waiters then 3 else 7
    case DownRetry => 6
    case DownWake(_) => 2
    case DownUnlock => 1
    case SleepLoad(_) => 3
    case SleepCas(_, _) => 2
    case SleepUnlock => 1
    case SleepEnter(_) => 1
    case XunFast(_) => 5
    case XunLock => 4
    case XunStore(_) => 3
    case XunWake(_) => 2
    case XunUnlock => 1
    case FlashLoad => 3
    case FlashCas(x) => if w == x then 2 else 4
    case FlashWake => 1
    case _ => 0
  }

  ghost predicate Nearer(s: State, s': State, t: Tid)
    requires t in s.pc
  {
    t in s'.pc && Rank(s'.word, s'.pc[t]) < Rank(s.word, s.pc[t])
  }

  lemma TrysbusyNearer(s: State, t: Tid)
    requires MayAdvance(s, t) && InTrysbusy(s.pc[t])
    ensures t in TrysbusyStep(s, t).pc && Nearer(s, TrysbusyStep(s, t), t)
  {
  }

  lemma SunLoadNearer(s: State, t: Tid)
    requires WordEncodesHolders(s) && MayAdvance(s, t) && ThreadOk(s, t) && s.pc[t].SunLoad?
    ensures t in SunbusyStep(s, t).pc && Nearer(s, SunbusyStep(s, t), t)
  {
  }

  lemma SunTailNearer(s: State, t: Tid)
    requires MayAdvance(s, t) && InSunbusy(s.pc[t]) && !s.pc[t].SunLoad?
    ensures t in SunbusyStep(s, t).pc && Nearer(s, SunbusyStep(s, t), t)
  {
  }

  lemma SunbusyNearer(s: State, t: Tid)
    requires WordEncodesHolders(s) && MayAdvance(s, t) && ThreadOk(s, t) && InSunbusy(s.pc[t])
    ensures t in SunbusyStep(s, t).pc && Nearer(s, SunbusyStep(s, t), t)
  {
    hide WordEncodesHolders, ThreadOk, Nearer, SunbusyStep;
    if s.pc[t].SunLoad? {
      SunLoadNearer(s, t);
    } else {
      SunTailNearer(s, t);
    }
  }

  lemma DowngradeNearer(s: State, t: Tid)
    requires WordEncodesHolders(s) && MayAdvance(s, t) && ThreadOk(s, t) && InDowngrade(s.pc[t])
    ensures t in DowngradeStep(s, t).pc && Nearer(s, DowngradeStep(s, t), t)
  {
  }

  lemma XunbusyNearer(s: State, t: Tid)
    requires MayAdvance(s, t) && InXunbusy(s.pc[t])
    ensures t in XunbusyStep(s, t).pc && Nearer(s, XunbusyStep(s, t), t)
  {
  }

  lemma WaitNearer(s: State, t: Tid)
    requires MayAdvance(s, t) && (InBusySleep(s.pc[t]) || InFlash(s.pc[t]))
    ensures Nearer(s, Advance(s, t), t)
  {
  }

  lemma StepNearer(s: State, t: Tid)
    requires Inv(s) && MayAdvance(s, t)
    ensures Nearer(s, Advance(s, t), t)
  {
    assert ThreadOk(s, t);
    hide ThreadOk, WordEncodesHolders, SleeperOk, Nearer, TrysbusyStep, SunbusyStep, DowngradeStep, XunbusyStep;
    if InTrysbusy(s.pc[t]) {
      TrysbusyNearer(s, t);
    } else if InSunbusy(s.pc[t]) {
      SunbusyNearer(s, t);
    } else if InDowngrade(s.pc[t]) {
      DowngradeNearer(s, t);
    } else if InXunbusy(s.pc[t]) {
      XunbusyNearer(s, t);
    } else {
      WaitNearer(s, t);
    }
  }

  /** Up to n steps of t, as long as it can take one. */
  ghost function Alone(s: State, t: Tid, n: nat): State
    decreases n
  {
    if n == 0 || !MayAdvance(s, t) then s else Alone(Advance(s, t), t, n - 1)
  }

  predicate LockFree(s: State, t: Tid) { s.lock == None || s.lock == Some(t) }

  lemma AdvanceLock(s: State, t: Tid)
    requires MayAdvance(s, t) && LockFree(s, t)
    ensures t in Advance(s, t).pc && LockFree(Advance(s, t), t)
  {
  }

  lemma OnlyWaitsForLock(s: State, t: Tid)
    requires t in s.pc && LockFree(s, t) && !MayAdvance(s, t) && ThreadOk(s, t)
    ensures s.pc[t].Idle? || s.pc[t].Asleep?
  {
  }

  lemma RankZero(w: Word, p: PC)
    requires Rank(w, p) == 0
    ensures p.Idle? || p.Asleep? || p.AssertionFailed?
  {
  }

  lemma {:induction false} StepsAlone(s: State, t: Tid, n: nat)
    requires Inv(s) && t in s.pc && LockFree(s, t) && Rank(s.word, s.pc[t]) <= n
    ensures t in Alone(s, t, n).pc && (Alone(s, t, n).pc[t].Idle? || Alone(s, t, n).pc[t].Asleep?)
    decreases n
  {
    hide Inv, Rank, Advance, MayAdvance, LockFree;
    assert ThreadOk(s, t) by { InvThread(s, t); }
    hide ThreadOk;
    if !MayAdvance(s, t) {
      OnlyWaitsForLock(s, t);
    } else {
      StepNearer(s, t);
      AdvanceLock(s, t);
      NextKeepsInv(s, Advance(s, t));
      StepsAlone(Advance(s, t), t, n - 1);
    }
  }

  lemma InvThread(s: State, t: Tid)
    requires Inv(s) && t in s.pc
    ensures ThreadOk(s, t)
  {
  }

  lemma RankBound(w: Word, p: PC)
    ensures Rank(w, p) <= 8
  {
  }

  /**
    From every reachable state, a thread that is inside a call and finds the page lock
    free, or has it, returns or falls asleep within eight of its own steps, if no other
    thread comes in between.
   */
  lemma ReturnsIfLeftAlone(run: seq<State>, i: nat, t: Tid)
    requires IsRun(run) && i < |run| && t in run[i].pc && (run[i].lock == None || run[i].lock == Some(t))
    ensures var s := Alone(run[i], t, 8); t in s.pc && (s.pc[t].Idle? || s.pc[t].Asleep?)
  {
    hide Inv, Alone, Rank;
    RunKeepsInv(run, i);
    RankBound(run[i].word, run[i].pc[t]);
    StepsAlone(run[i], t, 8);
  }
}
