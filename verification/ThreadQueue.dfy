/**
  The thread queue of a CPU (asgn2/sched_ule.c:460-602, 2474-2482 and 2591-2684):
  four run queues, the load and transferable counts, and the rotating insert and
  removal indices of the timeshare queue.

  Thread locks, sysload, lowpri and the priority recomputation are not modelled;
  a run queue is its 64 lists (see RunQueue for the status words).
 */
module ThreadQueue {
  import opened Lists
  import opened RunQueue
  import P = Priority

  datatype Kind = Realtime | Timeshare | Lottery | Idle

  datatype State = Off | Queued | Running

  /**
    ts_cpu, ts_runq, td_rqindex, the flag TSF_XFERABLE, td_pinned, the CPU set,
    the priority and the user of a thread; idle threads are not counted.
   */
  datatype Thread = Thread(cpu: nat, state: State, kind: Kind, slot: nat, xferable: bool,
                           pinned: nat, allowed: set<nat>, priority: nat, uid: nat)

  datatype Tdq = Tdq(realtime: Queues, timeshare: Queues, lottery: Queues, idle: Queues,
                     load: int, transferable: int, idx: nat, ridx: nat)
  {
    function Q(k: Kind): Queues {
      match k
      case Realtime => realtime
      case Timeshare => timeshare
      case Lottery => lottery
      case Idle => idle
    }

    function SetQ(k: Kind, qs: Queues): (r: Tdq)
      ensures forall j: Kind :: r.Q(j) == if j == k then qs else Q(j)
      ensures r.load == load && r.transferable == transferable && r.idx == idx && r.ridx == ridx
    {
      match k
      case Realtime => this.(realtime := qs)
      case Timeshare => this.(timeshare := qs)
      case Lottery => this.(lottery := qs)
      case Idle => this.(idle := qs)
    }
  }

  // ---- the place of a thread ---------------------------------------------------------

  function KindOf(pri: nat, uid: nat): Kind {
    if pri < P.PRI_MIN_BATCH then Realtime
    else if pri <= P.PRI_MAX_BATCH then if uid != 0 then Lottery else Timeshare
    else Idle
  }

  /** How far behind the insert index a priority goes. */
  function Offset(pri: nat): (d: nat)
    requires P.PRI_MIN_BATCH <= pri <= P.PRI_MAX_BATCH
    ensures d < RQ_NQS
  {
    RQ_NQS * (pri - P.PRI_MIN_BATCH) / P.PRI_BATCH_RANGE
  }

  /** The slot of a fresh timeshare thread (sched_ule.c:518-528); the decrement is one of an unsigned char. */
  function FreshSlot(idx: nat, ridx: nat, pri: nat): (slot: nat)
    requires P.PRI_MIN_BATCH <= pri <= P.PRI_MAX_BATCH
    ensures slot < RQ_NQS
  {
    var p := (Offset(pri) + idx) % RQ_NQS;
    if ridx != idx && p == ridx then ((p - 1) % 256) % RQ_NQS else p
  }

  function SlotOf(q: Tdq, pri: nat, uid: nat, fresh_: bool): (slot: nat)
    requires pri < 256 && q.ridx < RQ_NQS
    ensures slot < RQ_NQS && (KindOf(pri, uid) == Lottery ==> slot == 0)
  {
    match KindOf(pri, uid)
    case Lottery => 0
    case Timeshare => if fresh_ then FreshSlot(q.idx, q.ridx, pri) else q.ridx
    case _ => pri / RQ_PPQ
  }

  /** The removal index is the insert index or just before it. */
  predicate Indices(idx: nat, ridx: nat) {
    idx < RQ_NQS && ridx < RQ_NQS && (ridx == idx || (ridx + 1) % RQ_NQS == idx)
  }

  /** How many slots above `from` a slot is, going round. */
  function Ahead(from: nat, slot: nat): nat {
    (slot - from) % RQ_NQS
  }

  /**
    While the removal index lags behind, no fresh thread enters its slot; and
    a better priority never goes into a slot that is served later.
   */
  lemma FreshPlacement(idx: nat, ridx: nat, pri: nat, worse: nat)
    requires Indices(idx, ridx)
    requires P.PRI_MIN_BATCH <= pri <= worse <= P.PRI_MAX_BATCH
    ensures ridx != idx ==> FreshSlot(idx, ridx, pri) != ridx
    ensures Ahead(idx, FreshSlot(idx, ridx, pri)) <= Ahead(idx, FreshSlot(idx, ridx, worse))
    ensures Ahead(idx, FreshSlot(idx, ridx, pri)) ==
      if ridx != idx && Offset(pri) == RQ_NQS - 1 then RQ_NQS - 2 else Offset(pri)
  {
    AheadOf(idx, ridx, pri);
    AheadOf(idx, ridx, worse);
    OffsetMonotone(pri, worse);
  }

  lemma DivBounds(x: nat)
    ensures x / 72 * 72 <= x < (x / 72 + 1) * 72
  {
  }

  lemma OffsetEnds()
    ensures Offset(P.PRI_MIN_BATCH) == 0 && Offset(P.PRI_MAX_BATCH) == RQ_NQS - 1
  {
  }

  /** The 72 batch priorities are spread evenly over the 64 slots, the best at the insert index, the worst right before it. */
  lemma OffsetSpreads(pri: nat)
    requires P.PRI_MIN_BATCH <= pri <= P.PRI_MAX_BATCH
    ensures Offset(pri) * P.PRI_BATCH_RANGE <= RQ_NQS * (pri - P.PRI_MIN_BATCH) < (Offset(pri) + 1) * P.PRI_BATCH_RANGE
    ensures Offset(P.PRI_MIN_BATCH) == 0 && Offset(P.PRI_MAX_BATCH) == RQ_NQS - 1
  {
    OffsetEnds();
    DivBounds(RQ_NQS * (pri - P.PRI_MIN_BATCH));
  }

  lemma OffsetMonotone(pri: nat, worse: nat)
    requires P.PRI_MIN_BATCH <= pri <= worse <= P.PRI_MAX_BATCH
    ensures Offset(pri) <= Offset(worse)
  {
    DivMonotone(RQ_NQS * (pri - P.PRI_MIN_BATCH), RQ_NQS * (worse - P.PRI_MIN_BATCH));
  }

  lemma DivMonotone(x: nat, y: nat)
    requires x <= y
    ensures x / 72 <= y / 72
  {
  }

  lemma ModOnce(x: int)
    ensures 0 <= x < RQ_NQS ==> x % RQ_NQS == x
    ensures RQ_NQS <= x < 2 * RQ_NQS ==> x % RQ_NQS == x - RQ_NQS
    ensures -RQ_NQS <= x < 0 ==> x % RQ_NQS == x + RQ_NQS
  {
  }

  lemma AheadOf(idx: nat, ridx: nat, pri: nat)
    requires Indices(idx, ridx) && P.PRI_MIN_BATCH <= pri <= P.PRI_MAX_BATCH
    ensures Ahead(idx, FreshSlot(idx, ridx, pri)) ==
      if ridx != idx && Offset(pri) == RQ_NQS - 1 then RQ_NQS - 2 else Offset(pri)
    ensures ridx != idx ==> FreshSlot(idx, ridx, pri) != ridx
  {
    hide Offset;
    FreshSlotIs(idx, ridx, pri);
    hide FreshSlot;
    var d := Offset(pri);
    var p := if d + idx < RQ_NQS then d + idx else d + idx - RQ_NQS;
    ModOnce(ridx + 1);
    ModOnce(FreshSlot(idx, ridx, pri) - idx);
  }

  lemma FreshSlotIs(idx: nat, ridx: nat, pri: nat)
    requires idx < RQ_NQS && P.PRI_MIN_BATCH <= pri <= P.PRI_MAX_BATCH
    ensures var d := Offset(pri);
      var p := if d + idx < RQ_NQS then d + idx else d + idx - RQ_NQS;
      FreshSlot(idx, ridx, pri) == if ridx != idx && p == ridx then (if p == 0 then RQ_NQS - 1 else p - 1) else p
  {
    hide Offset;
    ModOnce(Offset(pri) + idx);
  }

  // ---- the operations on one queue -----------------------------------------------------

  /** tdq_runq_add (sched_ule.c:460-537) */
  function Added(q: Tdq, td: Tid, t: Thread, preempted: bool, borrowing: bool): Tdq
    requires t.priority < 256 && q.ridx < RQ_NQS
  {
    var t' := AddedThread(q, t, !preempted && !borrowing);
    q.SetQ(t'.kind, Inserted(q.Q(t'.kind), t'.slot, td, preempted))
     .(transferable := q.transferable + if t.pinned == 0 then 1 else 0)
  }

  function AddedThread(q: Tdq, t: Thread, fresh_: bool): Thread
    requires t.priority < 256 && q.ridx < RQ_NQS
  {
    t.(state := Queued, kind := KindOf(t.priority, t.uid), slot := SlotOf(q, t.priority, t.uid, fresh_),
       xferable := t.xferable || t.pinned == 0)
  }

  /** tdq_runq_rem (sched_ule.c:544-564), with runq_remove_idx moving the removal index on. */
  function Removed(q: Tdq, td: Tid, t: Thread): Tdq
    requires t.slot < RQ_NQS
  {
    var rest := Without(q.Q(t.kind)[t.slot], td);
    q.SetQ(t.kind, q.Q(t.kind)[t.slot := rest])
     .(transferable := q.transferable - (if t.xferable then 1 else 0),
       ridx := if t.kind == Timeshare && q.idx != q.ridx && rest == [] && q.ridx == t.slot
               then (t.slot + 1) % RQ_NQS else q.ridx)
  }

  /**
    A thread is on the queue of its class: interactive and better ones on the realtime
    queue, batch threads of root on the timeshare queue and those of other users on the
    lottery queue, the rest on the idle queue; it counts as transferable unless pinned.
   */
  predicate RightlyQueued(t: Thread) {
    var batch := P.PRI_MIN_BATCH <= t.priority <= P.PRI_MAX_BATCH;
    && t.state == Queued && (t.pinned == 0 ==> t.xferable)
    && (t.kind == Timeshare <==> batch && t.uid == 0)
    && (t.kind == Lottery <==> batch && t.uid != 0)
    && (t.kind == Realtime ==> t.priority < P.PRI_MIN_BATCH && t.slot == t.priority / 4)
    && (t.kind == Idle ==> t.priority > P.PRI_MAX_BATCH && t.slot == t.priority / 4)
    && (t.kind == Lottery ==> t.slot == 0)
  }

  lemma AddedRightly(q: Tdq, t: Thread, fresh_: bool)
    requires t.priority < 256 && q.ridx < RQ_NQS
    ensures RightlyQueued(AddedThread(q, t, fresh_))
    ensures AddedThread(q, t, fresh_).kind == Timeshare ==>
      AddedThread(q, t, fresh_).slot == if fresh_ then FreshSlot(q.idx, q.ridx, t.priority) else q.ridx
    ensures var t' := AddedThread(q, t, fresh_);
      t' == t.(state := t'.state, kind := t'.kind, slot := t'.slot, xferable := t'.xferable)
  {
  }

  /** A thread goes to the tail of its list, a preempted one to its head; no other list changes. */
  lemma AddedInPlace(q: Tdq, td: Tid, t: Thread, preempted: bool, borrowing: bool)
    requires t.priority < 256 && q.ridx < RQ_NQS
    ensures var t', q' := AddedThread(q, t, !preempted && !borrowing), Added(q, td, t, preempted, borrowing);
      && q'.Q(t'.kind)[t'.slot] == (if preempted then [td] + q.Q(t'.kind)[t'.slot] else q.Q(t'.kind)[t'.slot] + [td])
      && (forall k: Kind, p | 0 <= p < RQ_NQS && !(k == t'.kind && p == t'.slot) :: q'.Q(k)[p] == q.Q(k)[p])
      && q'.idx == q.idx && q'.ridx == q.ridx && q'.load == q.load
  {
  }

  /** When the last thread of the slot it lags behind in leaves, the removal index catches up; otherwise it stays. */
  lemma RemovalIndexCatchesUp(q: Tdq, td: Tid, t: Thread)
    requires Indices(q.idx, q.ridx) && t.slot < RQ_NQS && td in q.Q(t.kind)[t.slot]
    ensures Removed(q, td, t).idx == q.idx && Removed(q, td, t).load == q.load
    ensures Removed(q, td, t).ridx ==
      if t.kind == Timeshare && t.slot == q.ridx && q.timeshare[q.ridx] == [td] then q.idx else q.ridx
  {
    var l := q.Q(t.kind)[t.slot];
    if Without(l, td) == [] {
      assert l == [td] by {
        assert |Without(l, td)| == |l| - 1 by { WithoutLength(l, td); }
        assert |l| == 1 && td in l;
      }
    } else {
      assert l != [td];
    }
  }

  lemma {:induction false} WithoutLength(s: seq<Tid>, td: Tid)
    requires td in s
    ensures |Without(s, td)| == |s| - 1
  {
    if s[0] != td {
      WithoutLength(s[1..], td);
    }
  }

  /** The order in which tdq_choose and tdq_steal go through the queues. */
  function ServiceRank(k: Kind): nat {
    match k
    case Realtime => 0
    case Timeshare => 1
    case Lottery => 2
    case Idle => 3
  }

  /** A better priority never goes into a queue that is served later, nor, for realtime and idle threads, into a later slot. */
  lemma BetterIsServedFirst(q: Tdq, pri: nat, worse: nat, uid: nat, fresh_: bool)
    requires pri <= worse < 256 && Indices(q.idx, q.ridx)
    ensures ServiceRank(KindOf(pri, uid)) <= ServiceRank(KindOf(worse, uid))
    ensures var k := KindOf(pri, uid);
      k == KindOf(worse, uid) ==>
        if k == Timeshare && fresh_
        then Ahead(q.idx, SlotOf(q, pri, uid, fresh_)) <= Ahead(q.idx, SlotOf(q, worse, uid, fresh_))
        else SlotOf(q, pri, uid, fresh_) <= SlotOf(q, worse, uid, fresh_)
  {
    if KindOf(pri, uid) == Timeshare == KindOf(worse, uid) {
      FreshPlacement(q.idx, q.ridx, pri, worse);
    }
  }

  /** A preempted timeshare thread is the next that runq_choose_from picks. */
  lemma PreemptedIsNext(q: Tdq, td: Tid, t: Thread, borrowing: bool)
    requires t.priority < 256 && q.ridx < RQ_NQS && KindOf(t.priority, t.uid) == Timeshare
    ensures var q' := Added(q, td, t, true, borrowing);
      && FirstFrom(q'.timeshare, q'.ridx, q'.ridx) && q'.timeshare[q'.ridx][0] == td
      && q'.timeshare[q'.ridx][1..] == q.timeshare[q.ridx]
  {
    assert Distance(q.ridx, q.ridx) == 0;
  }

  /** The index step of sched_clock (sched_ule.c:2474-2482). */
  function Ticked(q: Tdq): Tdq
    requires Indices(q.idx, q.ridx)
  {
    if q.idx != q.ridx then q
    else
      var idx := (q.idx + 1) % RQ_NQS;
      var ridx := if q.timeshare[q.ridx] == [] then idx else q.ridx;
      var ridx' := if q.lottery[ridx] == [] then idx else ridx;
      q.(idx := idx, ridx := ridx')
  }

  /**
    A tick moves the insert index on exactly if the removal index has caught up with it;
    the removal index then follows at once exactly if no timeshare thread waits in its
    slot, or none of the lottery.  In the latter case it leaves threads behind.
   */
  lemma TickPassesOver(q: Tdq)
    requires Indices(q.idx, q.ridx)
    ensures q.idx != q.ridx ==> Ticked(q) == q
    ensures q.idx == q.ridx ==> Ticked(q).idx == (q.idx + 1) % RQ_NQS
    ensures q.idx == q.ridx ==>
      Ticked(q).ridx == if q.timeshare[q.ridx] == [] || q.lottery[q.ridx] == [] then Ticked(q).idx else q.ridx
    ensures q.idx == q.ridx && q.timeshare[q.ridx] != [] ==> (Ticked(q).ridx != q.ridx <==> q.lottery[q.ridx] == [])
    ensures Ticked(q) == q.(idx := Ticked(q).idx, ridx := Ticked(q).ridx)
  {
    assert (q.idx + 1) % RQ_NQS != q.idx;
  }

  // ---- the invariant -----------------------------------------------------------------

  predicate Here(threads: map<Tid, Thread>, td: Tid, c: nat, k: Kind, p: nat) {
    td in threads && threads[td].state == Queued && threads[td].cpu == c && threads[td].kind == k && threads[td].slot == p
  }

  /** A list holds exactly the threads that say they are on it, once each. */
  ghost predicate ListOk(q: Tdq, threads: map<Tid, Thread>, c: nat, k: Kind, p: nat)
    requires p < RQ_NQS
  {
    NoDup(q.Q(k)[p]) && forall td :: td in q.Q(k)[p] <==> Here(threads, td, c, k, p)
  }

  ghost predicate Placed(tdqs: seq<Tdq>, threads: map<Tid, Thread>) {
    forall c, k: Kind, p | 0 <= c < |tdqs| && 0 <= p < RQ_NQS :: ListOk(tdqs[c], threads, c, k, p)
  }

  ghost predicate ThreadOk(t: Thread, n: nat) {
    && t.cpu < n && t.slot < RQ_NQS && t.priority < 256 && (t.xferable ==> t.state == Queued)
    && (t.state == Queued && t.kind == Lottery ==> t.slot == 0)
  }

  ghost predicate ThreadsOk(threads: map<Tid, Thread>, n: nat) {
    forall td | td in threads :: ThreadOk(threads[td], n)
  }

  /** The threads that count towards the load of a CPU: queued there or running there. */
  function OnCpu(threads: map<Tid, Thread>, c: nat): set<Tid> {
    set td | td in threads && threads[td].cpu == c && threads[td].state != Off
  }

  function Xferable(threads: map<Tid, Thread>, c: nat): set<Tid> {
    set td | td in threads && threads[td].cpu == c && threads[td].xferable
  }

  ghost predicate Counted(tdqs: seq<Tdq>, threads: map<Tid, Thread>) {
    forall c | 0 <= c < |tdqs| ::
      && tdqs[c].load == |OnCpu(threads, c)|
      && tdqs[c].transferable == |Xferable(threads, c)|
      && Indices(tdqs[c].idx, tdqs[c].ridx)
  }

  ghost predicate OneRunning(threads: map<Tid, Thread>) {
    forall a, b | a in threads && b in threads && threads[a].state == Running && threads[b].state == Running
      && threads[a].cpu == threads[b].cpu :: a == b
  }

  /**
    Lists and thread records agree; the load is the number of queued threads and
    the running one; the transferable count is that of the flagged queued threads.
   */
  ghost predicate Inv(tdqs: seq<Tdq>, threads: map<Tid, Thread>) {
    Placed(tdqs, threads) && ThreadsOk(threads, |tdqs|) && Counted(tdqs, threads) && OneRunning(threads)
  }

  predicate LotteryWaits(threads: map<Tid, Thread>, c: nat) {
    exists td :: td in threads && Here(threads, td, c, Lottery, threads[td].slot)
  }

  /**
    Lottery threads only ever wait in slot 0, so the removal index is held back for
    the threads of its slot only there, and only while a lottery thread waits on the
    CPU: the tick leaves behind the threads of every other slot.
   */
  lemma TickLeavesBehind(tdqs: seq<Tdq>, threads: map<Tid, Thread>, c: nat)
    requires Inv(tdqs, threads) && c < |tdqs|
    requires tdqs[c].idx == tdqs[c].ridx && tdqs[c].timeshare[tdqs[c].ridx] != []
    ensures Ticked(tdqs[c]).ridx != tdqs[c].ridx <==> tdqs[c].ridx != 0 || !LotteryWaits(threads, c)
  {
    var q := tdqs[c];
    TickPassesOver(q);
    assert ListOk(q, threads, c, Lottery, q.ridx);
    if q.lottery[q.ridx] != [] {
      assert Here(threads, q.lottery[q.ridx][0], c, Lottery, q.ridx);
    }
  }

  lemma CardChange(s: set<Tid>, s': set<Tid>, td: Tid)
    requires s' == s + {td} || s' == s - {td}
    ensures |s'| - |s| == (if td in s' then 1 else 0) - (if td in s then 1 else 0)
  {
    if td in s {
      assert s - {td} + {td} == s;
    }
    assert td in s ==> s + {td} == s;
    assert td !in s ==> s - {td} == s;
  }

  /** One thread record changes: the sets of other CPUs stay the same. */
  lemma SetsElsewhere(threads: map<Tid, Thread>, c: nat, d: nat, td: Tid, t: Thread)
    requires td in threads && t.cpu == c && c != d
    requires threads[td].cpu == c || (threads[td].state == Off && !threads[td].xferable)
    ensures OnCpu(threads[td := t], d) == OnCpu(threads, d)
    ensures Xferable(threads[td := t], d) == Xferable(threads, d)
  {
  }

  lemma OnCpuHere(threads: map<Tid, Thread>, c: nat, td: Tid, t: Thread)
    requires td in threads && t.cpu == c && (threads[td].cpu == c || threads[td].state == Off)
    ensures |OnCpu(threads[td := t], c)| - |OnCpu(threads, c)| ==
      (if t.state != Off then 1 else 0) - (if threads[td].state != Off then 1 else 0)
  {
    var a, a' := OnCpu(threads, c), OnCpu(threads[td := t], c);
    assert a' == if t.state != Off then a + {td} else a - {td};
    CardChange(a, a', td);
  }

  lemma XferableHere(threads: map<Tid, Thread>, c: nat, td: Tid, t: Thread)
    requires td in threads && t.cpu == c && (threads[td].cpu == c || !threads[td].xferable)
    ensures |Xferable(threads[td := t], c)| - |Xferable(threads, c)| ==
      (if t.xferable then 1 else 0) - (if threads[td].xferable then 1 else 0)
  {
    var b, b' := Xferable(threads, c), Xferable(threads[td := t], c);
    assert b' == if t.xferable then b + {td} else b - {td};
    CardChange(b, b', td);
  }

  /** One thread record and the queue of its CPU change; the counts follow. */
  lemma CountChange(tdqs: seq<Tdq>, threads: map<Tid, Thread>, c: nat, td: Tid, q: Tdq, t: Thread)
    requires Counted(tdqs, threads) && c < |tdqs| && td in threads && t.cpu == c && Indices(q.idx, q.ridx)
    requires threads[td].cpu == c || (threads[td].state == Off && !threads[td].xferable)
    requires q.load - tdqs[c].load == (if t.state != Off then 1 else 0) - (if threads[td].state != Off then 1 else 0)
    requires q.transferable - tdqs[c].transferable == (if t.xferable then 1 else 0) - (if threads[td].xferable then 1 else 0)
    ensures Counted(tdqs[c := q], threads[td := t])
  {
    hide OnCpu, Xferable, Indices;
    OnCpuHere(threads, c, td, t);
    XferableHere(threads, c, td, t);
    forall d | 0 <= d < |tdqs| && d != c
      ensures OnCpu(threads[td := t], d) == OnCpu(threads, d)
      ensures Xferable(threads[td := t], d) == Xferable(threads, d)
    {
      SetsElsewhere(threads, c, d, td, t);
    }
  }

  // ---- every operation keeps the invariant ----------------------------------------------

  lemma AddPlaced(tdqs: seq<Tdq>, threads: map<Tid, Thread>, c: nat, td: Tid, q: Tdq, t: Thread, preempted: bool)
    requires Placed(tdqs, threads) && c < |tdqs| && td in threads && threads[td].state != Queued
    requires t.state == Queued && t.cpu == c && t.slot < RQ_NQS
    requires forall k: Kind :: q.Q(k) == if k == t.kind then Inserted(tdqs[c].Q(k), t.slot, td, preempted) else tdqs[c].Q(k)
    ensures Placed(tdqs[c := q], threads[td := t])
  {
    var tdqs', threads' := tdqs[c := q], threads[td := t];
    forall d, k: Kind, p | 0 <= d < |tdqs'| && 0 <= p < RQ_NQS
      ensures ListOk(tdqs'[d], threads', d, k, p)
    {
      assert ListOk(tdqs[d], threads, d, k, p);
      assert !Here(threads, td, d, k, p);
      forall x | x != td
        ensures Here(threads[td := t], x, d, k, p) == Here(threads, x, d, k, p)
      {
      }
    }
  }

  lemma RemPlaced(tdqs: seq<Tdq>, threads: map<Tid, Thread>, c: nat, td: Tid, q: Tdq, t: Thread)
    requires Placed(tdqs, threads) && c < |tdqs| && td in threads
    requires Here(threads, td, c, threads[td].kind, threads[td].slot) && threads[td].slot < RQ_NQS && t.state != Queued
    requires forall k: Kind :: q.Q(k) == if k != threads[td].kind then tdqs[c].Q(k)
      else tdqs[c].Q(k)[threads[td].slot := Without(tdqs[c].Q(k)[threads[td].slot], td)]
    ensures Placed(tdqs[c := q], threads[td := t])
  {
    var tdqs', threads' := tdqs[c := q], threads[td := t];
    forall d, k: Kind, p | 0 <= d < |tdqs'| && 0 <= p < RQ_NQS
      ensures ListOk(tdqs'[d], threads', d, k, p)
    {
      assert ListOk(tdqs[d], threads, d, k, p);
      WithoutProps(tdqs[d].Q(k)[p], td);
      forall x | x != td
        ensures Here(threads[td := t], x, d, k, p) == Here(threads, x, d, k, p)
      {
      }
    }
  }

  /** Queueing a thread that was off (the load grows) or running (it does not). */
  lemma AddKeeps(tdqs: seq<Tdq>, threads: map<Tid, Thread>, c: nat, td: Tid, preempted: bool, borrowing: bool)
    requires Inv(tdqs, threads) && c < |tdqs| && td in threads && threads[td].state != Queued
    requires threads[td].state == Running ==> threads[td].cpu == c
    ensures threads[td].priority < 256 && tdqs[c].ridx < RQ_NQS
    ensures var t := threads[td].(cpu := c);
            var q := Added(tdqs[c], td, t, preempted, borrowing);
            Inv(tdqs[c := q.(load := q.load + if t.state == Off then 1 else 0)],
                threads[td := AddedThread(tdqs[c], t, !preempted && !borrowing)])
  {
    hide Inserted, SlotOf;
    assert ThreadOk(threads[td], |tdqs|);
    var t := threads[td].(cpu := c);
    var t' := AddedThread(tdqs[c], t, !preempted && !borrowing);
    var q := Added(tdqs[c], td, t, preempted, borrowing);
    var q' := q.(load := q.load + if t.state == Off then 1 else 0);
    AddPlaced(tdqs, threads, c, td, q', t', preempted);
    CountChange(tdqs, threads, c, td, q', t');
    hide Placed, Counted, Added;
    assert ThreadOk(t', |tdqs|);
  }

  lemma RidxKept(q: Tdq, td: Tid, t: Thread)
    requires Indices(q.idx, q.ridx) && t.slot < RQ_NQS
    ensures Indices(Removed(q, td, t).idx, Removed(q, td, t).ridx)
  {
  }

  /** Taking a thread off its list, to run it or (the load shrinks) for good. */
  lemma RemKeeps(tdqs: seq<Tdq>, threads: map<Tid, Thread>, td: Tid, next: State)
    requires Inv(tdqs, threads) && td in threads && threads[td].state == Queued && next != Queued
    requires next == Running ==>
      forall x | x in threads && threads[x].state == Running :: threads[x].cpu != threads[td].cpu
    ensures ThreadOk(threads[td], |tdqs|)
    ensures var t := threads[td];
            var q := Removed(tdqs[t.cpu], td, t);
            Inv(tdqs[t.cpu := q.(load := q.load - if next == Off then 1 else 0)],
                threads[td := t.(state := next, xferable := false)])
  {
    hide Without, Indices;
    var t := threads[td];
    assert ThreadOk(t, |tdqs|);
    var t' := t.(state := next, xferable := false);
    var q := Removed(tdqs[t.cpu], td, t);
    var q' := q.(load := q.load - if next == Off then 1 else 0);
    assert Here(threads, td, t.cpu, t.kind, t.slot);
    RidxKept(tdqs[t.cpu], td, t);
    RemPlaced(tdqs, threads, t.cpu, td, q', t');
    CountChange(tdqs, threads, t.cpu, td, q', t');
    hide Placed, Counted, Removed;
    assert ThreadOk(t', |tdqs|);
  }

  /** The running thread blocks or exits. */
  lemma BlockKeeps(tdqs: seq<Tdq>, threads: map<Tid, Thread>, td: Tid)
    requires Inv(tdqs, threads) && td in threads && threads[td].state == Running
    ensures threads[td].cpu < |tdqs|
    ensures var c := threads[td].cpu;
            Inv(tdqs[c := tdqs[c].(load := tdqs[c].load - 1)], threads[td := threads[td].(state := Off)])
  {
    var t := threads[td];
    var c := t.cpu;
    assert ThreadOk(t, |tdqs|);
    var t', q' := t.(state := Off), tdqs[c].(load := tdqs[c].load - 1);
    CountChange(tdqs, threads, c, td, q', t');
    SameLists(tdqs, threads, c, td, q', t');
    hide Placed, Counted;
    assert ThreadOk(t', |tdqs|);
  }

  lemma SameLists(tdqs: seq<Tdq>, threads: map<Tid, Thread>, c: nat, td: Tid, q: Tdq, t: Thread)
    requires Placed(tdqs, threads) && c < |tdqs| && forall k: Kind :: q.Q(k) == tdqs[c].Q(k)
    requires td in threads && (t == threads[td] || (t.state != Queued && threads[td].state != Queued))
    ensures Placed(tdqs[c := q], threads[td := t])
  {
    var tdqs', threads' := tdqs[c := q], threads[td := t];
    forall d, k: Kind, p | 0 <= d < |tdqs'| && 0 <= p < RQ_NQS
      ensures ListOk(tdqs'[d], threads', d, k, p)
    {
      assert ListOk(tdqs[d], threads, d, k, p);
      forall x
        ensures Here(threads[td := t], x, d, k, p) == Here(threads, x, d, k, p)
      {
      }
    }
  }

  /** A clock tick. */
  lemma TickKeeps(tdqs: seq<Tdq>, threads: map<Tid, Thread>, c: nat)
    requires Inv(tdqs, threads) && c < |tdqs|
    ensures Indices(tdqs[c].idx, tdqs[c].ridx) && Inv(tdqs[c := Ticked(tdqs[c])], threads)
  {
    var q := Ticked(tdqs[c]);
    assert forall k: Kind :: q.Q(k) == tdqs[c].Q(k);
    var tdqs' := tdqs[c := q];
    forall d, k: Kind, p | 0 <= d < |tdqs'| && 0 <= p < RQ_NQS
      ensures ListOk(tdqs'[d], threads, d, k, p)
    {
      assert ListOk(tdqs[d], threads, d, k, p);
    }
  }
}
