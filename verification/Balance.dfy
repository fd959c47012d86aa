/**
  The load balancer (asgn2/sched_ule.c:872-1017 and 1219-1234): threads move one
  at a time from a loaded CPU to a less loaded one.

  All queues are taken as locked throughout; notifying the target CPU is not
  modelled, and neither is tdq_lowpri, which the balancer does not look at (it
  searches with priority -1).
 */
module Balance {
  import opened Arith
  import opened Wrappers
  import opened RunQueue
  import opened ThreadQueue
  import opened Sched
  import CS = CpuSearch
  import opened Steal

  // ---- potential ---------------------------------------------------------------------

  function Sum(s: seq<int>): int {
    if s == [] then 0 else Sum(s[..|s| - 1]) + s[|s| - 1]
  }

  function Squares(s: seq<int>): int {
    if s == [] then 0 else Squares(s[..|s| - 1]) + s[|s| - 1] * s[|s| - 1]
  }

  lemma {:induction false} SumUpdate(s: seq<int>, i: nat, x: int)
    requires i < |s|
    ensures Sum(s[i := x]) == Sum(s) - s[i] + x
    ensures Squares(s[i := x]) == Squares(s) - s[i] * s[i] + x * x
  {
    var n := |s| - 1;
    if i < n {
      SumUpdate(s[..n], i, x);
      assert s[i := x][..n] == s[..n][i := x];
    } else {
      assert s[i := x][..n] == s[..n];
    }
  }

  /** The loads after one thread has moved from `high` to `low`. */
  function Shifted(loads: seq<int>, high: nat, low: nat): seq<int>
    requires high < |loads| && low < |loads|
  {
    loads[high := loads[high] - 1][low := loads[low] + 1]
  }

  lemma SquareNext(x: int)
    ensures (x - 1) * (x - 1) == x * x - 2 * x + 1
    ensures (x + 1) * (x + 1) == x * x + 2 * x + 1
  {
  }

  /** A move keeps the total, and from a more loaded to a less loaded CPU it does not raise the sum of squares. */
  lemma ShiftImproves(loads: seq<int>, high: nat, low: nat)
    requires high < |loads| && low < |loads| && high != low
    ensures Sum(Shifted(loads, high, low)) == Sum(loads)
    ensures Squares(Shifted(loads, high, low)) == Squares(loads) - 2 * (loads[high] - loads[low] - 1)
  {
    hide Sum, Squares;
    var h, l := loads[high], loads[low];
    var mid := loads[high := h - 1];
    SumUpdate(loads, high, h - 1);
    SumUpdate(mid, low, l + 1);
    SquareNext(h);
    SquareNext(l);
    assert mid[low] == l;
  }

  // ---- what a run of the balancer may do ----------------------------------------------------

  ghost function Loads(tdqs: seq<Tdq>): seq<int> {
    seq(|tdqs|, c requires 0 <= c < |tdqs| => tdqs[c].load)
  }

  /** A thread is left alone, or it was queued, is not pinned, and now is queued on a CPU it may run on. */
  predicate Migrated(t: Thread, t': Thread) {
    || t' == t
    || (&& t.state == Queued && t.pinned == 0 && t'.cpu in t.allowed
        && t' == t.(cpu := t'.cpu, kind := t'.kind, slot := t'.slot, xferable := true))
  }

  ghost predicate AllMigrated(threads: map<Tid, Thread>, threads': map<Tid, Thread>) {
    threads'.Keys == threads.Keys && forall td | td in threads :: Migrated(threads[td], threads'[td])
  }

  /** Every CPU gives or takes at most one thread; those still in hmask have done neither. */
  ghost predicate Balanced(loads: seq<int>, loads': seq<int>, hmask: set<nat>) {
    && |loads'| == |loads|
    && Sum(loads') == Sum(loads) && Squares(loads') <= Squares(loads)
    && (forall c | 0 <= c < |loads| :: loads[c] - 1 <= loads'[c] <= loads[c] + 1)
    && (forall c | 0 <= c < |loads| && c in hmask :: loads'[c] == loads[c])
  }

  lemma ShiftBalanced(loads: seq<int>, loads': seq<int>, hmask: set<nat>, high: nat, low: nat)
    requires Balanced(loads, loads', hmask) && high in hmask && low in hmask
    requires high != low && high < |loads'| && low < |loads'| && loads'[low] < loads'[high]
    ensures Balanced(loads, Shifted(loads', high, low), hmask - {high} - {low})
  {
    ShiftImproves(loads', high, low);
  }

  // ---- stealing from a thread queue -----------------------------------------------------------

  /** THREAD_CAN_MIGRATE and THREAD_CAN_SCHED */
  function Movable(threads: map<Tid, Thread>, cpu: nat): set<Tid> {
    set td | td in threads && threads[td].pinned == 0 && cpu in threads[td].allowed
  }

  /** tdq_steal (sched_ule.c:1219-1234) */
  function TdqSteal(q: Tdq, ok: set<Tid>): Option<Tid>
    requires q.ridx < RQ_NQS
  {
    var realtime := FirstOf(Flat(q.realtime, 0, RQ_NQS), ok);
    if realtime.Some? then realtime else
    var timeshare := Pick(ScanOrder(q.timeshare, q.ridx), ok);
    if timeshare.Some? then timeshare else
    var lottery := Pick(ScanOrder(q.lottery, q.ridx), ok);
    if lottery.Some? then lottery else
    FirstOf(Flat(q.idle, 0, RQ_NQS), ok)
  }

  lemma PickQueued(qs: Queues, start: nat, ok: set<Tid>)
    requires start < RQ_NQS && Pick(ScanOrder(qs, start), ok).Some?
    ensures Pick(ScanOrder(qs, start), ok).value in ok
    ensures exists p :: 0 <= p < RQ_NQS && Pick(ScanOrder(qs, start), ok).value in qs[p]
  {
    PickSound(ScanOrder(qs, start), ok);
    var td := Pick(ScanOrder(qs, start), ok).value;
    FlatMember(qs, start, RQ_NQS, td);
    FlatMember(qs, 0, RQ_NQS, td);
    hide Pick, Flat;
  }

  lemma FirstQueued(qs: Queues, ok: set<Tid>)
    requires FirstOf(Flat(qs, 0, RQ_NQS), ok).Some?
    ensures FirstOf(Flat(qs, 0, RQ_NQS), ok).value in ok
    ensures exists p :: 0 <= p < RQ_NQS && FirstOf(Flat(qs, 0, RQ_NQS), ok).value in qs[p]
  {
    FirstOfSound(Flat(qs, 0, RQ_NQS), ok);
    FlatMember(qs, 0, RQ_NQS, FirstOf(Flat(qs, 0, RQ_NQS), ok).value);
  }

  /** The queue that yields the thread. */
  function StolenFrom(q: Tdq, ok: set<Tid>): Kind
    requires q.ridx < RQ_NQS
  {
    if FirstOf(Flat(q.realtime, 0, RQ_NQS), ok).Some? then Realtime
    else if Pick(ScanOrder(q.timeshare, q.ridx), ok).Some? then Timeshare
    else if Pick(ScanOrder(q.lottery, q.ridx), ok).Some? then Lottery
    else Idle
  }

  /** What is stolen from a CPU is a queued thread of that CPU that may move to the thief. */
  lemma StolenIsMovable(tdqs: seq<Tdq>, threads: map<Tid, Thread>, c: nat, thief: nat)
    requires Inv(tdqs, threads) && c < |tdqs|
    ensures tdqs[c].ridx < RQ_NQS
    ensures var r := TdqSteal(tdqs[c], Movable(threads, thief));
            r.Some? ==> (
              && r.value in threads && threads[r.value].state == Queued && threads[r.value].cpu == c
              && threads[r.value].pinned == 0 && thief in threads[r.value].allowed
              && threads[r.value].kind == StolenFrom(tdqs[c], Movable(threads, thief)))
  {
    hide Pick, FirstOf, Flat, ScanOrder;
    var q, ok := tdqs[c], Movable(threads, thief);
    var r := TdqSteal(q, ok);
    if r.Some? {
      var k: Kind;
      if FirstOf(Flat(q.realtime, 0, RQ_NQS), ok).Some? {
        k := Realtime;
        FirstQueued(q.realtime, ok);
      } else if Pick(ScanOrder(q.timeshare, q.ridx), ok).Some? {
        k := Timeshare;
        PickQueued(q.timeshare, q.ridx, ok);
      } else if Pick(ScanOrder(q.lottery, q.ridx), ok).Some? {
        k := Lottery;
        PickQueued(q.lottery, q.ridx, ok);
      } else {
        k := Idle;
        FirstQueued(q.idle, ok);
      }
      var p :| 0 <= p < RQ_NQS && r.value in q.Q(k)[p];
      assert ListOk(tdqs[c], threads, c, k, p);
    }
  }

  // ---- what is left behind, in terms of the thread records ---------------------------------

  /** The thread waits on CPU c in a queue of kind k. */
  predicate WaitsOn(t: Thread, c: nat, k: Kind) { t.state == Queued && t.cpu == c && t.kind == k }

  predicate CanMove(t: Thread, thief: nat) { t.pinned == 0 && thief in t.allowed }

  ghost predicate NoneMovable(threads: map<Tid, Thread>, c: nat, k: Kind, thief: nat) {
    forall td | td in threads && WaitsOn(threads[td], c, k) :: !CanMove(threads[td], thief)
  }

  /** Several threads wait in the queues, none at or after a start other than 0, and only the first may move. */
  ghost predicate OnlyFirstMovable(qs: Queues, start: nat, threads: map<Tid, Thread>, thief: nat) {
    var s := Flat(qs, 0, RQ_NQS);
    && NoneAhead(qs, start) && |s| > 1
    && forall i | 0 <= i < |s| :: s[i] in threads && (CanMove(threads[s[i]], thief) <==> i == 0)
  }

  /** No thread of kind k may move to the thief; or the only one that may is the one that runq_steal_from passes over. */
  ghost predicate NothingToTake(q: Tdq, threads: map<Tid, Thread>, c: nat, k: Kind, thief: nat) {
    || NoneMovable(threads, c, k, thief)
    || ((k == Timeshare || k == Lottery) && OnlyFirstMovable(q.Q(k), q.ridx, threads, thief))
  }

  lemma AvailableIsMovable(tdqs: seq<Tdq>, threads: map<Tid, Thread>, c: nat, k: Kind, thief: nat)
    requires Placed(tdqs, threads) && ThreadsOk(threads, |tdqs|) && c < |tdqs|
    ensures Available(tdqs[c].Q(k), Movable(threads, thief)) <==> !NoneMovable(threads, c, k, thief)
  {
    var qs, ok := tdqs[c].Q(k), Movable(threads, thief);
    if Available(qs, ok) {
      var p, x :| 0 <= p < RQ_NQS && x in qs[p] && x in ok;
      assert ListOk(tdqs[c], threads, c, k, p);
      assert WaitsOn(threads[x], c, k) && CanMove(threads[x], thief);
    }
    if td :| td in threads && WaitsOn(threads[td], c, k) && CanMove(threads[td], thief) {
      assert ThreadOk(threads[td], |tdqs|);
      var p := threads[td].slot;
      assert ListOk(tdqs[c], threads, c, k, p);
      assert Here(threads, td, c, k, p) && td in qs[p] && td in ok;
    }
  }

  lemma FirstOfNone(qs: Queues, ok: set<Tid>)
    ensures FirstOf(Flat(qs, 0, RQ_NQS), ok) == None <==> !Available(qs, ok)
  {
    hide FirstOf, Flat, Available;
    FirstOfSound(Flat(qs, 0, RQ_NQS), ok);
    AvailableInScan(qs, ok);
  }

  lemma PickNone(qs: Queues, start: nat, ok: set<Tid>)
    requires start < RQ_NQS
    ensures Pick(ScanOrder(qs, start), ok) == None <==>
      || !Available(qs, ok)
      || (var s := Flat(qs, 0, RQ_NQS);
          NoneAhead(qs, start) && |s| > 1 && s[0] in ok && forall k | 1 <= k < |s| :: s[k] !in ok)
  {
    FirstIsMissed(qs, start, ok);
    hide Pick, Flat, ScanOrder, NoneAhead;
    if Pick(ScanOrder(qs, start), ok).Some? {
      PickQueued(qs, start, ok);
    }
  }

  lemma FlatThreads(tdqs: seq<Tdq>, threads: map<Tid, Thread>, c: nat, k: Kind)
    requires Placed(tdqs, threads) && c < |tdqs|
    ensures forall td | td in Flat(tdqs[c].Q(k), 0, RQ_NQS) :: td in threads
  {
    hide Flat;
    forall td | td in Flat(tdqs[c].Q(k), 0, RQ_NQS)
      ensures td in threads
    {
      FlatMember(tdqs[c].Q(k), 0, RQ_NQS, td);
      var p :| 0 <= p < RQ_NQS && td in tdqs[c].Q(k)[p];
      assert ListOk(tdqs[c], threads, c, k, p);
    }
  }

  /** What each of the four queues yields. */
  lemma KindNone(tdqs: seq<Tdq>, threads: map<Tid, Thread>, c: nat, k: Kind, thief: nat)
    requires Inv(tdqs, threads) && c < |tdqs|
    ensures tdqs[c].ridx < RQ_NQS
    ensures var qs, ok := tdqs[c].Q(k), Movable(threads, thief);
      (if k == Timeshare || k == Lottery then Pick(ScanOrder(qs, tdqs[c].ridx), ok) else FirstOf(Flat(qs, 0, RQ_NQS), ok)) == None
      <==> NothingToTake(tdqs[c], threads, c, k, thief)
  {
    var qs, ok := tdqs[c].Q(k), Movable(threads, thief);
    AvailableIsMovable(tdqs, threads, c, k, thief);
    FlatThreads(tdqs, threads, c, k);
    hide Pick, Flat, ScanOrder, NoneAhead, FirstOf, Placed, Available, NoneMovable;
    if k == Timeshare || k == Lottery {
      PickNone(qs, tdqs[c].ridx, ok);
    } else {
      FirstOfNone(qs, ok);
    }
  }

  /**
    tdq_steal finds nothing exactly if no queue has anything to take; and what it
    finds comes from the first queue that has, realtime before timeshare before
    lottery before idle threads.
   */
  lemma StealOrder(tdqs: seq<Tdq>, threads: map<Tid, Thread>, c: nat, thief: nat)
    requires Inv(tdqs, threads) && c < |tdqs|
    ensures tdqs[c].ridx < RQ_NQS
    ensures var r := TdqSteal(tdqs[c], Movable(threads, thief));
      if r.None? then forall k: Kind :: NothingToTake(tdqs[c], threads, c, k, thief)
      else
        && r.value in threads && !NothingToTake(tdqs[c], threads, c, threads[r.value].kind, thief)
        && forall k: Kind | ServiceRank(k) < ServiceRank(threads[r.value].kind) :: NothingToTake(tdqs[c], threads, c, k, thief)
  {
    hide Inv, NothingToTake, Pick, FirstOf, Flat, ScanOrder, Movable;
    KindNone(tdqs, threads, c, Realtime, thief);
    KindNone(tdqs, threads, c, Timeshare, thief);
    KindNone(tdqs, threads, c, Lottery, thief);
    KindNone(tdqs, threads, c, Idle, thief);
    StolenIsMovable(tdqs, threads, c, thief);
    forall k: Kind
      ensures TdqSteal(tdqs[c], Movable(threads, thief)) == None ==> NothingToTake(tdqs[c], threads, c, k, thief)
    {
      assert k == Realtime || k == Timeshare || k == Lottery || k == Idle;
    }
  }

  ghost predicate SlotsMatch(qs: Queues, threads: map<Tid, Thread>) {
    forall p, td | 0 <= p < RQ_NQS && td in qs[p] :: td in threads && threads[td].slot == p
  }

  lemma {:induction false} FlatOrder(qs: Queues, hi: nat, threads: map<Tid, Thread>, i: nat, j: nat)
    requires hi <= RQ_NQS && SlotsMatch(qs, threads) && i <= j < |Flat(qs, 0, hi)|
    ensures Flat(qs, 0, hi)[i] in threads && Flat(qs, 0, hi)[j] in threads
    ensures threads[Flat(qs, 0, hi)[i]].slot <= threads[Flat(qs, 0, hi)[j]].slot < hi
    decreases hi
  {
    var front, last := Flat(qs, 0, hi - 1), qs[hi - 1];
    if j < |front| {
      FlatOrder(qs, hi - 1, threads, i, j);
    } else {
      assert Flat(qs, 0, hi)[j] in last;
      if i < |front| {
        FlatOrder(qs, hi - 1, threads, i, i);
      } else {
        assert Flat(qs, 0, hi)[i] in last;
      }
    }
  }

  lemma QueueSlots(tdqs: seq<Tdq>, threads: map<Tid, Thread>, c: nat, k: Kind)
    requires Placed(tdqs, threads) && c < |tdqs|
    ensures SlotsMatch(tdqs[c].Q(k), threads)
  {
    forall p, td | 0 <= p < RQ_NQS && td in tdqs[c].Q(k)[p]
      ensures td in threads && threads[td].slot == p
    {
      assert ListOk(tdqs[c], threads, c, k, p);
    }
  }

  /** Of the realtime or idle threads that may move, one with the best priority, that is in the lowest slot, is stolen. */
  lemma LowestSlotStolen(tdqs: seq<Tdq>, threads: map<Tid, Thread>, c: nat, k: Kind, thief: nat, td: Tid)
    requires Inv(tdqs, threads) && c < |tdqs| && (k == Realtime || k == Idle)
    requires td in threads && WaitsOn(threads[td], c, k) && CanMove(threads[td], thief)
    ensures var r := FirstOf(Flat(tdqs[c].Q(k), 0, RQ_NQS), Movable(threads, thief));
      r.Some? && r.value in threads && threads[r.value].slot <= threads[td].slot
  {
    var qs, ok := tdqs[c].Q(k), Movable(threads, thief);
    var s := Flat(qs, 0, RQ_NQS);
    QueueSlots(tdqs, threads, c, k);
    assert ThreadOk(threads[td], |tdqs|);
    assert ListOk(tdqs[c], threads, c, k, threads[td].slot);
    assert Here(threads, td, c, k, threads[td].slot) && td in ok;
    FlatMember(qs, 0, RQ_NQS, td);
    FirstOfSound(s, ok);
    FirstOfIsFirst(s, ok);
    hide Flat, FirstOf, Inv, SlotsMatch;
    var i :| 0 <= i < |s| && s[i] == FirstOf(s, ok).value && forall j | 0 <= j < i :: s[j] !in ok;
    var j :| 0 <= j < |s| && s[j] == td;
    FlatOrder(qs, RQ_NQS, threads, i, j);
  }

  /**
    A thread that waits on CPU c and may move to the thief, from the first queue that
    has one to take; a realtime or idle thread is in the lowest slot with such a thread.
   */
  ghost predicate RightlyStolen(q: Tdq, threads: map<Tid, Thread>, c: nat, thief: nat, td: Tid) {
    && td in threads && WaitsOn(threads[td], c, threads[td].kind) && CanMove(threads[td], thief)
    && (forall k: Kind | ServiceRank(k) < ServiceRank(threads[td].kind) :: NothingToTake(q, threads, c, k, thief))
    && (threads[td].kind == Realtime || threads[td].kind == Idle ==>
          forall x | x in threads && WaitsOn(threads[x], c, threads[td].kind) && CanMove(threads[x], thief) ::
            threads[td].slot <= threads[x].slot)
  }

  lemma StolenYield(q: Tdq, ok: set<Tid>)
    requires q.ridx < RQ_NQS && TdqSteal(q, ok).Some?
    ensures var k := StolenFrom(q, ok);
      k == Realtime || k == Idle ==> TdqSteal(q, ok) == FirstOf(Flat(q.Q(k), 0, RQ_NQS), ok)
  {
    hide Flat, FirstOf, Pick, ScanOrder;
  }

  lemma StealIsRight(tdqs: seq<Tdq>, threads: map<Tid, Thread>, c: nat, thief: nat)
    requires Inv(tdqs, threads) && c < |tdqs|
    ensures tdqs[c].ridx < RQ_NQS
    ensures var r := TdqSteal(tdqs[c], Movable(threads, thief));
      r.Some? ==> RightlyStolen(tdqs[c], threads, c, thief, r.value)
  {
    hide Inv, NothingToTake, Flat, FirstOf, Movable, TdqSteal, StolenFrom;
    StolenIsMovable(tdqs, threads, c, thief);
    StealOrder(tdqs, threads, c, thief);
    var r := TdqSteal(tdqs[c], Movable(threads, thief));
    if r.Some? {
      StolenYield(tdqs[c], Movable(threads, thief));
      var k := threads[r.value].kind;
      if k == Realtime || k == Idle {
        forall x | x in threads && WaitsOn(threads[x], c, k) && CanMove(threads[x], thief)
          ensures threads[r.value].slot <= threads[x].slot
        {
          LowestSlotStolen(tdqs, threads, c, k, thief, x);
        }
      }
    }
  }

  // ---- moving one thread -----------------------------------------------------------------

  /** tdq_move (sched_ule.c:988-1017) */
  method TdqMove(s: Scheduler, from: nat, to: nat) returns (r: Option<Tid>)
    requires s.Valid() && from < s.tdqs.Length && to < s.tdqs.Length && from != to
    modifies s`threads, s.tdqs
    ensures s.Valid()
    ensures old(s.tdqs[from].ridx) < RQ_NQS
    ensures r == old(TdqSteal(s.tdqs[from], Movable(s.threads, to)))
    ensures r.None? <==> forall k: Kind :: NothingToTake(old(s.tdqs[from]), old(s.threads), from, k, to)
    ensures r.Some? ==> RightlyStolen(old(s.tdqs[from]), old(s.threads), from, to, r.value)
    ensures r.None? ==> s.threads == old(s.threads) && s.tdqs[..] == old(s.tdqs[..])
    ensures r.Some? ==> r.value in s.threads && s.threads[r.value].cpu == to && AllMigrated(old(s.threads), s.threads)
    ensures r.Some? ==> forall td | td in old(s.threads) && td != r.value :: s.threads[td] == old(s.threads)[td]
    ensures r.Some? ==> Loads(s.tdqs[..]) == Shifted(Loads(old(s.tdqs[..])), from, to)
  {
    hide Pick, FirstOf, Flat, ScanOrder, TdqSteal, Inv, Movable, NothingToTake, StolenFrom, RightlyStolen;
    StolenIsMovable(s.tdqs[..], s.threads, from, to);
    StealOrder(s.tdqs[..], s.threads, from, to);
    StealIsRight(s.tdqs[..], s.threads, from, to);
    r := TdqSteal(s.tdqs[from], Movable(s.threads, to));
    if r.None? {
      return;
    }
    var td := r.value;
    s.Rem(td);
    RemovedLoads(old(s.tdqs[..]), td, old(s.threads[td]));
    s.Add(to, td, false, false);
    AddedLoad(s.tdqs[to], td, s.threads[td], false, false);
    assert Loads(s.tdqs[..]) == Shifted(Loads(old(s.tdqs[..])), from, to);
  }

  lemma RemovedLoads(tdqs: seq<Tdq>, td: Tid, t: Thread)
    requires t.slot < RQ_NQS
    ensures forall c | 0 <= c < |tdqs| :: Removed(tdqs[c], td, t).load == tdqs[c].load
  {
  }

  // ---- the balancer ------------------------------------------------------------------------

  /** sched_balance_pair (sched_ule.c:960-983) */
  method BalancePair(s: Scheduler, high: nat, low: nat) returns (moved: bool)
    requires s.Valid() && high < s.tdqs.Length && low < s.tdqs.Length && high != low
    modifies s`threads, s.tdqs
    ensures s.Valid()
    ensures !moved ==> s.threads == old(s.threads) && s.tdqs[..] == old(s.tdqs[..])
    ensures moved ==> old(s.tdqs[high].load > s.tdqs[low].load) && AllMigrated(old(s.threads), s.threads)
    ensures moved ==> Loads(s.tdqs[..]) == Shifted(Loads(old(s.tdqs[..])), high, low)
    ensures old(s.tdqs[high].ridx) < RQ_NQS
    ensures moved <==> (
      && old(s.tdqs[high].transferable) != 0 && old(s.tdqs[high].load > s.tdqs[low].load)
      && exists k: Kind :: !NothingToTake(old(s.tdqs[high]), old(s.threads), high, k, low))
  {
    StolenIsMovable(s.tdqs[..], s.threads, high, low);
    hide Inv, TdqSteal, Movable, AllMigrated, NothingToTake;
    moved := false;
    if s.tdqs[high].transferable != 0 && s.tdqs[high].load > s.tdqs[low].load {
      var r := TdqMove(s, high, low);
      moved := r.Some?;
    }
  }

  /** What the search sees of the queues. */
  function Snapshot(tdqs: seq<Tdq>): seq<CS.Cpu>
    requires forall c | 0 <= c < |tdqs| :: tdqs[c].load >= 0 && tdqs[c].transferable >= 0
  {
    seq(|tdqs|, c requires 0 <= c < |tdqs| => CS.Cpu(tdqs[c].load, 0, tdqs[c].transferable))
  }

  lemma CountsNonNegative(tdqs: seq<Tdq>, threads: map<Tid, Thread>)
    requires Inv(tdqs, threads)
    ensures forall c | 0 <= c < |tdqs| :: tdqs[c].load >= 0 && tdqs[c].transferable >= 0
  {
  }

  const NO_LIMITS := CS.Limits({}, 0, 0, 0)

  function LoadQuery(cpus: seq<CS.Cpu>): CS.Query {
    CS.Query(cpus, NO_LIMITS, NO_LIMITS, CS.Lowest)
  }

  /** The weights of a group stay below INT_MAX as long as there are fewer than 2^23 threads. */
  lemma {:induction false} SumLoadBound(q: CS.Query, mask: set<nat>, loads: seq<int>)
    requires |loads| <= |q.cpus| && forall c | 0 <= c < |loads| :: loads[c] == q.cpus[c].load
    requires forall c | c in mask :: c < |loads|
    ensures CS.SumLoad(q, mask) <= Sum(loads)
    decreases |loads|
  {
    if loads == [] {
      if c :| c in mask {
        assert false;
      }
    } else {
      var n := |loads| - 1;
      SumLoadBound(q, mask - {n}, loads[..n]);
      if n in mask {
        CS.SumRemove(q, mask, n);
      } else {
        assert mask - {n} == mask;
      }
    }
  }

  lemma Fits(tdqs: seq<Tdq>, mask: set<nat>)
    requires forall c | 0 <= c < |tdqs| :: tdqs[c].load >= 0 && tdqs[c].transferable >= 0
    requires forall c | c in mask :: c < |tdqs|
    requires 256 * Sum(Loads(tdqs)) < CS.INT_MAX
    ensures CS.NoOverflow(LoadQuery(Snapshot(tdqs)), mask)
  {
    SumLoadBound(LoadQuery(Snapshot(tdqs)), mask, Loads(tdqs));
  }

  ghost predicate Ready(s: Scheduler, cg: CS.Group)
    reads s, s.tdqs
  {
    && s.Valid() && CS.WellFormed(cg) && (forall c | c in cg.mask :: c < s.tdqs.Length)
    && 256 * Sum(Loads(s.tdqs[..])) < CS.INT_MAX
  }

  // ---- when there is nothing to balance ---------------------------------------------------

  /** The CPU has a thread to spare. */
  predicate CanGive(tdqs: seq<Tdq>, c: nat) {
    c < |tdqs| && tdqs[c].load >= 2 && tdqs[c].transferable != 0
  }

  /** No CPU of the set that has a thread to spare is more loaded. */
  ghost predicate Greatest(tdqs: seq<Tdq>, cpus: set<nat>, high: nat) {
    high < |tdqs| && forall x | x in cpus && CanGive(tdqs, x) :: tdqs[x].load <= tdqs[high].load
  }

  /** None of the queues of `high` has a thread to take for `low`. */
  ghost predicate Refused(tdqs: seq<Tdq>, threads: map<Tid, Thread>, high: nat, low: nat) {
    high < |tdqs| && forall k: Kind :: NothingToTake(tdqs[high], threads, high, k, low)
  }

  /** No less loaded CPU of the group can take a thread from `high`. */
  ghost predicate Exhausted(tdqs: seq<Tdq>, threads: map<Tid, Thread>, mask: set<nat>, high: nat) {
    high < |tdqs| && forall low | low in mask && low < |tdqs| && tdqs[low].load < tdqs[high].load ::
      Refused(tdqs, threads, high, low)
  }

  /** Nothing has moved yet, and the CPUs that are no longer in hmask have been tried, the most loaded ones first. */
  ghost predicate Tried(tdqs: seq<Tdq>, threads: map<Tid, Thread>, mask: set<nat>, hmask: set<nat>) {
    && (forall h | h in mask && h < |tdqs| && h !in hmask :: Exhausted(tdqs, threads, mask, h))
    && (forall h, x | h in mask && h < |tdqs| && h !in hmask && x in mask * hmask && CanGive(tdqs, x) ::
          tdqs[x].load <= tdqs[h].load)
  }

  /** Every CPU that has a thread to spare has nothing that a less loaded CPU could take. */
  ghost predicate Settled(tdqs: seq<Tdq>, threads: map<Tid, Thread>, mask: set<nat>) {
    forall h | h in mask && CanGive(tdqs, h) :: Exhausted(tdqs, threads, mask, h)
  }

  /** At the start, every CPU is in hmask. */
  lemma TriedNone(tdqs: seq<Tdq>, threads: map<Tid, Thread>, mask: set<nat>, hmask: set<nat>)
    requires forall c | 0 <= c < |tdqs| :: c in hmask
    ensures Tried(tdqs, threads, mask, hmask)
  {
  }

  /** One more CPU has been tried in vain. */
  lemma TriedNext(tdqs: seq<Tdq>, threads: map<Tid, Thread>, mask: set<nat>, hmask: set<nat>, high: nat)
    requires Tried(tdqs, threads, mask, hmask) && high in mask * hmask && CanGive(tdqs, high)
    requires Greatest(tdqs, mask * hmask, high)
    requires forall c | c in mask * (hmask - {high}) && c < |tdqs| && tdqs[c].load < tdqs[high].load ::
      Refused(tdqs, threads, high, c)
    ensures Tried(tdqs, threads, mask, hmask - {high})
  {
    hide Refused;
    assert Exhausted(tdqs, threads, mask, high);
  }

  /** The ways in which the balancer stops: no CPU can give, only one is left, or nobody left is less loaded. */
  lemma TriedAll(tdqs: seq<Tdq>, threads: map<Tid, Thread>, mask: set<nat>, hmask: set<nat>, high: int)
    requires Tried(tdqs, threads, mask, hmask)
    requires high == -1 ==> forall c | c in mask * hmask :: !CanGive(tdqs, c)
    requires high != -1 ==> 0 <= high && high in mask * hmask && CanGive(tdqs, high)
    requires high != -1 ==> Greatest(tdqs, mask * hmask, high)
    requires high != -1 ==> forall c | c in mask * (hmask - {high}) && c < |tdqs| :: tdqs[c].load >= tdqs[high].load
    ensures Settled(tdqs, threads, mask)
  {
    hide Refused;
    forall h | h in mask && CanGive(tdqs, h)
      ensures Exhausted(tdqs, threads, mask, h)
    {
      if h in hmask {
        forall low | low in mask && low < |tdqs|
          ensures tdqs[low].load >= tdqs[h].load
        {
        }
      }
    }
  }

  /** A CPU that has given a thread away shows it. */
  ghost predicate Marked(loads: seq<int>, loads': seq<int>, hmask: set<nat>, c: int) {
    0 <= c < |loads| == |loads'| && c !in hmask && loads'[c] != loads[c]
  }

  lemma ShiftMarks(loads: seq<int>, loads': seq<int>, hmask: set<nat>, high: nat, low: nat, hmask': set<nat>)
    requires Balanced(loads, loads', hmask) && high in hmask && high != low && high < |loads'| && low < |loads'|
    requires high !in hmask'
    ensures Marked(loads, Shifted(loads', high, low), hmask', high)
  {
    hide Sum, Squares;
  }

  /** sched_highest over the current queues, with the limits of the balancer. */
  method FindHigh(s: Scheduler, cg: CS.Group, hmask: set<nat>) returns (high: int)
    requires Ready(s, cg)
    ensures high == -1 <==> forall c | c in cg.mask * hmask :: !CanGive(s.tdqs[..], c)
    ensures high != -1 ==> 0 <= high < s.tdqs.Length && high in cg.mask * hmask && CanGive(s.tdqs[..], high)
    ensures high != -1 && cg.children == [] ==> Greatest(s.tdqs[..], cg.mask * hmask, high)
  {
    CountsNonNegative(s.tdqs[..], s.threads);
    Fits(s.tdqs[..], cg.mask);
    hide Inv, CS.WellFormed, CS.NoOverflow, CS.BestPath;
    high := CS.SchedHighest(cg, Snapshot(s.tdqs[..]), hmask, 2);
    if high != -1 && cg.children == [] {
      FlatHighest(cg, Snapshot(s.tdqs[..]), hmask, high);
    }
  }

  /** In a group without children the search finds the greatest load there is. */
  lemma FlatHighest(cg: CS.Group, cpus: seq<CS.Cpu>, mask: set<nat>, c: nat)
    requires cg.children == [] && c < |cpus|
    requires CS.BestPath(CS.High, CS.Query(cpus, CS.Limits({}, 0, 0, 0), CS.Limits(mask, 0, 0, 2), CS.Highest), cg, c)
    ensures forall d | d in cg.mask * mask && d < |cpus| && cpus[d].load >= 2 && cpus[d].transferable != 0 ::
      cpus[d].load <= cpus[c].load
  {
    var q := CS.Query(cpus, CS.Limits({}, 0, 0, 0), CS.Limits(mask, 0, 0, 2), CS.Highest);
    var it :| CS.IsItem(cg, it) && CS.ItemPath(CS.High, q, cg, it, c) && CS.BestItem(CS.High, q, cg, it, c);
    assert it == CS.Single(c);
    CS.TotalSingle(q, c);
    forall d | d in cg.mask * mask && d < |cpus| && cpus[d].load >= 2 && cpus[d].transferable != 0
      ensures cpus[d].load <= cpus[c].load
    {
      var other := CS.Single(d);
      assert CS.IsItem(cg, other) && CS.Eligible(CS.High, q, d) && d in CS.ItemMask(cg, other);
      CS.TotalSingle(q, d);
    }
  }

  /** sched_lowest over the current queues: a CPU of the mask with a load below that of `high`. */
  method FindLow(s: Scheduler, cg: CS.Group, lmask: set<nat>, high: nat) returns (low: int)
    requires Ready(s, cg) && high < s.tdqs.Length
    ensures low == -1 <==> forall c | c in cg.mask * lmask && c < s.tdqs.Length ::
      s.tdqs[c].load >= s.tdqs[high].load
    ensures low != -1 ==> 0 <= low < s.tdqs.Length && low in cg.mask * lmask && s.tdqs[low].load < s.tdqs[high].load
  {
    CountsNonNegative(s.tdqs[..], s.threads);
    Fits(s.tdqs[..], cg.mask);
    hide Inv, CS.WellFormed, CS.NoOverflow, CS.BestPath;
    low := CS.SchedLowest(cg, Snapshot(s.tdqs[..]), lmask, -1, s.tdqs[high].load - 1, high);
  }

  lemma MigratedAgain(threads: map<Tid, Thread>, mid: map<Tid, Thread>, threads': map<Tid, Thread>)
    requires AllMigrated(threads, mid) && AllMigrated(mid, threads')
    ensures AllMigrated(threads, threads')
  {
    forall td | td in threads
      ensures Migrated(threads[td], threads'[td])
    {
      assert Migrated(threads[td], mid[td]) && Migrated(mid[td], threads'[td]);
    }
  }

  lemma FewerLeft(loads: seq<int>, loads': seq<int>, hmask: set<nat>, rest: set<nat>)
    requires Balanced(loads, loads', hmask) && rest <= hmask
    ensures Balanced(loads, loads', rest)
  {
  }

  lemma LoadAt(tdqs: seq<Tdq>)
    ensures |Loads(tdqs)| == |tdqs| && forall c | 0 <= c < |tdqs| :: Loads(tdqs)[c] == tdqs[c].load
  {
  }

  lemma StartBalance(loads: seq<int>, threads: map<Tid, Thread>, hmask: set<nat>)
    ensures Balanced(loads, loads, hmask) && AllMigrated(threads, threads)
  {
  }

  /**
    The part of sched_balance_group from the label nextlow on: `high` offers a
    thread to the CPUs of lmask, the least loaded first, until one takes it.
   */
  method Offer(s: Scheduler, cg: CS.Group, high: nat, hmask: set<nat>, ghost loads: seq<int>)
    returns (stop: bool, hmask': set<nat>, ghost moved: bool)
    requires Ready(s, cg) && CanGive(s.tdqs[..], high) && high !in hmask
    requires Balanced(loads, Loads(s.tdqs[..]), hmask + {high})
    modifies s`threads, s.tdqs
    ensures Ready(s, cg) && hmask' <= hmask && |hmask'| <= |hmask|
    ensures AllMigrated(old(s.threads), s.threads)
    ensures Balanced(loads, Loads(s.tdqs[..]), hmask')
    ensures moved ==> Marked(loads, Loads(s.tdqs[..]), hmask', high)
    ensures SameOff(Loads(old(s.tdqs[..])), Loads(s.tdqs[..]), hmask + {high})
    ensures !moved ==> s.threads == old(s.threads) && s.tdqs[..] == old(s.tdqs[..]) && hmask' == hmask
    ensures !moved ==> forall c | c in cg.mask * hmask && c < s.tdqs.Length && s.tdqs[c].load < s.tdqs[high].load ::
      Refused(s.tdqs[..], s.threads, high, c)
    ensures stop ==> !moved && forall c | c in cg.mask * hmask && c < s.tdqs.Length :: s.tdqs[c].load >= s.tdqs[high].load
  {
    hide Inv, CS.WellFormed, AllMigrated, Balanced, Loads, Shifted, Sum, Marked, TdqSteal, Movable, NothingToTake;
    StartBalance(Loads(s.tdqs[..]), s.threads, hmask);
    hmask', stop, moved := hmask, false, false;
    var lmask, anylow := hmask, true;
    while true
      invariant lmask <= hmask && (anylow ==> lmask == hmask)
      invariant Ready(s, cg) && s.threads == old(s.threads) && s.tdqs[..] == old(s.tdqs[..])
      invariant forall c | c in cg.mask * hmask && c !in lmask && c < s.tdqs.Length :: Refused(s.tdqs[..], s.threads, high, c)
      decreases |lmask|
    {
      var low := FindLow(s, cg, lmask, high);
      if low == -1 {
        stop := anylow;
        FewerLeft(loads, Loads(s.tdqs[..]), hmask + {high}, hmask);
        assert SameOff(Loads(s.tdqs[..]), Loads(s.tdqs[..]), hmask + {high});
        return;
      }
      LoadAt(s.tdqs[..]);
      ghost var before := Loads(s.tdqs[..]);
      var took := BalancePair(s, high, low);
      if took {
        ShiftBalanced(loads, before, hmask + {high}, high, low);
        SameSum(loads, before, Loads(s.tdqs[..]), hmask + {high}, hmask + {high} - {high} - {low});
        hmask' := hmask - {low};
        assert hmask + {high} - {high} - {low} == hmask';
        ShiftMarks(loads, before, hmask + {high}, high, low, hmask');
        ShiftOff(before, high, low, hmask + {high});
        moved := true;
        return;
      }
      lmask, anylow := lmask - {low}, false;
    }
  }

  lemma SameSum(loads: seq<int>, mid: seq<int>, loads': seq<int>, h: set<nat>, h': set<nat>)
    requires Balanced(loads, mid, h) && Balanced(loads, loads', h')
    ensures Sum(loads') == Sum(mid)
  {
  }

  /** CPUs that are not in hmask keep their load. */
  ghost predicate SameOff(loads: seq<int>, loads': seq<int>, hmask: set<nat>) {
    |loads'| == |loads| && forall d | 0 <= d < |loads| && d !in hmask :: loads'[d] == loads[d]
  }

  lemma ShiftOff(loads: seq<int>, high: nat, low: nat, hmask: set<nat>)
    requires high < |loads| && low < |loads| && high in hmask && low in hmask
    ensures SameOff(loads, Shifted(loads, high, low), hmask)
  {
  }

  lemma MarkStays(loads: seq<int>, mid: seq<int>, loads': seq<int>, hmask: set<nat>, hmask': set<nat>, c: int)
    requires Marked(loads, mid, hmask, c) && hmask' <= hmask && SameOff(mid, loads', hmask)
    ensures Marked(loads, loads', hmask', c)
  {
  }

  /** What the search and the offers have shown so far, for a group without children in which nothing has moved. */
  ghost predicate Quiet(tdqs: seq<Tdq>, threads: map<Tid, Thread>, cg: CS.Group, hmask: set<nat>) {
    cg.children == [] ==> Tried(tdqs, threads, cg.mask, hmask)
  }

  /** sched_balance_group (sched_ule.c:872-914) */
  method BalanceGroup(s: Scheduler, cg: CS.Group)
    requires Ready(s, cg)
    modifies s`threads, s.tdqs
    ensures Ready(s, cg)
    ensures AllMigrated(old(s.threads), s.threads)
    ensures Balanced(Loads(old(s.tdqs[..])), Loads(s.tdqs[..]), {})
    ensures cg.children == [] && Loads(s.tdqs[..]) == Loads(old(s.tdqs[..])) ==>
      Settled(s.tdqs[..], s.threads, cg.mask)
  {
    hide Inv, CS.WellFormed, AllMigrated, Balanced, Loads, Ready, Tried, Settled,
      Exhausted, Refused, Marked, SameOff, CanGive, Greatest;
    ghost var loads, threads := Loads(s.tdqs[..]), s.threads;
    var hmask := Range(0, s.tdqs.Length);
    StartBalance(loads, threads, hmask);
    TriedNone(s.tdqs[..], s.threads, cg.mask, hmask);
    ghost var mark := -1;
    while true
      invariant Ready(s, cg) && AllMigrated(threads, s.threads)
      invariant Balanced(loads, Loads(s.tdqs[..]), hmask)
      invariant mark == -1 ==> Quiet(s.tdqs[..], s.threads, cg, hmask)
      invariant mark != -1 ==> Marked(loads, Loads(s.tdqs[..]), hmask, mark)
      decreases |hmask|
    {
      FewerLeft(loads, Loads(s.tdqs[..]), hmask, {});
      MarkMeans(loads, Loads(s.tdqs[..]), hmask, mark);
      var high := FindHigh(s, cg, hmask);
      if high == -1 {
        if mark == -1 && cg.children == [] { TriedAll(s.tdqs[..], s.threads, cg.mask, hmask, -1); }
        break;
      }
      var rest := hmask - {high};
      if rest == {} {
        if mark == -1 && cg.children == [] { TriedAll(s.tdqs[..], s.threads, cg.mask, hmask, high); }
        break;
      }
      assert rest + {high} == hmask;
      ghost var mid, mask0, loads0 := s.threads, hmask, Loads(s.tdqs[..]);
      var stop;
      ghost var moved;
      stop, hmask, moved := Offer(s, cg, high, rest, loads);
      MigratedAgain(threads, mid, s.threads);
      FewerLeft(loads, Loads(s.tdqs[..]), hmask, {});
      if mark != -1 {
        MarkStays(loads, loads0, Loads(s.tdqs[..]), mask0, hmask, mark);
      } else if moved {
        mark := high;
      } else if cg.children == [] {
        TriedNext(s.tdqs[..], s.threads, cg.mask, mask0, high);
      }
      MarkMeans(loads, Loads(s.tdqs[..]), hmask, mark);
      if stop {
        if mark == -1 && cg.children == [] { TriedAll(s.tdqs[..], s.threads, cg.mask, mask0, high); }
        break;
      }
    }
  }

  lemma MarkMeans(loads: seq<int>, loads': seq<int>, hmask: set<nat>, c: int)
    ensures Marked(loads, loads', hmask, c) ==> loads' != loads
  {
  }
}
