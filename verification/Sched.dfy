/**
  The thread queues of all CPUs and the operations on them
  (asgn2/sched_ule.c:460-602, 2474-2482, 2543-2553 and 2591-2684).
 */
module Sched {
  import opened Lists
  import opened RunQueue
  import opened ThreadQueue
  import P = Priority

  class Scheduler {
    const tdqs: array<Tdq>
    var threads: map<Tid, Thread>

    ghost predicate Valid()
      reads this, tdqs
    {
      Inv(tdqs[..], threads)
    }

    /** tdq_setup for every CPU. */
    constructor (n: nat)
      ensures Valid() && fresh(tdqs) && tdqs.Length == n && threads == map[]
    {
      var none: Queues := seq(RQ_NQS, _ => []);
      tdqs := new Tdq[n](_ => Tdq.Tdq(none, none, none, none, 0, 0, 0, 0));
      threads := map[];
      new;
      assert forall c | 0 <= c < n :: OnCpu(threads, c) == {} && Xferable(threads, c) == {};
      forall c, k: Kind, p | 0 <= c < n && 0 <= p < RQ_NQS
        ensures ListOk(tdqs[c], threads, c, k, p)
      {
        assert tdqs[c].Q(k)[p] == [];
      }
    }

    /** tdq_runq_add (sched_ule.c:460-537) */
    method RunqAdd(c: nat, td: Tid, preempted: bool, borrowing: bool)
      requires c < tdqs.Length && td in threads && threads[td].priority < 256 && tdqs[c].ridx < RQ_NQS
      modifies `threads, tdqs
      ensures tdqs[..] == old(tdqs[..])[c := Added(old(tdqs[c]), td, old(threads[td]), preempted, borrowing)]
      ensures threads == old(threads)[td := AddedThread(old(tdqs[c]), old(threads[td]), !preempted && !borrowing)]
    {
      hide Inserted, Inv;
      var t, q := threads[td], tdqs[c];
      var pri := t.priority;
      t := t.(state := Queued);
      if t.pinned == 0 {
        q := q.(transferable := q.transferable + 1);
        t := t.(xferable := true);
      }
      if pri < P.PRI_MIN_BATCH {
        t := t.(kind := Realtime, slot := pri / RQ_PPQ);
      } else if pri <= P.PRI_MAX_BATCH {
        if t.uid != 0 {
          t := t.(kind := Lottery, slot := 0);
        } else {
          if !preempted && !borrowing {
            pri := RQ_NQS * (pri - P.PRI_MIN_BATCH) / P.PRI_BATCH_RANGE;
            pri := (pri + q.idx) % RQ_NQS;
            if q.ridx != q.idx && pri == q.ridx {
              pri := ((pri - 1) % 256) % RQ_NQS;
            }
          } else {
            pri := q.ridx;
          }
          t := t.(kind := Timeshare, slot := pri);
        }
      } else {
        t := t.(kind := Idle, slot := pri / RQ_PPQ);
      }
      q := q.SetQ(t.kind, Inserted(q.Q(t.kind), t.slot, td, preempted));
      tdqs[c], threads := q, threads[td := t];
    }

    /** tdq_runq_rem (sched_ule.c:544-564) */
    method RunqRem(c: nat, td: Tid)
      requires c < tdqs.Length && td in threads && threads[td].slot < RQ_NQS
      modifies `threads, tdqs
      ensures tdqs[..] == old(tdqs[..])[c := Removed(old(tdqs[c]), td, old(threads[td]))]
      ensures threads == old(threads)[td := old(threads[td]).(xferable := false)]
    {
      var t, q := threads[td], tdqs[c];
      if t.xferable {
        q := q.(transferable := q.transferable - 1);
        t := t.(xferable := false);
      }
      var rest := Without(q.Q(t.kind)[t.slot], td);
      q := q.SetQ(t.kind, q.Q(t.kind)[t.slot := rest]);
      if t.kind == Timeshare && q.idx != q.ridx && rest == [] && q.ridx == t.slot {
        q := q.(ridx := (t.slot + 1) % RQ_NQS);
      }
      tdqs[c], threads := q, threads[td := t];
    }

    /** tdq_add (sched_ule.c:2591-2607), after sched_setcpu has set ts_cpu. */
    method Add(c: nat, td: Tid, preempted: bool, borrowing: bool)
      requires Valid() && c < tdqs.Length && td in threads && threads[td].state == Off
      modifies `threads, tdqs
      ensures Valid()
      ensures old(threads[td].priority) < 256 && old(tdqs[c].ridx) < RQ_NQS
      ensures threads == old(threads)[td :=
        AddedThread(old(tdqs[c]), old(threads[td]).(cpu := c), !preempted && !borrowing)]
      ensures tdqs[..] == old(tdqs[..])[c :=
        Added(old(tdqs[c]), td, old(threads[td]), preempted, borrowing).(load := old(tdqs[c].load) + 1)]
    {
      AddKeeps(tdqs[..], threads, c, td, preempted, borrowing);
      hide Inv, Added, AddedThread;
      ghost var t := threads[td].(cpu := c);
      ghost var q := Added(tdqs[c], td, t, preempted, borrowing);
      ghost var tdqs', threads' := tdqs[..][c := q.(load := q.load + 1)],
        threads[td := AddedThread(tdqs[c], t, !preempted && !borrowing)];
      AddIgnoresCpu(tdqs[c], td, threads[td], c, preempted, borrowing);
      threads := threads[td := threads[td].(cpu := c)];
      RunqAdd(c, td, preempted, borrowing);
      AddedLoad(old(tdqs[c]), td, old(threads[td]), preempted, borrowing);
      tdqs[c] := tdqs[c].(load := tdqs[c].load + 1);
      assert tdqs[..] == tdqs' && threads == threads';
    }

    /** sched_rem (sched_ule.c:2666-2684) */
    method Rem(td: Tid)
      requires Valid() && td in threads && threads[td].state == Queued
      modifies `threads, tdqs
      ensures Valid()
      ensures threads == old(threads)[td := old(threads[td]).(state := Off, xferable := false)]
      ensures old(threads[td].cpu) < tdqs.Length && old(threads[td].slot) < RQ_NQS
      ensures var c := old(threads[td].cpu);
              tdqs[..] == old(tdqs[..])[c := Removed(old(tdqs[..])[c], td, old(threads[td])).(load := old(tdqs[..])[c].load - 1)]
    {
      RemKeeps(tdqs[..], threads, td, Off);
      hide Inv, Removed;
      var c := threads[td].cpu;
      ghost var q := Removed(tdqs[..][c], td, threads[td]);
      ghost var tdqs', threads' := tdqs[..][c := q.(load := q.load - 1)],
        threads[td := threads[td].(state := Off, xferable := false)];
      RunqRem(c, td);
      RemovedLoad(old(tdqs[c]), td, old(threads[td]));
      tdqs[c] := tdqs[c].(load := tdqs[c].load - 1);
      threads := threads[td := threads[td].(state := Off)];
      assert tdqs[..] == tdqs' && threads == threads';
    }

    /** sched_choose has picked a queued thread to run (sched_ule.c:2550-2553). */
    method Run(td: Tid)
      requires Valid() && td in threads && threads[td].state == Queued
      requires forall x | x in threads && threads[x].state == Running :: threads[x].cpu != threads[td].cpu
      modifies `threads, tdqs
      ensures Valid()
      ensures threads == old(threads)[td := old(threads[td]).(state := Running, xferable := false)]
      ensures old(threads[td].cpu) < tdqs.Length && old(threads[td].slot) < RQ_NQS
      ensures var c := old(threads[td].cpu);
              tdqs[..] == old(tdqs[..])[c := Removed(old(tdqs[..])[c], td, old(threads[td]))]
    {
      RemKeeps(tdqs[..], threads, td, Running);
      hide Inv, Removed;
      var c := threads[td].cpu;
      ghost var q := Removed(tdqs[..][c], td, threads[td]);
      ghost var tdqs', threads' := tdqs[..][c := q.(load := q.load - 0)],
        threads[td := threads[td].(state := Running, xferable := false)];
      RunqRem(c, td);
      RemovedLoad(old(tdqs[c]), td, old(threads[td]));
      threads := threads[td := threads[td].(state := Running)];
      assert tdqs[..] == tdqs' && threads == threads';
    }

    /** sched_switch puts the running thread back (sched_ule.c:2110-2116). */
    method Requeue(td: Tid, preempted: bool)
      requires Valid() && td in threads && threads[td].state == Running
      modifies `threads, tdqs
      ensures Valid()
      ensures old(threads[td].cpu) < tdqs.Length && old(threads[td].priority) < 256
      ensures var c := old(threads[td].cpu);
              && old(tdqs[..])[c].ridx < RQ_NQS
              && threads == old(threads)[td := AddedThread(old(tdqs[..])[c], old(threads[td]), !preempted)]
              && tdqs[..] == old(tdqs[..])[c := Added(old(tdqs[..])[c], td, old(threads[td]), preempted, false)]
    {
      assert ThreadOk(threads[td], tdqs.Length);
      var c := threads[td].cpu;
      AddKeeps(tdqs[..], threads, c, td, preempted, false);
      AddedLoad(tdqs[c], td, threads[td], preempted, false);
      hide Inv, Added;
      RunqAdd(c, td, preempted, false);
      assert old(threads[td]).(cpu := c) == old(threads[td]);
    }

    /** The running thread blocks: tdq_load_rem (sched_ule.c:2126). */
    method Block(td: Tid)
      requires Valid() && td in threads && threads[td].state == Running
      modifies `threads, tdqs
      ensures Valid()
      ensures threads == old(threads)[td := old(threads[td]).(state := Off)]
      ensures old(threads[td].cpu) < tdqs.Length
      ensures var c := old(threads[td].cpu);
              tdqs[..] == old(tdqs[..])[c := old(tdqs[..])[c].(load := old(tdqs[..])[c].load - 1)]
    {
      BlockKeeps(tdqs[..], threads, td);
      hide Inv;
      var c := threads[td].cpu;
      tdqs[c] := tdqs[c].(load := tdqs[c].load - 1);
      threads := threads[td := threads[td].(state := Off)];
      assert tdqs[..] == old(tdqs[..])[c := old(tdqs[c]).(load := old(tdqs[c].load) - 1)];
    }

    /** The index step of sched_clock (sched_ule.c:2474-2482). */
    method Tick(c: nat)
      requires Valid() && c < tdqs.Length
      modifies tdqs
      ensures Valid() && Indices(old(tdqs[c].idx), old(tdqs[c].ridx))
      ensures tdqs[..] == old(tdqs[..])[c := Ticked(old(tdqs[c]))]
    {
      TickKeeps(tdqs[..], threads, c);
      hide Inv;
      var q := tdqs[c];
      if q.idx == q.ridx {
        q := q.(idx := (q.idx + 1) % RQ_NQS);
        if q.timeshare[q.ridx] == [] {
          q := q.(ridx := q.idx);
        }
        if q.lottery[q.ridx] == [] {
          q := q.(ridx := q.idx);
        }
      }
      tdqs[c] := q;
    }
  }

  lemma AddIgnoresCpu(q: Tdq, td: Tid, t: Thread, c: nat, preempted: bool, borrowing: bool)
    requires t.priority < 256 && q.ridx < RQ_NQS
    ensures Added(q, td, t.(cpu := c), preempted, borrowing) == Added(q, td, t, preempted, borrowing)
  {
  }

  lemma AddedLoad(q: Tdq, td: Tid, t: Thread, preempted: bool, borrowing: bool)
    requires t.priority < 256 && q.ridx < RQ_NQS
    ensures Added(q, td, t, preempted, borrowing).load == q.load
  {
  }

  lemma RemovedLoad(q: Tdq, td: Tid, t: Thread)
    requires t.slot < RQ_NQS
    ensures Removed(q, td, t).load == q.load
  {
  }
}
