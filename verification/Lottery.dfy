/**
  The lottery queue of timeshare threads (asgn2/kern_switch.c:273-286 and
  545-580, asgn2/sched_ule.c:482-509): a thread is drawn with as many of the
  numbers 1..num_tickets as it has tickets.

  random() is a parameter of the draw.  Taking the remainder by a ticket count of
  zero stops the machine; the model calls that a fault.
 */
module Lottery {
  import P = Priority

  /** td_tickets is set from the nice value when the thread is queued. */
  datatype Thread = Thread(id: nat, nice: int, tickets: nat)

  /** How a draw ends: nobody is queued, a thread wins, or the division by the number of tickets faults. */
  datatype Draw = Nobody | Winner(td: Thread) | Fault

  /** 20 + SCHED_PRI_NICE(nice): none at all for the most favoured nice value. */
  ghost predicate Ticketed(t: Thread) {
    P.PRIO_MIN <= t.nice <= P.PRIO_MAX && t.tickets == 20 + t.nice
  }

  // ---- specification -----------------------------------------------------------------

  function Sum(q: seq<Thread>): nat {
    if q == [] then 0 else Sum(q[..|q| - 1]) + q[|q| - 1].tickets
  }

  /** The position of the thread that wins draw `d`: the first whose tickets bring the count to `d`. */
  ghost predicate Wins(q: seq<Thread>, d: int, i: int) {
    0 <= i < |q| && Sum(q[..i]) < d <= Sum(q[..i + 1])
  }

  lemma {:induction false} SumMonotone(q: seq<Thread>, i: nat, j: nat)
    requires i <= j <= |q|
    ensures Sum(q[..i]) <= Sum(q[..j])
  {
    if i < j {
      SumMonotone(q, i, j - 1);
      assert q[..j][..j - 1] == q[..j - 1];
    }
  }

  lemma SumNext(q: seq<Thread>, i: nat)
    requires i < |q|
    ensures Sum(q[..i + 1]) == Sum(q[..i]) + q[i].tickets
  {
    assert q[..i + 1][..i] == q[..i];
  }

  /** Every draw from 1 to the number of tickets has exactly one winner. */
  lemma {:induction false} WinnerExists(q: seq<Thread>, d: int)
    requires 1 <= d <= Sum(q)
    ensures exists i :: Wins(q, d, i)
  {
    var n := |q| - 1;
    assert q[..|q|] == q;
    if d > Sum(q[..n]) {
      assert Wins(q, d, n);
    } else {
      WinnerExists(q[..n], d);
      var i :| Wins(q[..n], d, i);
      assert q[..n][..i] == q[..i] && q[..n][..i + 1] == q[..i + 1];
      assert Wins(q, d, i);
    }
  }

  lemma WinnerUnique(q: seq<Thread>, d: int, i: int, j: int)
    requires Wins(q, d, i) && Wins(q, d, j)
    ensures i == j
  {
    if i < j {
      SumMonotone(q, i + 1, j);
    } else if j < i {
      SumMonotone(q, j + 1, i);
    }
  }

  /** The numbers above `lo` and up to `hi`. */
  function Interval(lo: int, hi: int): (r: set<int>)
    requires lo <= hi
    ensures forall d :: d in r <==> lo < d <= hi
    ensures |r| == hi - lo
    decreases hi - lo
  {
    if lo == hi then {} else Interval(lo, hi - 1) + {hi}
  }

  /** The draws that a thread wins. */
  ghost function WinningDraws(q: seq<Thread>, i: int): set<int> {
    set d | d in Interval(0, Sum(q)) && Wins(q, d, i)
  }

  /** A thread wins exactly as many of the possible draws as it has tickets. */
  lemma DrawsAreTickets(q: seq<Thread>, i: nat)
    requires i < |q|
    ensures |WinningDraws(q, i)| == q[i].tickets
  {
    SumNext(q, i);
    SumMonotone(q, i + 1, |q|);
    assert q[..|q|] == q;
    assert WinningDraws(q, i) == Interval(Sum(q[..i]), Sum(q[..i + 1]));
  }

  lemma {:induction false} SumRemoved(q: seq<Thread>, i: nat)
    requires i < |q|
    ensures Sum(q[..i] + q[i + 1..]) == Sum(q) - q[i].tickets
  {
    var n := |q| - 1;
    if i < n {
      SumRemoved(q[..n], i);
      var r := q[..i] + q[i + 1..];
      assert r[..n - 1] == q[..n][..i] + q[..n][i + 1..];
      assert r[n - 1] == q[n];
    } else {
      assert q[..i] + q[i + 1..] == q[..n];
    }
  }

  lemma {:induction false} SumConcat(p: seq<Thread>, q: seq<Thread>)
    ensures Sum(p + q) == Sum(p) + Sum(q)
  {
    if q == [] {
      assert p + q == p;
    } else {
      assert (p + q)[..|p + q| - 1] == p + q[..|q| - 1];
      SumConcat(p, q[..|q| - 1]);
    }
  }

  lemma {:induction false} NoTickets(q: seq<Thread>)
    ensures Sum(q) == 0 <==> forall t | t in q :: t.tickets == 0
  {
    if q != [] {
      var n := |q| - 1;
      NoTickets(q[..n]);
      assert q == q[..n] + [q[n]];
    }
  }

  /** A queue has no ticket to draw exactly if every thread on it has the most favoured nice value. */
  lemma NothingToDraw(q: seq<Thread>)
    requires forall t | t in q :: Ticketed(t)
    ensures Sum(q) == 0 <==> forall t | t in q :: t.nice == P.PRIO_MIN
  {
    NoTickets(q);
    assert forall t | t in q :: Ticketed(t);
  }

  // ---- the queue -----------------------------------------------------------------------

  class LotteryQueue {
    var queue: seq<Thread>
    var numTickets: int
    var totalProc: int

    ghost predicate Distinct()
      reads this
    {
      forall i, j | 0 <= i < j < |queue| :: queue[i].id != queue[j].id
    }

    /** Threads have the tickets of their nice value; the counters are the number of threads and of tickets. */
    ghost predicate Valid()
      reads this
    {
      Distinct() && AllTicketed() && numTickets == Sum(queue) && totalProc == |queue|
    }

    ghost predicate AllTicketed()
      reads this
    {
      forall t | t in queue :: Ticketed(t)
    }

    /** `td` has been chosen, so the counters no longer include it, but it is still queued. */
    ghost predicate Chosen(td: Thread)
      reads this
    {
      Distinct() && AllTicketed() && td in queue && numTickets == Sum(queue) - td.tickets && totalProc == |queue| - 1
    }

    /** lotteryq_init (kern_switch.c:273-286) */
    constructor ()
      ensures Valid() && queue == []
    {
      queue, numTickets, totalProc := [], 0, 0;
    }

    /** The lottery branch of tdq_runq_add (sched_ule.c:494-509). */
    method Add(id: nat, nice: int, preempted: bool)
      requires Valid() && P.PRIO_MIN <= nice <= P.PRIO_MAX && forall t | t in queue :: t.id != id
      modifies this
      ensures Valid()
      ensures queue == if preempted then [Thread(id, nice, 20 + nice)] + old(queue)
                       else old(queue) + [Thread(id, nice, 20 + nice)]
    {
      var td := Thread(id, nice, 20 + nice);
      SumConcat([td], queue);
      SumConcat(queue, [td]);
      assert Sum([td]) == td.tickets;
      if preempted {
        queue := [td] + queue;
      } else {
        queue := queue + [td];
      }
      totalProc := totalProc + 1;
      numTickets := numTickets + td.tickets;
    }

    /**
      lotteryq_choose and rng (kern_switch.c:545-580).  The draw is defined exactly
      if some queued thread has a nice value above the most favoured one.
     */
    method Choose(random: nat) returns (r: Draw)
      requires Valid()
      modifies `numTickets, `totalProc
      ensures r == Nobody <==> queue == []
      ensures r == Fault <==> queue != [] && forall t | t in queue :: t.nice == P.PRIO_MIN
      ensures !r.Winner? ==> Valid()
      ensures r.Winner? ==> Chosen(r.td) && old(numTickets) > 0 && exists i ::
        Wins(queue, random % old(numTickets) + 1, i) && r.td == queue[i]
    {
      NothingToDraw(queue);
      if totalProc == 0 {
        return Nobody;
      }
      if numTickets == 0 {
        assert queue[0] in queue;
        return Fault;
      }
      var winner := random % numTickets + 1;
      var counter, i := 0, 0;
      assert queue[..|queue|] == queue;
      while i < |queue|
        invariant 0 <= i <= |queue| && counter == Sum(queue[..i]) && counter < winner
        invariant Valid() && numTickets == old(numTickets)
      {
        var td := queue[i];
        SumNext(queue, i);
        counter := counter + td.tickets;
        if counter >= winner {
          totalProc := totalProc - 1;
          numTickets := numTickets - td.tickets;
          assert Wins(queue, winner, i);
          return Winner(td);
        }
        i := i + 1;
      }
      assert false;
    }

    /** runq_remove of the thread that was chosen: the counters are right again. */
    method Remove(td: Thread)
      requires Chosen(td)
      modifies `queue
      ensures Valid()
      ensures exists i :: 0 <= i < |old(queue)| && old(queue)[i] == td && queue == old(queue)[..i] + old(queue)[i + 1..]
    {
      var i := 0;
      while queue[i] != td
        invariant 0 <= i < |queue| && td in queue[i..]
        decreases |queue| - i
      {
        i := i + 1;
      }
      SumRemoved(queue, i);
      queue := queue[..i] + queue[i + 1..];
    }
  }
}
