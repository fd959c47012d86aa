/**
  The scheduler's fixed-point bookkeeping (asgn2/sched_ule.c:110-170,
  1574-1690 and 1763-1783): recorded cpu ticks, interactivity history and the
  priorities computed from them.

  Tick counters do not wrap around in this model.  The bounds of the timeshare
  class and of nice values come from headers that are not part of the
  repository; the constants below are those of FreeBSD 11.2.
 */
module Priority {
  import opened Arith

  const PRI_MIN_TIMESHARE := 120
  const PRI_MAX_TIMESHARE := 223
  const PRIO_MIN := -20
  const PRIO_MAX := 20

  const SCHED_PRI_NRESV := PRIO_MAX - PRIO_MIN
  const PRI_TIMESHARE_RANGE := PRI_MAX_TIMESHARE - PRI_MIN_TIMESHARE + 1
  const PRI_INTERACT_RANGE := (PRI_TIMESHARE_RANGE - SCHED_PRI_NRESV) / 2
  const PRI_BATCH_RANGE := PRI_TIMESHARE_RANGE - PRI_INTERACT_RANGE
  const PRI_MIN_INTERACT := PRI_MIN_TIMESHARE
  const PRI_MAX_INTERACT := PRI_MIN_TIMESHARE + PRI_INTERACT_RANGE - 1
  const PRI_MIN_BATCH := PRI_MIN_TIMESHARE + PRI_INTERACT_RANGE
  const PRI_MAX_BATCH := PRI_MAX_TIMESHARE
  const SCHED_PRI_NHALF := SCHED_PRI_NRESV / 2
  const SCHED_PRI_MIN := PRI_MIN_BATCH + SCHED_PRI_NHALF
  const SCHED_PRI_MAX := PRI_MAX_BATCH - SCHED_PRI_NHALF
  const SCHED_PRI_RANGE := SCHED_PRI_MAX - SCHED_PRI_MIN + 1

  const TICK_SCALE := 1024  // 1 << SCHED_TICK_SHIFT
  const SCHED_INTERACT_HALF: nat := 50

  function TickTarg(hz: nat): nat { hz * 10 }

  function TickMax(hz: nat): nat { TickTarg(hz) + hz }

  // ---- what the history promises ---------------------------------------------------

  /**
    The recorded ticks never exceed the window they were recorded in, and the
    window is no longer than SCHED_TICK_MAX.
   */
  predicate HistoryOk(ticks: int, ftick: int, ltick: int, hz: nat) {
    && hz > 0 && ftick <= ltick
    && 0 <= ticks <= (ltick - ftick) * TICK_SCALE
    && ltick - ftick < TickMax(hz)
  }

  lemma QuotientAtMost(a: nat, d: nat, k: int)
    requires d > 0 && a < (k + 1) * d
    ensures 0 <= a / d <= k
  {
    var q := a / d;
    assert a == q * d + a % d;
    if q > k {
      MulLe(k + 1, q, d);
    }
  }

  /** Rescaling to what is left of the window keeps the bound. */
  lemma ScaledHistory(ticks: nat, window: nat, rest: nat)
    requires window > 0 && ticks <= window * TICK_SCALE
    ensures 0 <= (ticks / window) * rest <= rest * TICK_SCALE
  {
    assert (TICK_SCALE + 1) * window == window * TICK_SCALE + window;
    QuotientAtMost(ticks, window, TICK_SCALE);
    MulLe(0, ticks / window, rest);
    MulLe(ticks / window, TICK_SCALE, rest);
  }

  datatype History = History(ticks: int, ftick: int, ltick: int)

  /** The history after an update at time `now`: restarted, rescaled to the target window, or kept. */
  function Updated(h: History, hz: nat, now: int, run: bool): History
    requires HistoryOk(h.ticks, h.ftick, h.ltick, hz) && h.ltick <= now
  {
    var ran := if run then (now - h.ltick) * TICK_SCALE else 0;
    var start := now - TickTarg(hz);
    if now - h.ltick >= TickTarg(hz) then History(ran, start, now)
    else if now - h.ftick >= TickMax(hz) then
      History(h.ticks / (h.ltick - h.ftick) * (h.ltick - start) + ran, start, now)
    else History(h.ticks + ran, h.ftick, now)
  }

  /**
    The rescaling never divides by an empty window, and an update keeps the bounds
    exactly if a running thread was last updated no more than SCHED_TICK_TARG ago.
   */
  lemma UpdateSound(h: History, hz: nat, now: int, run: bool)
    requires HistoryOk(h.ticks, h.ftick, h.ltick, hz) && h.ltick <= now
    ensures now - h.ltick < TickTarg(hz) && now - h.ftick >= TickMax(hz) ==> h.ltick > h.ftick
    ensures var h' := Updated(h, hz, now, run);
            HistoryOk(h'.ticks, h'.ftick, h'.ltick, hz) <==> (run ==> now - h.ltick <= TickTarg(hz))
  {
    if now - h.ltick < TickTarg(hz) && now - h.ftick >= TickMax(hz) {
      ScaledHistory(h.ticks, h.ltick - h.ftick, h.ltick - (now - TickTarg(hz)));
    }
  }

  /**
    What an update records.  A run since the last update counts in full, 1024 for each
    tick.  Of what was recorded before, nothing is lost while the window is not too long;
    a window that is too long is cut back to SCHED_TICK_TARG, keeping the average per
    tick, rounded down; and nothing is left that lies outside the target window.
   */
  lemma UpdateRecords(h: History, hz: nat, now: int)
    requires HistoryOk(h.ticks, h.ftick, h.ltick, hz) && h.ltick <= now
    ensures var idle, ran := Updated(h, hz, now, false), Updated(h, hz, now, true);
      && ran == idle.(ticks := idle.ticks + 1024 * (now - h.ltick))
      && idle.ltick == now
      && (now - h.ltick >= 10 * hz ==> idle.ticks == 0 && idle.ftick == now - 10 * hz)
      && (now - h.ltick < 10 * hz && now - h.ftick >= 11 * hz ==>
            idle.ftick == now - 10 * hz && h.ltick > h.ftick
            && idle.ticks == h.ticks / (h.ltick - h.ftick) * (h.ltick - idle.ftick))
      && (now - h.ftick < 11 * hz && now - h.ltick < 10 * hz ==> idle.ticks == h.ticks && idle.ftick == h.ftick)
  {
    UpdateSound(h, hz, now, false);
  }

  /** SCHED_PRI_TICKS (sched_ule.c:158-160). */
  function PriTicks(ticks: int, ftick: int, ltick: int, hz: nat): int
    requires HistoryOk(ticks, ftick, ltick, hz)
  {
    var total := Max(ltick - ftick, hz);
    var rounded := (total + (SCHED_PRI_RANGE - 1)) / SCHED_PRI_RANGE * SCHED_PRI_RANGE;
    assert rounded >= SCHED_PRI_RANGE;
    assert rounded / SCHED_PRI_RANGE >= 1;
    (ticks / TICK_SCALE) / (rounded / SCHED_PRI_RANGE)
  }

  /** A thread that ran all the time lands within the range even before the clamp, one below its end at most. */
  lemma PriTicksBound(ticks: int, ftick: int, ltick: int, hz: nat)
    requires HistoryOk(ticks, ftick, ltick, hz)
    ensures 0 <= PriTicks(ticks, ftick, ltick, hz) <= SCHED_PRI_RANGE
  {
    var total := Max(ltick - ftick, hz);
    var d := (total + (SCHED_PRI_RANGE - 1)) / SCHED_PRI_RANGE;
    assert d >= 1 && d * SCHED_PRI_RANGE >= total >= ticks / TICK_SCALE;
    assert d * SCHED_PRI_RANGE / SCHED_PRI_RANGE == d;
    hide HistoryOk;
    assert (SCHED_PRI_RANGE + 1) * d == d * SCHED_PRI_RANGE + d;
    QuotientAtMost(ticks / TICK_SCALE, d, SCHED_PRI_RANGE);
  }

  /**
    The window, or a second if it is shorter, is divided into 32 equal slices, rounded
    up; the offset is the number of whole slices that the thread ran for.
   */
  lemma PriTicksCountsSlices(ticks: int, ftick: int, ltick: int, hz: nat)
    requires HistoryOk(ticks, ftick, ltick, hz)
    ensures exists d :: Slices(ticks, ftick, ltick, hz, PriTicks(ticks, ftick, ltick, hz), d)
  {
    var total := Max(ltick - ftick, hz);
    var d := (total + (SCHED_PRI_RANGE - 1)) / SCHED_PRI_RANGE;
    assert d >= 1 && d * SCHED_PRI_RANGE / SCHED_PRI_RANGE == d;
    var ran := ticks / TICK_SCALE;
    assert ran == ran / d * d + ran % d;
    assert (ran / d + 1) * d == ran / d * d + d;
    assert Slices(ticks, ftick, ltick, hz, PriTicks(ticks, ftick, ltick, hz), d);
  }

  /** d is the length of a slice, and `count` of them fit into the recorded ticks. */
  ghost predicate Slices(ticks: int, ftick: int, ltick: int, hz: nat, count: int, d: int) {
    32 * (d - 1) < Max(ltick - ftick, hz) <= 32 * d && count * d <= ticks / 1024 < (count + 1) * d
  }

  // ---- interactivity score (sched_ule.c:1574-1605) -----------------------------------

  function InteractScore(runtime: nat, slptime: nat, schedInteract: int): int {
    if schedInteract <= SCHED_INTERACT_HALF && runtime >= slptime then SCHED_INTERACT_HALF
    else if runtime > slptime then
      var div := Max(1, runtime / SCHED_INTERACT_HALF);
      SCHED_INTERACT_HALF + (SCHED_INTERACT_HALF - slptime / div)
    else if slptime > runtime then
      var div := Max(1, slptime / SCHED_INTERACT_HALF);
      runtime / div
    else if runtime != 0 then SCHED_INTERACT_HALF
    else 0
  }

  /** Dividing the smaller time by a fiftieth of the larger: less than 100, and at most 50 once that is exact enough. */
  lemma RatioBound(small: nat, large: nat)
    requires small < large
    ensures var div := Max(1, large / SCHED_INTERACT_HALF);
            0 <= small / div <= 98 && (large >= 49 * 50 ==> small / div <= 50)
  {
    var div := Max(1, large / SCHED_INTERACT_HALF);
    assert large <= 50 * div + 49;
    QuotientAtMost(small, div, 98);
    if large >= 49 * 50 {
      QuotientAtMost(small, div, 50);
    }
  }

  /**
    What the score is, unless it is not computed because the threshold is low: the
    number of fiftieths of the larger time (rounded down) in the smaller one, counted
    from 0 up for a thread that mostly sleeps and from 100 down for one that mostly runs.
   */
  lemma ScoreCountsFiftieths(runtime: nat, slptime: nat, schedInteract: int)
    ensures var s := InteractScore(runtime, slptime, schedInteract);
      && (schedInteract <= 50 && runtime >= slptime ==> s == 50)
      && (slptime > runtime ==> var d := Max(1, slptime / 50); s * d <= runtime < (s + 1) * d)
      && (runtime > slptime && schedInteract > 50 ==>
            var d := Max(1, runtime / 50); (100 - s) * d <= slptime < (101 - s) * d)
      && (runtime == slptime && schedInteract > 50 ==> s == if runtime > 0 then 50 else 0)
  {
    if slptime > runtime {
      Quotient(runtime, Max(1, slptime / 50));
    } else if runtime > slptime {
      Quotient(slptime, Max(1, runtime / 50));
    }
  }

  lemma Quotient(a: nat, d: nat)
    requires d > 0
    ensures a / d * d <= a < (a / d + 1) * d
  {
    assert a == a / d * d + a % d;
    assert (a / d + 1) * d == a / d * d + d;
  }

  /** The documented range, for all times and tunings. */
  lemma ScoreInRange(runtime: nat, slptime: nat, schedInteract: int)
    ensures 0 <= InteractScore(runtime, slptime, schedInteract) <= 100
  {
    if runtime > slptime {
      RatioBound(slptime, runtime);
    } else if slptime > runtime {
      RatioBound(runtime, slptime);
    }
  }

  lemma QuotientUpTo(a: nat, d: nat, k: nat)
    requires d > 0
    ensures a / d <= k <==> a < (k + 1) * d
  {
    if a < (k + 1) * d {
      QuotientAtMost(a, d, k);
    } else {
      var q := a / d;
      assert a == q * d + a % d;
      if q <= k {
        MulLe(q + 1, k + 1, d);
        assert false;
      }
    }
  }

  /**
    The documented meaning is "below 50 when sleep dominates, above when running
    does".  The code keeps to it exactly if the smaller time is below 51 fiftieths
    of the larger, the fiftieth being rounded down; for run times it also does
    when the threshold is at most 50 and the score is not computed at all.
   */
  lemma ScoreSeparates(runtime: nat, slptime: nat, schedInteract: int)
    ensures runtime > slptime ==>
      (InteractScore(runtime, slptime, schedInteract) >= 50 <==>
       schedInteract <= 50 || slptime < 51 * Max(1, runtime / 50))
    ensures slptime > runtime ==>
      (InteractScore(runtime, slptime, schedInteract) <= 50 <==> runtime < 51 * Max(1, slptime / 50))
  {
    if runtime > slptime {
      QuotientUpTo(slptime, Max(1, runtime / SCHED_INTERACT_HALF), 50);
    } else if slptime > runtime {
      QuotientUpTo(runtime, Max(1, slptime / SCHED_INTERACT_HALF), 50);
    }
  }

  /** So it does whenever the times differ by 50 or more, or the larger is 2450 or more. */
  lemma FarApartSeparates(small: nat, large: nat)
    requires small + 50 <= large || (small < large && large >= 49 * 50)
    ensures small < 51 * Max(1, large / 50)
  {
    assert large < 50 * (large / 50) + 50;
  }

  // ---- how the two times come about (sched_ule.c:1531-1538, 1666-1703, 2264-2265, 2290-2291, 2492-2493) ----

  /** tickincr: hz ticks per stathz tick, times 1024. */
  function TickIncr(hz: nat, realstathz: nat): nat
    requires realstathz > 0
  {
    Max(1, hz * TICK_SCALE / realstathz)
  }

  /** SCHED_SLP_RUN_MAX */
  function SlpRunMax(hz: nat): nat { hz * 5 * TICK_SCALE }

  datatype Times = Times(runtime: nat, slptime: nat)

  /** sched_interact_update */
  function Limited(t: Times, hz: nat): Times {
    var limit, sum := SlpRunMax(hz), t.runtime + t.slptime;
    if sum < limit then t
    else if sum > limit * 2 then if t.runtime > t.slptime then Times(limit, 1) else Times(1, limit)
    else if sum > limit / 5 * 6 then Times(t.runtime / 2, t.slptime / 2)
    else Times(t.runtime / 5 * 4, t.slptime / 5 * 4)
  }

  /** The times end up at most one above the limit, and which of the two dominates does not change. */
  lemma LimitedOk(t: Times, hz: nat)
    requires hz > 0
    ensures Limited(t, hz).runtime + Limited(t, hz).slptime <= SlpRunMax(hz) + 1
    ensures t.slptime >= t.runtime ==> Limited(t, hz).slptime >= Limited(t, hz).runtime
    ensures t.runtime > t.slptime ==> Limited(t, hz).runtime >= Limited(t, hz).slptime
  {
  }

  /**
    What is kept of the two times: everything below the limit; at least four fifths, up
    to rounding, while the sum is at most a fifth above it; at least half of it up to
    twice the limit; and beyond that only which of the two is greater.
   */
  lemma LimitedKeeps(t: Times, hz: nat)
    requires hz > 0
    ensures var t', limit, sum := Limited(t, hz), 5120 * hz, t.runtime + t.slptime;
      && (sum < limit ==> t' == t)
      && (limit <= sum <= 6144 * hz ==> KeepsShare(t.runtime, t'.runtime, 4, 5) && KeepsShare(t.slptime, t'.slptime, 4, 5))
      && (6144 * hz < sum <= 2 * limit ==> KeepsShare(t.runtime, t'.runtime, 1, 2) && KeepsShare(t.slptime, t'.slptime, 1, 2))
      && (sum > 2 * limit ==> t' == if t.runtime > t.slptime then Times(limit, 1) else Times(1, limit))
  {
  }

  /** y is x * n / d, up to rounding down before the multiplication. */
  predicate KeepsShare(x: nat, y: nat, n: nat, d: nat) {
    n * (x - d) < d * y <= n * x
  }

  datatype Event = Sleep(ticks: nat) | Clock

  /** A thread wakes up after sleeping, or is charged a statistics tick. */
  function Next(t: Times, e: Event, hz: nat, realstathz: nat): Times
    requires realstathz > 0
  {
    match e
    case Sleep(n) => Limited(t.(slptime := t.slptime + n * TICK_SCALE), hz)
    case Clock => Limited(t.(runtime := t.runtime + TickIncr(hz, realstathz)), hz)
  }

  /** The times of a new thread after some events. */
  function TimesAfter(events: seq<Event>, hz: nat, realstathz: nat): Times
    requires realstathz > 0
  {
    if events == [] then Times(0, 0)
    else Next(TimesAfter(events[..|events| - 1], hz, realstathz), events[|events| - 1], hz, realstathz)
  }

  /** A sequence of events brings a new thread to the given times. */
  ghost predicate Reaches(events: seq<Event>, hz: nat, realstathz: nat, t: Times) {
    realstathz > 0 && TimesAfter(events, hz, realstathz) == t
  }

  lemma ReachesNext(events: seq<Event>, hz: nat, realstathz: nat, t: Times, e: Event) returns (events': seq<Event>, t': Times)
    requires Reaches(events, hz, realstathz, t)
    ensures t' == Next(t, e, hz, realstathz) && Reaches(events', hz, realstathz, t')
  {
    events', t' := events + [e], Next(t, e, hz, realstathz);
    assert events'[..|events|] == events;
  }

  /**
    The two clock rates and the threshold are parameters.  If a statistics tick counts
    for at least 2450, as with the value of tickincr before the clocks are set up (8 << 10)
    and with 1000 ticks to its 127 statistics ticks, every thread that has been charged
    at all has a time large enough for the score to separate.
   */
  lemma {:induction false} LongTicks(events: seq<Event>, hz: nat, realstathz: nat)
    requires realstathz > 0 && TickIncr(hz, realstathz) >= 49 * 50
    ensures LargeEnough(TimesAfter(events, hz, realstathz))
  {
    if events != [] {
      LongTicks(events[..|events| - 1], hz, realstathz);
      LongTickRates(hz, realstathz);
      var t := TimesAfter(events[..|events| - 1], hz, realstathz);
      match events[|events| - 1]
      case Sleep(n) => StaysLarge(t.(slptime := t.slptime + n * TICK_SCALE), hz);
      case Clock => StaysLarge(t.(runtime := t.runtime + TickIncr(hz, realstathz)), hz);
    }
  }

  predicate LargeEnough(t: Times) { t.runtime == 0 || Max(t.runtime, t.slptime) >= 49 * 50 }

  lemma LongTickRates(hz: nat, realstathz: nat)
    requires realstathz > 0 && TickIncr(hz, realstathz) >= 49 * 50
    ensures hz >= 3
  {
    var a := hz * TICK_SCALE;
    assert a == a / realstathz * realstathz + a % realstathz;
    MulLe(1, realstathz, a / realstathz);
    assert a / realstathz * realstathz >= a / realstathz;
  }

  lemma StaysLarge(t: Times, hz: nat)
    requires hz >= 3 && LargeEnough(t)
    ensures LargeEnough(Limited(t, hz))
  {
  }

  /** So at such rates the score of a thread that has slept and been charged ticks always says which it mostly did. */
  lemma LongTicksSeparate(events: seq<Event>, hz: nat, realstathz: nat, schedInteract: int)
    requires realstathz > 0 && TickIncr(hz, realstathz) >= 49 * 50
    ensures var t := TimesAfter(events, hz, realstathz);
      && (t.runtime > t.slptime ==> InteractScore(t.runtime, t.slptime, schedInteract) >= 50)
      && (t.slptime > t.runtime ==> InteractScore(t.runtime, t.slptime, schedInteract) <= 50)
  {
    LongTicks(events, hz, realstathz);
    var t := TimesAfter(events, hz, realstathz);
    hide InteractScore;
    ScoreSeparates(t.runtime, t.slptime, schedInteract);
    if t.runtime > t.slptime {
      FarApartSeparates(t.slptime, t.runtime);
    } else if t.slptime > t.runtime > 0 {
      FarApartSeparates(t.runtime, t.slptime);
    }
  }

  /**
    At other rates it need not.  With 128 ticks to 127 statistics ticks, a thread that
    has been charged one and slept one has run longer, but scores 49, if the threshold
    (kern.sched.interact) is raised above 50 ...
   */
  lemma RunnerTakenForSleeper() returns (events: seq<Event>, t: Times)
    ensures Reaches(events, 128, 127, t) && t.runtime > t.slptime && InteractScore(t.runtime, t.slptime, 51) == 49
  {
    events, t := [], Times(0, 0);
    events, t := ReachesNext(events, 128, 127, t, Sleep(1));
    events, t := ReachesNext(events, 128, 127, t, Clock);
  }

  /**
    ... and, with the threshold as it comes, at 100 ticks to 250, one that has slept two
    ticks and been charged five has slept longer, but scores 51.
   */
  lemma SleeperTakenForRunner() returns (events: seq<Event>, t: Times)
    ensures Reaches(events, 100, 250, t) && t.slptime > t.runtime && InteractScore(t.runtime, t.slptime, 30) == 51
  {
    events, t := [], Times(0, 0);
    events, t := ReachesNext(events, 100, 250, t, Sleep(2));
    var n := 0;
    while n < 5
      invariant 0 <= n <= 5 && Reaches(events, 100, 250, t) && t == Times(n * 409, 2048)
    {
      events, t := ReachesNext(events, 100, 250, t, Clock);
      n := n + 1;
    }
  }

  // ---- priority (sched_ule.c:1614-1659) ------------------------------------------------

  /** What the computed priority depends on. */
  datatype Usage = Usage(ticks: int, ftick: int, ltick: int, hz: nat, runtime: nat, slptime: nat)

  ghost predicate UsageOk(u: Usage) { HistoryOk(u.ticks, u.ftick, u.ltick, u.hz) }

  function Score(u: Usage, nice: int, schedInteract: int): int {
    Max(0, InteractScore(u.runtime, u.slptime, schedInteract) + nice)
  }

  ghost function PriorityOf(u: Usage, nice: int, schedInteract: int): int
    requires UsageOk(u)
  {
    var score := Score(u, nice, schedInteract);
    if score < schedInteract then
      PRI_MIN_INTERACT + PRI_INTERACT_RANGE / schedInteract * score
    else
      SCHED_PRI_MIN + nice
      + (if u.ticks == 0 then 0 else Min(PriTicks(u.ticks, u.ftick, u.ltick, u.hz), SCHED_PRI_RANGE - 1))
  }

  lemma InteractiveStep(schedInteract: int, score: nat)
    requires score < schedInteract
    ensures 0 <= PRI_INTERACT_RANGE / schedInteract * score < PRI_INTERACT_RANGE
  {
    var step := PRI_INTERACT_RANGE / schedInteract;
    assert step * schedInteract <= PRI_INTERACT_RANGE;
    assert step * (schedInteract - score) == step * schedInteract - step * score;
    if step > 0 {
      assert step * (schedInteract - score) >= 1;
    }
  }

  /** Both asserted ranges, for every nice value and every setting of the sched_interact tunable. */
  lemma PriorityInRange(u: Usage, nice: int, schedInteract: int)
    requires UsageOk(u) && PRIO_MIN <= nice <= PRIO_MAX
    ensures if Score(u, nice, schedInteract) < schedInteract
            then PRI_MIN_INTERACT <= PriorityOf(u, nice, schedInteract) <= PRI_MAX_INTERACT
            else PRI_MIN_BATCH <= PriorityOf(u, nice, schedInteract) <= PRI_MAX_BATCH
  {
    if Score(u, nice, schedInteract) < schedInteract {
      InteractiveStep(schedInteract, Score(u, nice, schedInteract));
    } else {
      PriTicksBound(u.ticks, u.ftick, u.ltick, u.hz);
    }
  }

  /**
    A batch thread's priority is its nice value plus the number of slices, at most 31, of
    the recorded window that it ran for.
   */
  lemma BatchPriority(u: Usage, nice: int, schedInteract: int)
    requires UsageOk(u) && Score(u, nice, schedInteract) >= schedInteract
    ensures exists d, n ::
      Slices(u.ticks, u.ftick, u.ltick, u.hz, n, d) && PriorityOf(u, nice, schedInteract) == SCHED_PRI_MIN + nice + Min(n, 31)
  {
    PriTicksCountsSlices(u.ticks, u.ftick, u.ltick, u.hz);
    var n := PriTicks(u.ticks, u.ftick, u.ltick, u.hz);
    var d :| Slices(u.ticks, u.ftick, u.ltick, u.hz, n, d);
    if u.ticks == 0 {
      assert n * d <= 0 < (n + 1) * d;
      assert d >= 1;
      if n >= 1 {
        MulAtLeast(n, d);
      } else if n <= -1 {
        MulLe(n + 1, 0, d);
      }
      assert n == 0;
    }
  }

  /** An interactive thread's priority starts at the best and worsens by the same step for every point of its score. */
  lemma InteractivePriority(u: Usage, nice: int, schedInteract: int)
    requires UsageOk(u) && Score(u, nice, schedInteract) < schedInteract
    ensures var s := InteractScore(u.runtime, u.slptime, schedInteract) + nice;
      PriorityOf(u, nice, schedInteract) == PRI_MIN_INTERACT + (32 / schedInteract) * if s < 0 then 0 else s
  {
  }

  /** A larger nice value never gives a better (smaller) priority, also across the two classes. */
  lemma PriorityMonotone(u: Usage, nice: int, nice': int, schedInteract: int)
    requires UsageOk(u) && PRIO_MIN <= nice <= nice' <= PRIO_MAX
    ensures PriorityOf(u, nice, schedInteract) <= PriorityOf(u, nice', schedInteract)
  {
    PriorityInRange(u, nice, schedInteract);
    PriorityInRange(u, nice', schedInteract);
    var score, score' := Score(u, nice, schedInteract), Score(u, nice', schedInteract);
    if score' < schedInteract {
      var step := PRI_INTERACT_RANGE / schedInteract;
      assert step >= 0;
      MulLe(score, score', step);
    }
  }

  // ---- the thread -----------------------------------------------------------------------

  class Thread {
    const hz: nat
    var ticks: int      // ts_ticks
    var ltick: int      // ts_ltick
    var ftick: int      // ts_ftick
    var runtime: nat    // ts_runtime
    var slptime: nat    // ts_slptime
    var nice: int
    var userPri: int

    ghost predicate Valid()
      reads this
    {
      HistoryOk(ticks, ftick, ltick, hz) && PRIO_MIN <= nice <= PRIO_MAX
    }

    /** schedinit's start of a thread's history (sched_ule.c:1735-1744). */
    constructor (hz: nat, now: int, nice: int)
      requires hz > 0 && PRIO_MIN <= nice <= PRIO_MAX
      ensures Valid() && ltick == now && this.nice == nice
    {
      this.hz, this.nice := hz, nice;
      ticks, ltick, ftick := 0, now, now;
      runtime, slptime, userPri := 0, 0, PRI_MIN_INTERACT;
    }

    /**
      sched_pctcpu_update (sched_ule.c:1763-1783).  The history stays sound over
      any sequence of calls, exactly if a running thread is updated at least every
      SCHED_TICK_TARG ticks; one that has not run may be updated at any time.
     */
    method PctcpuUpdate(now: int, run: bool)
      requires Valid() && ltick <= now
      modifies `ticks, `ftick, `ltick
      ensures History(ticks, ftick, ltick) == Updated(old(History(ticks, ftick, ltick)), hz, now, run)
      ensures Valid() <==> (run ==> now - old(ltick) <= TickTarg(hz))
    {
      UpdateSound(History(ticks, ftick, ltick), hz, now, run);
      var targ := TickTarg(hz);
      if now - ltick >= targ {
        ticks := 0;
        ftick := now - targ;
      } else if now - ftick >= TickMax(hz) {
        ticks := (ticks / (ltick - ftick)) * (ltick - (now - targ));
        ftick := now - targ;
      }
      if run {
        ticks := ticks + (now - ltick) * TICK_SCALE;
      }
      ltick := now;
    }

    ghost function CurrentUsage(): Usage
      reads this
    {
      Usage(ticks, ftick, ltick, hz, runtime, slptime)
    }

    /** sched_priority (sched_ule.c:1614-1659). */
    method ComputePriority(schedInteract: int)
      requires Valid()
      modifies `userPri
      ensures Valid()
      ensures userPri == PriorityOf(CurrentUsage(), nice, schedInteract)
    {
      var score := Max(0, InteractScore(runtime, slptime, schedInteract) + nice);
      var pri;
      if score < schedInteract {
        pri := PRI_MIN_INTERACT;
        pri := pri + (PRI_MAX_INTERACT - PRI_MIN_INTERACT + 1) / schedInteract * score;
      } else {
        pri := SCHED_PRI_MIN;
        if ticks != 0 {
          pri := pri + Min(PriTicks(ticks, ftick, ltick, hz), SCHED_PRI_RANGE - 1);
        }
        pri := pri + nice;
      }
      userPri := pri;
    }

    /** sched_interact_update (sched_ule.c:1667-1701). */
    method InteractUpdate()
      modifies `runtime, `slptime
      ensures Times(runtime, slptime) == Limited(Times(old(runtime), old(slptime)), hz)
    {
      var limit := SlpRunMax(hz);
      var sum := runtime + slptime;
      if sum < limit {
        return;
      }
      if sum > limit * 2 {
        if runtime > slptime {
          runtime, slptime := limit, 1;
        } else {
          slptime, runtime := limit, 1;
        }
        return;
      }
      if sum > limit / 5 * 6 {
        runtime := runtime / 2;
        slptime := slptime / 2;
        return;
      }
      runtime := runtime / 5 * 4;
      slptime := slptime / 5 * 4;
    }
  }
}
