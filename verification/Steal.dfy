/**
  Taking a thread from the run queues of another CPU (asgn2/sched_ule.c:1142-1234).

  `ok` stands for the threads that are not pinned and may run on the thief.
 */
module Steal {
  import opened Wrappers
  import opened RunQueue

  // ---- specification -------------------------------------------------------------

  /** The threads of queues lo up to hi, in order. */
  function Flat(qs: Queues, lo: nat, hi: nat): seq<Tid>
    requires lo <= hi <= RQ_NQS
    decreases hi - lo
  {
    if lo == hi then [] else Flat(qs, lo, hi - 1) + qs[hi - 1]
  }

  /** One queue is scanned from its head to its tail, and lower queues before higher ones. */
  lemma FlatOne(qs: Queues, p: nat)
    requires p < RQ_NQS
    ensures Flat(qs, p, p + 1) == qs[p]
  {
    assert Flat(qs, p, p) == [];
  }

  lemma {:induction false} FlatSplit(qs: Queues, lo: nat, mid: nat, hi: nat)
    requires lo <= mid <= hi <= RQ_NQS
    ensures Flat(qs, lo, hi) == Flat(qs, lo, mid) + Flat(qs, mid, hi)
    decreases hi - mid
  {
    if mid < hi {
      FlatSplit(qs, lo, mid, hi - 1);
    }
  }

  /** The order of the scan: from queue `start` to the end, then everything from the beginning. */
  function ScanOrder(qs: Queues, start: nat): seq<Tid>
    requires start < RQ_NQS
  {
    Flat(qs, start, RQ_NQS) + if start != 0 then Flat(qs, 0, RQ_NQS) else []
  }

  function FirstOf(s: seq<Tid>, ok: set<Tid>): Option<Tid> {
    if s == [] then None else if s[0] in ok then Some(s[0]) else FirstOf(s[1..], ok)
  }

  /** The first eligible thread after the head of the scan; failing that, the last one of the scan. */
  function Pick(s: seq<Tid>, ok: set<Tid>): Option<Tid> {
    if s == [] then None
    else if FirstOf(s[1..], ok).Some? then FirstOf(s[1..], ok)
    else if s[|s| - 1] in ok then Some(s[|s| - 1]) else None
  }

  lemma {:induction false} FirstOfSound(s: seq<Tid>, ok: set<Tid>)
    ensures FirstOf(s, ok).Some? ==> FirstOf(s, ok).value in s && FirstOf(s, ok).value in ok
    ensures FirstOf(s, ok) == None <==> forall td | td in s :: td !in ok
  {
    if s != [] {
      assert s == [s[0]] + s[1..];
      FirstOfSound(s[1..], ok);
    }
  }

  lemma {:induction false} FirstOfAt(s: seq<Tid>, ok: set<Tid>, i: nat)
    requires i < |s| && s[i] in ok && forall k | 0 <= k < i :: s[k] !in ok
    ensures FirstOf(s, ok) == Some(s[i])
  {
    if i > 0 {
      FirstOfAt(s[1..], ok, i - 1);
    }
  }

  /** What is stolen was queued and is eligible; nothing is stolen exactly if all but the head of the scan are not. */
  lemma PickSound(s: seq<Tid>, ok: set<Tid>)
    ensures Pick(s, ok).Some? ==> Pick(s, ok).value in s && Pick(s, ok).value in ok
    ensures Pick(s, ok) == None <==>
      (forall k | 1 <= k < |s| :: s[k] !in ok) && (|s| == 1 ==> s[0] !in ok)
  {
    if s != [] {
      FirstOfSound(s[1..], ok);
      assert forall td :: td in s[1..] ==> td in s;
      assert forall k | 1 <= k < |s| :: s[k] == s[1..][k - 1];
    }
  }

  lemma {:induction false} FirstOfIsFirst(s: seq<Tid>, ok: set<Tid>)
    requires FirstOf(s, ok).Some?
    ensures exists i :: 0 <= i < |s| && s[i] == FirstOf(s, ok).value && forall j | 0 <= j < i :: s[j] !in ok
  {
    if s[0] !in ok {
      FirstOfIsFirst(s[1..], ok);
      var i :| 0 <= i < |s[1..]| && s[1..][i] == FirstOf(s, ok).value && forall j | 0 <= j < i :: s[1..][j] !in ok;
      forall j | 0 <= j < i + 1
        ensures s[j] !in ok
      {
        assert j > 0 ==> s[1..][j - 1] !in ok;
      }
      assert s[i + 1] == FirstOf(s, ok).value;
    } else {
      assert s[0] == FirstOf(s, ok).value;
    }
  }

  /** What is picked is the first eligible thread after the head of the scan, or a lone head. */
  lemma PickIsFirst(s: seq<Tid>, ok: set<Tid>)
    requires Pick(s, ok).Some?
    ensures exists i :: (0 < i || |s| == 1) && i < |s| && i >= 0 && s[i] == Pick(s, ok).value && forall j | 0 < j < i :: s[j] !in ok
  {
    var t := s[1..];
    assert |s| > 1 ==> s[|s| - 1] == t[|s| - 2];
    if FirstOf(t, ok).Some? {
      FirstOfIsFirst(t, ok);
      var i :| 0 <= i < |t| && t[i] == FirstOf(t, ok).value && forall j | 0 <= j < i :: t[j] !in ok;
      forall j | 0 < j < i + 1
        ensures s[j] !in ok
      {
        assert t[j - 1] !in ok;
      }
      assert s[i + 1] == Pick(s, ok).value;
    } else {
      FirstOfSound(t, ok);
    }
  }

  lemma {:induction false} FlatMember(qs: Queues, lo: nat, hi: nat, td: Tid)
    requires lo <= hi <= RQ_NQS
    ensures td in Flat(qs, lo, hi) <==> exists p :: lo <= p < hi && td in qs[p]
    decreases hi - lo
  {
    if lo < hi {
      FlatMember(qs, lo, hi - 1, td);
    }
  }

  /** Starting in the middle, with a thread at or after the start, no eligible thread is missed. */
  lemma StealComplete(qs: Queues, start: nat, ok: set<Tid>, p: nat, td: Tid)
    requires 0 < start <= p < RQ_NQS && td in qs[p]
    ensures Pick(ScanOrder(qs, start), ok) == None <==>
      forall q, x | 0 <= q < RQ_NQS && x in qs[q] :: x !in ok
  {
    var s, a, b := ScanOrder(qs, start), Flat(qs, start, RQ_NQS), Flat(qs, 0, RQ_NQS);
    assert s == a + b;
    hide Pick, Flat, ScanOrder;
    FlatMember(qs, start, RQ_NQS, td);
    if Pick(s, ok) == None {
      PickTwice(a, b, ok);
      forall q, x | 0 <= q < RQ_NQS && x in qs[q]
        ensures x !in ok
      {
        FlatMember(qs, 0, RQ_NQS, x);
      }
    } else {
      PickSound(s, ok);
      var x := Pick(s, ok).value;
      FlatMember(qs, start, RQ_NQS, x);
      FlatMember(qs, 0, RQ_NQS, x);
    }
  }

  lemma PickTwice(a: seq<Tid>, b: seq<Tid>, ok: set<Tid>)
    requires a != [] && Pick(a + b, ok) == None
    ensures forall x | x in b :: x !in ok
  {
    PickSound(a + b, ok);
    hide Pick;
    forall x | x in b
      ensures x !in ok
    {
      var k :| 0 <= k < |b| && b[k] == x;
      assert (a + b)[|a| + k] == x;
    }
  }

  /** Nothing is picked although there is something to pick exactly if the head of several is the only eligible one. */
  lemma PickMisses(s: seq<Tid>, ok: set<Tid>)
    ensures Pick(s, ok) == None && (exists k | 0 <= k < |s| :: s[k] in ok) <==>
      |s| > 1 && s[0] in ok && forall k | 1 <= k < |s| :: s[k] !in ok
  {
    PickSound(s, ok);
    hide Pick;
  }

  ghost predicate Available(qs: Queues, ok: set<Tid>) {
    exists q, x :: 0 <= q < RQ_NQS && x in qs[q] && x in ok
  }

  lemma AvailableInScan(qs: Queues, ok: set<Tid>)
    ensures var s := Flat(qs, 0, RQ_NQS);
      Available(qs, ok) <==> exists k | 0 <= k < |s| :: s[k] in ok
  {
    var s := Flat(qs, 0, RQ_NQS);
    if Available(qs, ok) {
      var q, x :| 0 <= q < RQ_NQS && x in qs[q] && x in ok;
      FlatMember(qs, 0, RQ_NQS, x);
      assert x in s;
    } else {
      forall k | 0 <= k < |s|
        ensures s[k] !in ok
      {
        FlatMember(qs, 0, RQ_NQS, s[k]);
      }
    }
  }

  /** The scan has no queue before the start to come back to, or finds nothing before it comes back. */
  ghost predicate NoneAhead(qs: Queues, start: nat) {
    start == 0 || forall p | start <= p < RQ_NQS :: qs[p] == []
  }

  lemma WholeScan(qs: Queues, start: nat)
    requires start < RQ_NQS && NoneAhead(qs, start)
    ensures ScanOrder(qs, start) == Flat(qs, 0, RQ_NQS)
  {
    hide Flat;
    if start != 0 {
      NothingFrom(qs, start);
    }
  }

  lemma NothingFrom(qs: Queues, start: nat)
    requires start < RQ_NQS && forall p | start <= p < RQ_NQS :: qs[p] == []
    ensures Flat(qs, start, RQ_NQS) == []
  {
    FlatEmpty(qs, start, start, RQ_NQS);
  }

  lemma NoneMissed(qs: Queues, start: nat, ok: set<Tid>)
    requires start < RQ_NQS && !NoneAhead(qs, start)
    ensures Pick(ScanOrder(qs, start), ok) == None ==> !Available(qs, ok)
  {
    hide Pick, ScanOrder;
    var p :| start <= p < RQ_NQS && qs[p] != [];
    StealComplete(qs, start, ok, p, qs[p][0]);
  }

  /**
    An eligible thread is missed exactly if nothing is queued at or after a start
    other than 0, several threads are queued, and of these only the first is eligible.
   */
  lemma FirstIsMissed(qs: Queues, start: nat, ok: set<Tid>)
    requires start < RQ_NQS
    ensures var s := Flat(qs, 0, RQ_NQS);
      Pick(ScanOrder(qs, start), ok) == None && Available(qs, ok) <==>
        NoneAhead(qs, start) && |s| > 1 && s[0] in ok && forall k | 1 <= k < |s| :: s[k] !in ok
  {
    hide Pick, ScanOrder, Flat, NoneAhead, Available;
    if NoneAhead(qs, start) {
      WholeScan(qs, start);
      PickMisses(Flat(qs, 0, RQ_NQS), ok);
      AvailableInScan(qs, ok);
    } else {
      NoneMissed(qs, start, ok);
    }
  }

  /** For example, with two threads in the last queue. */
  lemma MissedThread() returns (qs: Queues)
    ensures Pick(ScanOrder(qs, 0), {0}) == None && Available(qs, {0})
  {
    hide Pick, ScanOrder, Available;
    qs := seq(RQ_NQS, p => if p == RQ_NQS - 1 then [0, 1] else []);
    FlatEmpty(qs, 0, 0, RQ_NQS - 1);
    assert Flat(qs, 0, RQ_NQS) == [0, 1];
    FirstIsMissed(qs, 0, {0});
  }

  // ---- facts about the scan -----------------------------------------------------------

  ghost predicate Passed(seen: seq<Tid>, ok: set<Tid>) {
    forall k | 1 <= k < |seen| :: seen[k] !in ok
  }

  function LastOf(seen: seq<Tid>): Option<Tid> {
    if seen == [] then None else Some(seen[|seen| - 1])
  }

  ghost predicate HitAt(p: seq<Tid>, ok: set<Tid>, td: Tid) {
    |p| >= 2 && Passed(p[..|p| - 1], ok) && p[|p| - 1] == td && td in ok
  }

  lemma HitDecides(s: seq<Tid>, p: seq<Tid>, ok: set<Tid>, td: Tid)
    requires HitAt(p, ok, td) && p <= s
    ensures Pick(s, ok) == Some(td)
  {
    var n := |p| - 1;
    assert s[1..][n - 1] == s[n] == p[n] == td;
    forall k | 0 <= k < n - 1
      ensures s[1..][k] !in ok
    {
      assert p[..n][k + 1] == p[k + 1] == s[k + 1];
    }
    FirstOfAt(s[1..], ok, n - 1);
  }

  lemma PassedDecides(s: seq<Tid>, ok: set<Tid>)
    requires Passed(s, ok)
    ensures Pick(s, ok) == if s != [] && s[|s| - 1] in ok then Some(s[|s| - 1]) else None
  {
    if s != [] {
      FirstOfSound(s[1..], ok);
      assert forall td | td in s[1..] :: exists k :: 1 <= k < |s| && s[k] == td;
    }
  }

  lemma {:induction false} FlatEmpty(qs: Queues, lo: nat, a: nat, b: nat)
    requires lo <= a <= b <= RQ_NQS
    requires forall p | a <= p < b :: qs[p] == []
    ensures Flat(qs, lo, a) == Flat(qs, lo, b)
    decreases b - a
  {
    if a < b {
      FlatEmpty(qs, lo, a, b - 1);
    }
  }

  lemma {:induction false} FlatPrefix(qs: Queues, lo: nat, a: nat, b: nat)
    requires lo <= a <= b <= RQ_NQS
    ensures Flat(qs, lo, a) <= Flat(qs, lo, b)
    decreases b - a
  {
    if a < b {
      FlatPrefix(qs, lo, a, b - 1);
    }
  }

  // ---- the scans -----------------------------------------------------------------------

  /** One queue of the scan of runq_steal_from (sched_ule.c:1169-1174). */
  method StealQueue(q: seq<Tid>, ok: set<Tid>, first: Option<Tid>, ghost seen: seq<Tid>)
    returns (hit: Option<Tid>, first': Option<Tid>, ghost p: seq<Tid>)
    requires first == LastOf(seen) && Passed(seen, ok)
    ensures p <= seen + q
    ensures hit.Some? ==> HitAt(p, ok, hit.value)
    ensures hit.None? ==> p == seen + q && first' == LastOf(p) && Passed(p, ok)
  {
    first', hit, p := first, None, seen;
    var j := 0;
    while j < |q|
      invariant 0 <= j <= |q| && p == seen + q[..j] && first' == LastOf(p) && Passed(p, ok)
    {
      var td := q[j];
      p := p + [td];
      if first'.Some? && td in ok {
        hit := Some(td);
        assert p[..|p| - 1] == seen + q[..j];
        assert p == seen + q[..j + 1];
        return;
      }
      first' := Some(td);
      j := j + 1;
    }
  }

  /** How far the scan has come: all queues from `from` up to `pos`, after those of the first pass. */
  ghost predicate Reached(qs: Queues, start: nat, from: nat, pos: int, ok: set<Tid>, first: Option<Tid>) {
    && start < RQ_NQS && (from == start || from == 0) && from <= pos <= RQ_NQS
    && first == LastOf(Seen(qs, start, from, pos)) && Passed(Seen(qs, start, from, pos), ok)
  }

  ghost function Seen(qs: Queues, start: nat, from: nat, pos: nat): seq<Tid>
    requires start < RQ_NQS && from <= pos <= RQ_NQS
  {
    (if from != start then Flat(qs, start, RQ_NQS) else []) + Flat(qs, from, pos)
  }

  lemma SeenPrefix(qs: Queues, start: nat, from: nat, pos: nat)
    requires start < RQ_NQS && (from == start || from == 0) && from <= pos <= RQ_NQS
    ensures Seen(qs, start, from, pos) <= ScanOrder(qs, start)
  {
    hide Flat;
    FlatPrefix(qs, from, pos, RQ_NQS);
    var a, b := Flat(qs, start, RQ_NQS), Flat(qs, 0, RQ_NQS);
    if from != start {
      LongerPrefix(a, Flat(qs, from, pos), b);
    } else {
      assert Seen(qs, start, from, pos) == Flat(qs, from, pos);
      PrefixAlso(Flat(qs, from, pos), a, if start != 0 then b else []);
    }
  }

  lemma LongerPrefix(a: seq<Tid>, p: seq<Tid>, b: seq<Tid>)
    requires p <= b
    ensures a + p <= a + b
  {
    assert b == p + b[|p|..];
    assert a + b == (a + p) + b[|p|..];
  }

  lemma PrefixAlso(p: seq<Tid>, a: seq<Tid>, b: seq<Tid>)
    requires p <= a
    ensures p <= a + b
  {
    assert a == p + a[|p|..];
    assert a + b == p + (a[|p|..] + b);
  }

  lemma WholeSeen(qs: Queues, start: nat)
    requires start < RQ_NQS
    ensures Seen(qs, start, 0, RQ_NQS) == ScanOrder(qs, start)
  {
    hide Flat;
  }

  lemma SkipEmpty(qs: Queues, start: nat, from: nat, pos: nat, to: nat, ok: set<Tid>, first: Option<Tid>)
    requires Reached(qs, start, from, pos, ok, first) && pos <= to <= RQ_NQS
    requires forall p | pos <= p < to :: qs[p] == []
    ensures Reached(qs, start, from, to, ok, first)
  {
    FlatEmpty(qs, from, pos, to);
  }

  /** A queue and its status bit. */
  lemma BitMeans(rq: Runq, i: nat, bit: nat)
    requires rq.Valid() && i < rq.bits.Length && bit < rq.bpw
    ensures i * rq.bpw + bit < RQ_NQS
    ensures bit in rq.bits[i] <==> rq.queues[i * rq.bpw + bit] != []
  {
    BitAt(rq.bpw, i, bit);
    assert i * rq.bpw + bit == bit + i * (if rq.bpw == 64 then 64 else 32) by {
      if i == 0 { } else { assert i == 1; }
    }
    assert rq.BitOk(bit + i * (if rq.bpw == 64 then 64 else 32));
  }

  /** The bits of one word from `bit` up to `end` are clear: so are their queues. */
  lemma ClearBits(rq: Runq, i: nat, bit: nat, end: nat)
    requires rq.Valid() && i < rq.bits.Length && bit <= end <= rq.bpw
    requires forall b | bit <= b < end :: b !in rq.bits[i]
    ensures i * rq.bpw + end <= RQ_NQS
    ensures forall p | i * rq.bpw + bit <= p < i * rq.bpw + end :: rq.queues[p] == []
  {
    assert i == 0 || i == 1;
    forall p | i * rq.bpw + bit <= p < i * rq.bpw + end
      ensures 0 <= p < RQ_NQS && rq.queues[p] == []
    {
      BitMeans(rq, i, p - i * rq.bpw);
    }
  }

  /** The bits of word i from `bit0` on (sched_ule.c:1159-1177). */
  method StealWord(rq: Runq, i: nat, bit0: nat, ok: set<Tid>, first: Option<Tid>, ghost start: nat, ghost from: nat)
    returns (hit: Option<Tid>, first': Option<Tid>)
    requires rq.Valid() && i < rq.bits.Length && bit0 < rq.bpw
    requires Reached(rq.Contents(), start, from, i * rq.bpw + bit0, ok, first)
    ensures hit.Some? ==> hit == Pick(ScanOrder(rq.Contents(), start), ok)
    ensures hit.None? ==> Reached(rq.Contents(), start, from, i * rq.bpw + rq.bpw, ok, first')
  {
    hide Reached, Pick, Flat, ScanOrder;
    first', hit := first, None;
    ghost var qs := rq.Contents();
    if rq.bits[i] == {} {
      ClearBits(rq, i, bit0, rq.bpw);
      SkipEmpty(qs, start, from, i * rq.bpw + bit0, i * rq.bpw + rq.bpw, ok, first');
      return;
    }
    var bit := bit0;
    if bit == 0 {
      bit := Ffs(rq.bits[i]);
      ClearBits(rq, i, 0, bit);
      SkipEmpty(qs, start, from, i * rq.bpw, i * rq.bpw + bit, ok, first');
    }
    while bit < rq.bpw
      invariant bit0 <= bit <= rq.bpw && hit.None?
      invariant Reached(qs, start, from, i * rq.bpw + bit, ok, first')
    {
      BitMeans(rq, i, bit);
      ghost var pos := i * rq.bpw + bit;
      if bit !in rq.bits[i] {
        SkipEmpty(qs, start, from, pos, pos + 1, ok, first');
      } else {
        ghost var seen := ReachedSeen(qs, start, from, pos, ok, first');
        ghost var p;
        hit, first', p := StealQueue(rq.queues[i * rq.bpw + bit], ok, first', seen);
        NextSeen(qs, start, from, pos, ok, p, seen);
        if hit.Some? {
          HitDecides(ScanOrder(qs, start), p, ok, hit.value);
          return;
        }
        ReachedNext(qs, start, from, pos, ok, first', p);
      }
      bit := bit + 1;
    }
  }

  lemma ReachedSeen(qs: Queues, start: nat, from: nat, pos: nat, ok: set<Tid>, first: Option<Tid>) returns (seen: seq<Tid>)
    requires Reached(qs, start, from, pos, ok, first)
    ensures start < RQ_NQS && (from == start || from == 0) && from <= pos <= RQ_NQS
    ensures seen == Seen(qs, start, from, pos) && first == LastOf(seen) && Passed(seen, ok)
  {
    seen := Seen(qs, start, from, pos);
  }

  lemma NextSeen(qs: Queues, start: nat, from: nat, pos: nat, ok: set<Tid>, p: seq<Tid>, seen: seq<Tid>)
    requires start < RQ_NQS && (from == start || from == 0) && from <= pos < RQ_NQS
    requires seen == Seen(qs, start, from, pos) && p <= seen + qs[pos]
    ensures seen + qs[pos] == Seen(qs, start, from, pos + 1) && p <= ScanOrder(qs, start)
  {
    SeenPrefix(qs, start, from, pos + 1);
    SeenNext(qs, start, from, pos);
    hide Seen, ScanOrder;
  }

  lemma SeenNext(qs: Queues, start: nat, from: nat, pos: nat)
    requires start < RQ_NQS && from <= pos < RQ_NQS
    ensures Seen(qs, start, from, pos) + qs[pos] == Seen(qs, start, from, pos + 1)
  {
  }

  lemma ReachedNext(qs: Queues, start: nat, from: nat, pos: nat, ok: set<Tid>, first: Option<Tid>, p: seq<Tid>)
    requires start < RQ_NQS && (from == start || from == 0) && from <= pos < RQ_NQS
    requires p == Seen(qs, start, from, pos + 1) && first == LastOf(p) && Passed(p, ok)
    ensures Reached(qs, start, from, pos + 1, ok, first)
  {
  }

  lemma SecondPass(qs: Queues, start: nat, ok: set<Tid>, first: Option<Tid>)
    requires start != 0 && Reached(qs, start, start, RQ_NQS, ok, first)
    ensures Reached(qs, start, 0, 0, ok, first)
  {
    assert Seen(qs, start, 0, 0) == Seen(qs, start, start, RQ_NQS);
  }

  /** At the end, only the last thread of the scan is left to try. */
  lemma ScanDone(qs: Queues, start: nat, ok: set<Tid>, first: Option<Tid>)
    requires Reached(qs, start, 0, RQ_NQS, ok, first)
    ensures Pick(ScanOrder(qs, start), ok) == if first.Some? && first.value in ok then first else None
  {
    hide Flat, Pick, ScanOrder, Seen;
    WholeSeen(qs, start);
    PassedDecides(Seen(qs, start, 0, RQ_NQS), ok);
  }

  /** runq_steal_from (sched_ule.c:1146-1185) */
  method RunqStealFrom(rq: Runq, ok: set<Tid>, start: nat) returns (r: Option<Tid>)
    requires rq.Valid() && start < RQ_NQS
    ensures r == Pick(ScanOrder(rq.Contents(), start), ok)
  {
    hide Pick, Flat, ScanOrder;
    var from := start;
    var bit := BitOf(rq.bpw, start);
    var first: Option<Tid> := None;
    ghost var qs := rq.Contents();
    StartReached(qs, start, ok);
    WordAt(rq.bpw, start);
    while true
      invariant from == start || from == 0
      invariant bit == BitOf(rq.bpw, from)
      invariant Reached(qs, start, from, from, ok, first)
      decreases from
    {
      hide Reached;
      var i := WordOf(rq.bpw, from);
      WordAt(rq.bpw, from);
      while i < rq.bits.Length
        invariant WordOf(rq.bpw, from) <= i <= rq.bits.Length && bit < rq.bpw
        invariant i > WordOf(rq.bpw, from) ==> bit == 0
        invariant i < rq.bits.Length ==> Reached(qs, start, from, i * rq.bpw + bit, ok, first)
        invariant i == rq.bits.Length ==> bit == 0 && Reached(qs, start, from, RQ_NQS, ok, first)
      {
        var hit;
        hit, first := StealWord(rq, i, bit, ok, first, start, from);
        if hit.Some? {
          return hit;
        }
        bit := 0;
        i := i + 1;
      }
      if from == 0 {
        ScanDone(qs, start, ok, first);
        return if first.Some? && first.value in ok then first else None;
      }
      SecondPass(qs, start, ok, first);
      from := 0;
    }
  }

  lemma StartReached(qs: Queues, start: nat, ok: set<Tid>)
    requires start < RQ_NQS
    ensures Reached(qs, start, start, start, ok, None)
  {
  }

  lemma WordAt(bpw: nat, p: nat)
    requires (bpw == 64 || bpw == 32) && p < RQ_NQS
    ensures WordOf(bpw, p) * bpw + BitOf(bpw, p) == p && BitOf(bpw, p) < bpw
    ensures WordOf(bpw, p) < (if bpw == 64 then 1 else 2)
    ensures WordOf(bpw, 0) == 0 && BitOf(bpw, 0) == 0
  {
  }

  /** One queue of the scan of runq_steal (sched_ule.c:1206-1210). */
  method StealFirst(q: seq<Tid>, ok: set<Tid>) returns (r: Option<Tid>)
    ensures r == FirstOf(q, ok)
  {
    var j := 0;
    while j < |q|
      invariant 0 <= j <= |q| && forall k | 0 <= k < j :: q[k] !in ok
    {
      if q[j] in ok {
        FirstOfAt(q, ok, j);
        return Some(q[j]);
      }
      j := j + 1;
    }
    FirstOfSound(q, ok);
    r := None;
  }

  lemma {:induction false} FirstOfConcat(s: seq<Tid>, t: seq<Tid>, ok: set<Tid>)
    ensures FirstOf(s + t, ok) == if FirstOf(s, ok).Some? then FirstOf(s, ok) else FirstOf(t, ok)
  {
    if s == [] {
      assert s + t == t;
    } else {
      assert (s + t)[1..] == s[1..] + t;
      FirstOfConcat(s[1..], t, ok);
    }
  }

  lemma FirstOfPrefix(qs: Queues, pos: nat, ok: set<Tid>)
    requires pos <= RQ_NQS && FirstOf(Flat(qs, 0, pos), ok).Some?
    ensures FirstOf(Flat(qs, 0, RQ_NQS), ok) == FirstOf(Flat(qs, 0, pos), ok)
  {
    hide Flat, FirstOf;
    FlatPrefix(qs, 0, pos, RQ_NQS);
    var s, t := Flat(qs, 0, pos), Flat(qs, 0, RQ_NQS);
    FirstOfConcat(s, t[|s|..], ok);
    assert t == s + t[|s|..];
  }

  ghost predicate NoneUpTo(qs: Queues, pos: int, ok: set<Tid>) {
    0 <= pos <= RQ_NQS && FirstOf(Flat(qs, 0, pos), ok) == None
  }

  lemma NoneSkip(qs: Queues, pos: nat, to: nat, ok: set<Tid>)
    requires NoneUpTo(qs, pos, ok) && pos <= to <= RQ_NQS
    requires forall p | pos <= p < to :: qs[p] == []
    ensures NoneUpTo(qs, to, ok)
  {
    FlatEmpty(qs, 0, pos, to);
  }

  lemma NoneNext(qs: Queues, pos: nat, ok: set<Tid>)
    requires NoneUpTo(qs, pos, ok) && pos < RQ_NQS
    ensures FirstOf(qs[pos], ok).Some? ==> FirstOf(Flat(qs, 0, RQ_NQS), ok) == FirstOf(qs[pos], ok)
    ensures FirstOf(qs[pos], ok).None? ==> NoneUpTo(qs, pos + 1, ok)
  {
    FirstOfConcat(Flat(qs, 0, pos), qs[pos], ok);
    assert FirstOf(Flat(qs, 0, pos + 1), ok) == FirstOf(qs[pos], ok);
    if FirstOf(qs[pos], ok).Some? {
      FirstOfPrefix(qs, pos + 1, ok);
    }
  }

  method StealFirstInWord(rq: Runq, word: nat, ok: set<Tid>) returns (r: Option<Tid>)
    requires rq.Valid() && word < rq.bits.Length
    requires NoneUpTo(rq.Contents(), word * rq.bpw, ok)
    ensures r.Some? ==> r == FirstOf(Flat(rq.Contents(), 0, RQ_NQS), ok)
    ensures r.None? ==> NoneUpTo(rq.Contents(), word * rq.bpw + rq.bpw, ok)
  {
    hide FirstOf, NoneUpTo, Flat;
    ghost var qs := rq.Contents();
    if rq.bits[word] == {} {
      ClearBits(rq, word, 0, rq.bpw);
      NoneSkip(qs, word * rq.bpw, word * rq.bpw + rq.bpw, ok);
      return None;
    }
    var bit := 0;
    while bit < rq.bpw
      invariant 0 <= bit <= rq.bpw && NoneUpTo(qs, word * rq.bpw + bit, ok)
    {
      BitMeans(rq, word, bit);
      if bit in rq.bits[word] {
        NoneNext(qs, word * rq.bpw + bit, ok);
        r := StealFirst(rq.queues[word * rq.bpw + bit], ok);
        if r.Some? {
          return;
        }
      } else {
        NoneSkip(qs, word * rq.bpw + bit, word * rq.bpw + bit + 1, ok);
      }
      bit := bit + 1;
    }
    r := None;
  }

  /** runq_steal (sched_ule.c:1190-1214): the first eligible thread in priority order. */
  method RunqSteal(rq: Runq, ok: set<Tid>) returns (r: Option<Tid>)
    requires rq.Valid()
    ensures r == FirstOf(Flat(rq.Contents(), 0, RQ_NQS), ok)
  {
    var word := 0;
    while word < rq.bits.Length
      invariant 0 <= word <= rq.bits.Length && NoneUpTo(rq.Contents(), word * rq.bpw, ok)
    {
      hide FirstOf, NoneUpTo, Flat;
      r := StealFirstInWord(rq, word, ok);
      if r.Some? {
        return;
      }
      assert word * rq.bpw + rq.bpw == (word + 1) * rq.bpw;
      word := word + 1;
    }
    assert word * rq.bpw == RQ_NQS;
    r := None;
  }
}
