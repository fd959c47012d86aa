/**
  Run queues: 64 FIFO queues and a status word with one bit for each of them
  (asgn2/kern_switch.c:263-416, 441-457, 504-543 and 593-613).

  The status is kept in words of 64 or 32 bits, depending on the machine; a word
  is modelled as the set of positions of its one bits, so that `&`, `| bit`,
  `& ~bit` and RQB_FFS are intersection, insertion, removal and minimum.
 */
module RunQueue {
  import opened Arith
  import opened Lists

  const RQ_NQS := 64
  const RQ_PPQ := 4

  type Tid = nat

  /** RQB_WORD and the position of RQB_BIT within the word. */
  function WordOf(bpw: nat, pri: nat): nat { if bpw == 64 then pri / 64 else pri / 32 }

  function BitOf(bpw: nat, pri: nat): nat { if bpw == 64 then pri % 64 else pri % 32 }

  lemma BitDistinct(bpw: nat, p: nat, q: nat)
    requires (bpw == 64 || bpw == 32) && p < RQ_NQS && q < RQ_NQS
    ensures p == q <==> WordOf(bpw, p) == WordOf(bpw, q) && BitOf(bpw, p) == BitOf(bpw, q)
  {
  }

  ghost predicate IsLeast(w: set<nat>, m: nat) {
    m in w && forall x | x in w :: m <= x
  }

  lemma {:induction false} MinExists(w: set<nat>) returns (m: nat)
    requires w != {}
    ensures IsLeast(w, m)
  {
    m :| m in w;
    var rest := w - {m};
    if rest != {} {
      var n := MinExists(rest);
      assert forall x | x in w :: x == m || x in rest;
      if n < m {
        m := n;
      }
    } else {
      assert w == {m};
    }
  }

  /** Within one word, a later queue has a higher bit. */
  lemma BitOrder(bpw: nat, p: nat, q: nat)
    requires (bpw == 64 || bpw == 32) && p <= q < RQ_NQS
    ensures WordOf(bpw, p) <= WordOf(bpw, q)
    ensures WordOf(bpw, p) == WordOf(bpw, q) ==> q - p == BitOf(bpw, q) - BitOf(bpw, p)
    ensures BitOf(bpw, q) < (if bpw == 64 then 64 else 32)
  {
  }

  /** RQB_FFS: the lowest one bit. */
  function Ffs(w: set<nat>): (m: nat)
    requires w != {}
    ensures m in w && forall x | x in w :: m <= x
  {
    assert exists m :: IsLeast(w, m) by {
      var m := MinExists(w);
    }
    assert exists m :: m in w && forall x | x in w :: m <= x by {
      var m :| IsLeast(w, m);
    }
    var m :| m in w && forall x | x in w :: m <= x;
    m
  }

  // ---- specification ---------------------------------------------------------------

  type Queues = s: seq<seq<Tid>> | |s| == RQ_NQS witness seq(RQ_NQS, _ => [])

  /** TAILQ_INSERT_HEAD or TAILQ_INSERT_TAIL on queue `pri`. */
  function Inserted(qs: Queues, pri: nat, td: Tid, atHead: bool): Queues
    requires pri < RQ_NQS
  {
    qs[pri := if atHead then [td] + qs[pri] else qs[pri] + [td]]
  }

  /** Queue p is the first nonempty one at or after `start`, going round once. */
  ghost predicate FirstFrom(qs: Queues, start: nat, p: int) {
    && 0 <= p < RQ_NQS && qs[p] != []
    && forall q | 0 <= q < RQ_NQS && qs[q] != [] :: Distance(start, p) <= Distance(start, q)
  }

  /** How many steps up, modulo 64, lead from `start` to `p`. */
  function Distance(start: nat, p: int): int { (p - start) % RQ_NQS }

  /** That is, every queue passed on the way to it is empty: those from `start` to p, or to the end and up to p. */
  lemma FirstFromMeans(qs: Queues, start: nat, p: int)
    requires start < RQ_NQS
    ensures FirstFrom(qs, start, p) <==>
      && 0 <= p < RQ_NQS && qs[p] != []
      && (p >= start ==> forall q | start <= q < p :: qs[q] == [])
      && (p < start ==> forall q | start <= q < RQ_NQS || 0 <= q < p :: qs[q] == [])
  {
    if 0 <= p < RQ_NQS && qs[p] != [] && !FirstFrom(qs, start, p) {
      var q :| 0 <= q < RQ_NQS && qs[q] != [] && Distance(start, q) < Distance(start, p);
      assert if p >= start then start <= q < p else start <= q || q < p;
    }
    if FirstFrom(qs, start, p) {
      forall q | 0 <= q < RQ_NQS && qs[q] != []
        ensures !(p >= start && start <= q < p) && !(p < start && (start <= q || q < p))
      {
        assert Distance(start, p) <= Distance(start, q);
      }
    }
  }

  lemma BitAt(bpw: nat, i: nat, b: nat)
    requires (bpw == 64 || bpw == 32) && i < (if bpw == 64 then 1 else 2) && b < (if bpw == 64 then 64 else 32)
    ensures var p := b + i * (if bpw == 64 then 64 else 32);
            p < RQ_NQS && WordOf(bpw, p) == i && BitOf(bpw, p) == b
  {
  }

  /** First from 0 after finding nothing from `start` on is first from `start`, going round. */
  lemma WrapAround(qs: Queues, start: nat, from: nat, p: nat)
    requires start < RQ_NQS && (from == start || (from == 0 && forall q | start <= q < RQ_NQS :: qs[q] == []))
    requires from <= p < RQ_NQS && qs[p] != [] && forall q: nat | from <= q < p :: qs[q] == []
    ensures FirstFrom(qs, start, p)
  {
  }

  /** Going round from `start`, everything before p is empty. */
  lemma NothingBefore(qs: Queues, start: nat, from: nat, p: nat)
    requires start < RQ_NQS && (from == start || (from == 0 && forall q | start <= q < RQ_NQS :: qs[q] == []))
    requires from <= p < RQ_NQS && qs[p] != [] && forall q: nat | from <= q < p :: qs[q] == []
    ensures p >= start ==> forall q | start <= q < p :: qs[q] == []
    ensures p < start ==> forall q | start <= q < RQ_NQS || 0 <= q < p :: qs[q] == []
  {
  }

  class Runq {
    const bpw: nat
    const bits: array<set<nat>>
    const queues: array<seq<Tid>>
    var rqindex: map<Tid, nat>      // td_rqindex of every thread

    ghost predicate Shape()
      reads this
    {
      && (bpw == 64 || bpw == 32)
      && bits.Length == (if bpw == 64 then 1 else 2)
      && queues.Length == RQ_NQS
    }

    /** The status says that queue `p` has a thread. */
    ghost predicate HasBit(p: nat)
      requires Shape() && p < RQ_NQS
      reads this, bits
    {
      BitOf(bpw, p) in bits[WordOf(bpw, p)]
    }

    ghost predicate BitOk(p: nat)
      requires Shape() && p < RQ_NQS
      reads this, bits, queues
    {
      HasBit(p) <==> queues[p] != []
    }

    /** A word holds no bit beyond its width. */
    ghost predicate Narrow()
      requires Shape()
      reads this, bits
    {
      forall w, b | 0 <= w < bits.Length && b in bits[w] :: b < bpw
    }

    /** A status bit is set exactly if its queue is not empty; a thread is only on the queue td_rqindex names. */
    ghost predicate Valid()
      reads this, bits, queues
    {
      && Shape()
      && Narrow()
      && (forall p: nat | p < RQ_NQS :: BitOk(p))
      && (forall p | 0 <= p < RQ_NQS :: NoDup(queues[p]))
      && (forall p, td | 0 <= p < RQ_NQS && td in queues[p] :: td in rqindex && rqindex[td] == p)
    }

    ghost function Contents(): Queues
      requires Shape()
      reads this, queues
    {
      queues[..]
    }

    ghost predicate Queued(td: Tid)
      requires Shape()
      reads this, queues
    {
      exists p :: 0 <= p < RQ_NQS && td in queues[p]
    }

    /** runq_init */
    constructor (bpw: nat)
      requires bpw == 64 || bpw == 32
      ensures Valid() && fresh(bits) && fresh(queues)
      ensures Contents() == seq(RQ_NQS, _ => [])
    {
      this.bpw := bpw;
      bits := new set<nat>[if bpw == 64 then 1 else 2](_ => {});
      queues := new seq<Tid>[RQ_NQS](_ => []);
      rqindex := map[];
    }

    /** runq_setbit (kern_switch.c:364-375): `pri` now has its bit, and no other priority's bit changes. */
    method SetBit(pri: nat)
      requires Shape() && Narrow() && pri < RQ_NQS
      modifies bits
      ensures Narrow()
      ensures forall p: nat | p < RQ_NQS :: HasBit(p) <==> p == pri || old(HasBit(p))
    {
      bits[WordOf(bpw, pri)] := bits[WordOf(bpw, pri)] + {BitOf(bpw, pri)};
      forall p: nat | p < RQ_NQS
        ensures HasBit(p) <==> p == pri || old(HasBit(p))
      {
        BitDistinct(bpw, p, pri);
      }
    }

    /** runq_clrbit (kern_switch.c:292-303): `pri` has lost its bit, and no other priority's bit changes. */
    method ClearBit(pri: nat)
      requires Shape() && Narrow() && pri < RQ_NQS
      modifies bits
      ensures Narrow()
      ensures forall p: nat | p < RQ_NQS :: HasBit(p) <==> p != pri && old(HasBit(p))
    {
      bits[WordOf(bpw, pri)] := bits[WordOf(bpw, pri)] - {BitOf(bpw, pri)};
      forall p: nat | p < RQ_NQS
        ensures HasBit(p) <==> p != pri && old(HasBit(p))
      {
        BitDistinct(bpw, p, pri);
      }
    }

    /** runq_add_pri (kern_switch.c:400-416) */
    method AddPri(td: Tid, pri: nat, preempted: bool)
      requires Valid() && pri < RQ_NQS && !Queued(td)
      modifies `rqindex, bits, queues
      ensures Valid() && rqindex == old(rqindex)[td := pri]
      ensures Contents() == Inserted(old(Contents()), pri, td, preempted)
    {
      rqindex := rqindex[td := pri];
      SetBit(pri);
      if preempted {
        queues[pri] := [td] + queues[pri];
      } else {
        queues[pri] := queues[pri] + [td];
      }
      forall p: nat | p < RQ_NQS
        ensures BitOk(p)
      {
        assert old(BitOk(p));
      }
    }

    /** runq_add (kern_switch.c:381-398): the queue is chosen by the thread's priority. */
    method Add(td: Tid, priority: nat, preempted: bool)
      requires Valid() && priority < RQ_NQS * RQ_PPQ && !Queued(td)
      modifies `rqindex, bits, queues
      ensures Valid() && rqindex == old(rqindex)[td := priority / RQ_PPQ]
      ensures Contents() == Inserted(old(Contents()), priority / RQ_PPQ, td, preempted)
    {
      AddPri(td, priority / RQ_PPQ, preempted);
    }

    /** runq_remove_idx (kern_switch.c:593-613): returns the removal index, moved on if its queue became empty. */
    method RemoveIdx(td: Tid, idx: nat) returns (idx': nat)
      requires Valid() && Queued(td)
      modifies bits, queues
      ensures Valid() && td in rqindex && !Queued(td)
      ensures Contents() == old(Contents())[rqindex[td] := Without(old(Contents())[rqindex[td]], td)]
      ensures idx' == if queues[rqindex[td]] == [] && idx == rqindex[td] then (idx + 1) % RQ_NQS else idx
    {
      var pri := rqindex[td];
      WithoutProps(queues[pri], td);
      queues[pri] := Without(queues[pri], td);
      idx' := idx;
      if queues[pri] == [] {
        ClearBit(pri);
        if idx == pri {
          idx' := (pri + 1) % RQ_NQS;
        }
      }
      forall p: nat | p < RQ_NQS
        ensures BitOk(p)
      {
        assert old(BitOk(p));
      }
    }

    /** runq_findbit (kern_switch.c:309-326) */
    method FindBit() returns (pri: int)
      requires Valid()
      ensures pri == -1 ==> forall p | 0 <= p < RQ_NQS :: Contents()[p] == []
      ensures pri != -1 ==> 0 <= pri < RQ_NQS && Contents()[pri] != []
      ensures pri != -1 ==> forall p | 0 <= p < pri :: Contents()[p] == []
    {
      var i := 0;
      while i < bits.Length
        invariant 0 <= i <= bits.Length
        invariant forall p: nat | p < RQ_NQS && WordOf(bpw, p) < i :: queues[p] == []
      {
        if bits[i] != {} {
          pri := Ffs(bits[i]) + i * (if bpw == 64 then 64 else 32);
          assert BitOk(pri);
          forall p: nat | p < pri
            ensures queues[p] == []
          {
            assert BitOk(p);
          }
          return;
        }
        forall p: nat | p < RQ_NQS && WordOf(bpw, p) == i
          ensures queues[p] == []
        {
          assert BitOk(p);
        }
        i := i + 1;
      }
      pri := -1;
    }

    /** runq_findbit_from (kern_switch.c:328-358): as runq_findbit, but from `start` and round the end once. */
    method FindBitFrom(start: nat) returns (pri: int)
      requires Valid() && start < RQ_NQS
      ensures pri == -1 ==> forall p | 0 <= p < RQ_NQS :: Contents()[p] == []
      ensures pri != -1 ==> FirstFrom(Contents(), start, pri)
      ensures pri != -1 ==> 0 <= pri < RQ_NQS && Contents()[pri] != []
      ensures pri >= start ==> forall p | start <= p < pri :: Contents()[p] == []
      ensures 0 <= pri < start ==> forall p | start <= p < RQ_NQS || 0 <= p < pri :: Contents()[p] == []
    {
      hide Range, FirstFrom, Distance, NoDup;
      var from := start;
      var width := if bpw == 64 then 64 else 32;
      var full := Range(0, width);
      var mask := Range(BitOf(bpw, start), width);
      while true
        invariant from == start || (from == 0 && forall p | start <= p < RQ_NQS :: queues[p] == [])
        invariant from == 0 < start ==> mask == full
        invariant from == start ==> mask == Range(BitOf(bpw, start), width)
        decreases from
      {
        var i := WordOf(bpw, from);
        while i < bits.Length
          invariant WordOf(bpw, from) <= i <= bits.Length
          invariant i == WordOf(bpw, from) ==> mask == Range(BitOf(bpw, from), width)
          invariant i > WordOf(bpw, from) ==> mask == full
          invariant forall p: nat | from <= p < RQ_NQS && WordOf(bpw, p) < i :: queues[p] == []
        {
          mask := bits[i] * mask;
          forall p: nat | from <= p < RQ_NQS && WordOf(bpw, p) == i
            ensures queues[p] != [] <==> BitOf(bpw, p) in mask
          {
            BitOrder(bpw, from, p);
            assert BitOk(p);
          }
          if mask != {} {
            pri := Ffs(mask) + i * width;
            BitAt(bpw, i, Ffs(mask));
            assert from <= pri;
            forall p: nat | from <= p < pri
              ensures queues[p] == []
            {
              BitOrder(bpw, p, pri);
            }
            WrapAround(Contents(), start, from, pri);
            NothingBefore(Contents(), start, from, pri);
            return;
          }
          mask := full;
          i := i + 1;
        }
        if from == 0 {
          return -1;
        }
        from := 0;
      }
    }

    /** runq_check (kern_switch.c:441-457) */
    method Check() returns (any: bool)
      requires Valid()
      ensures any <==> exists p :: 0 <= p < RQ_NQS && Contents()[p] != []
    {
      var pri := FindBit();
      any := pri != -1;
    }

    /** runq_choose (kern_switch.c:504-522): the head of the highest queue, or nobody (-1). */
    method Choose() returns (td: int)
      requires Valid()
      ensures td == -1 <==> forall p | 0 <= p < RQ_NQS :: Contents()[p] == []
      ensures td != -1 ==> exists p :: FirstFrom(Contents(), 0, p) && td == Contents()[p][0]
    {
      var pri := FindBit();
      if pri == -1 {
        return -1;
      }
      assert FirstFrom(Contents(), 0, pri);
      td := queues[pri][0];
    }

    /** runq_choose_from (kern_switch.c:524-543) */
    method ChooseFrom(idx: nat) returns (td: int)
      requires Valid() && idx < RQ_NQS
      ensures td == -1 <==> forall p | 0 <= p < RQ_NQS :: Contents()[p] == []
      ensures td != -1 ==> exists p :: FirstFrom(Contents(), idx, p) && td == Contents()[p][0]
    {
      var pri := FindBitFrom(idx);
      if pri == -1 {
        return -1;
      }
      td := queues[pri][0];
    }
  }
}
