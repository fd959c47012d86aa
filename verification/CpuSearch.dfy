/**
  The recursive search of a tree of CPU groups for the least or the most loaded
  CPU (asgn2/sched_ule.c:672-870): the least loaded CPU on the least loaded path.

  The loads are read without locks; they are modelled by one snapshot.  The CPUs
  that belong to no child are visited in any order, which covers both the
  ascending and the descending variant of the loop.
 */
module CpuSearch {

  const INT_MAX := 0x7fff_ffff
  const INT_MIN := -0x8000_0000

  /** The fields of struct tdq that the search reads. */
  datatype Cpu = Cpu(load: nat, lowpri: int, transferable: nat)

  datatype Group = Group(mask: set<nat>, children: seq<Group>)

  /** What struct cpu_search asks for ... */
  datatype Limits = Limits(mask: set<nat>, prefer: nat, pri: int, limit: int)

  /** ... and what it answers; cpu is -1 if there is none. */
  datatype Found = Found(cpu: int, load: int)

  datatype Match = Lowest | Highest | Both

  datatype Side = Low | High

  datatype Query = Query(cpus: seq<Cpu>, low: Limits, high: Limits, match_: Match) {
    predicate Wants(side: Side) {
      match_ == Both || (match_ == Lowest) == (side == Low)
    }
  }

  // ---- specification ---------------------------------------------------------------

  /** Child groups lie inside their parent and do not overlap. */
  ghost predicate WellFormed(cg: Group) {
    && (forall g | g in cg.children :: g.mask <= cg.mask && WellFormed(g))
    && (forall i, j | 0 <= i < j < |cg.children| :: cg.children[i].mask !! cg.children[j].mask)
  }

  ghost predicate InRange(q: Query, s: set<nat>) {
    forall c | c in s :: c < |q.cpus|
  }

  /** The CPU meets the mask, load and priority limits. */
  predicate Eligible(side: Side, q: Query, c: nat) {
    && c < |q.cpus|
    && match side
       case Low => c in q.low.mask && q.cpus[c].lowpri > q.low.pri && q.cpus[c].load <= q.low.limit
       case High => c in q.high.mask && q.cpus[c].load >= q.high.limit && q.cpus[c].transferable != 0
  }

  function LoadOf(q: Query, c: nat): nat {
    if c < |q.cpus| then q.cpus[c].load else 0
  }

  ghost function SumLoad(q: Query, s: set<nat>): nat {
    if s == {} then 0 else var c :| c in s; LoadOf(q, c) + SumLoad(q, s - {c})
  }

  /** The weight of a set of CPUs: 256 for each thread, 64 less if the preferred CPU is among them. */
  ghost function Total(q: Query, s: set<nat>): int {
    256 * SumLoad(q, s) - if q.Wants(Low) && q.low.prefer in s then 64 else 0
  }

  ghost predicate NoOverflow(q: Query, s: set<nat>) {
    256 * SumLoad(q, s) < INT_MAX
  }

  lemma {:induction false} SumRemove(q: Query, s: set<nat>, c: nat)
    requires c in s
    ensures SumLoad(q, s) == LoadOf(q, c) + SumLoad(q, s - {c})
  {
    var d :| d in s && SumLoad(q, s) == LoadOf(q, d) + SumLoad(q, s - {d});
    if c != d {
      SumRemove(q, s - {d}, c);
      SumRemove(q, s - {c}, d);
      assert s - {d} - {c} == s - {c} - {d};
    }
  }

  lemma {:induction false} SumUnion(q: Query, s: set<nat>, t: set<nat>)
    requires s !! t
    ensures SumLoad(q, s + t) == SumLoad(q, s) + SumLoad(q, t)
  {
    if s == {} {
      assert s + t == t;
    } else {
      var c :| c in s;
      SumUnion(q, s - {c}, t);
      SumRemove(q, s, c);
      SumRemove(q, s + t, c);
      assert s + t - {c} == (s - {c}) + t;
    }
  }

  /** Weights of disjoint sets add up. */
  lemma TotalUnion(q: Query, s: set<nat>, t: set<nat>)
    requires s !! t
    ensures Total(q, s + t) == Total(q, s) + Total(q, t)
    ensures NoOverflow(q, s + t) ==> NoOverflow(q, s) && NoOverflow(q, t)
  {
    SumUnion(q, s, t);
  }

  lemma TotalSingle(q: Query, c: nat)
    ensures Total(q, {c}) == 256 * LoadOf(q, c) - if q.Wants(Low) && q.low.prefer == c then 64 else 0
  {
    SumRemove(q, {c}, c);
    assert {c} - {c} == {};
  }

  /** What a group consists of: its children and the CPUs in none of them. */
  datatype Item = Child(k: nat) | Single(c: nat)

  predicate Rest(cg: Group, c: nat) {
    c in cg.mask && forall g | g in cg.children :: c !in g.mask
  }

  predicate IsItem(cg: Group, it: Item) {
    match it
    case Child(k) => k < |cg.children|
    case Single(c) => Rest(cg, c)
  }

  function ItemMask(cg: Group, it: Item): set<nat>
    requires IsItem(cg, it)
  {
    match it
    case Child(k) => cg.children[k].mask
    case Single(c) => {c}
  }

  ghost predicate Candidate(side: Side, q: Query, s: set<nat>) {
    exists c :: c in s && Eligible(side, q, c)
  }

  predicate Before(side: Side, x: int, y: int) {
    if side == Low then x <= y else x >= y
  }

  /** Beats it, but for the random number below 32 that breaks ties. */
  ghost predicate Near(side: Side, q: Query, c: nat, d: nat) {
    match side
    case Low => Total(q, {c}) <= Total(q, {d}) + 31
    case High => Total(q, {c}) + 31 >= Total(q, {d})
  }

  /**
    CPU c lies at the end of the best path: in the item that has the best total
    among those with an eligible CPU, and so on down to c; where totals are
    equal, c is about as good as a best CPU of the other item.
   */
  ghost predicate BestPath(side: Side, q: Query, cg: Group, c: nat)
    decreases cg, 2
  {
    exists it :: IsItem(cg, it) && ItemPath(side, q, cg, it, c) && BestItem(side, q, cg, it, c)
  }

  ghost predicate ItemPath(side: Side, q: Query, cg: Group, it: Item, c: nat)
    requires IsItem(cg, it)
    decreases cg, 0
  {
    match it
    case Child(k) => BestPath(side, q, cg.children[k], c)
    case Single(d) => c == d && Eligible(side, q, c)
  }

  ghost predicate BestItem(side: Side, q: Query, cg: Group, it: Item, c: nat)
    requires IsItem(cg, it)
    decreases cg, 1
  {
    forall other | IsItem(cg, other) && Candidate(side, q, ItemMask(cg, other)) ::
      && Before(side, Total(q, ItemMask(cg, it)), Total(q, ItemMask(cg, other)))
      && (Total(q, ItemMask(cg, it)) == Total(q, ItemMask(cg, other)) ==>
          exists d :: ItemPath(side, q, cg, other, d) && Near(side, q, c, d))
  }

  /** The CPU at the end of the best path belongs to the group and meets the limits. */
  lemma {:induction false} BestIsEligible(side: Side, q: Query, cg: Group, c: nat)
    requires WellFormed(cg) && BestPath(side, q, cg, c)
    ensures c in cg.mask && Eligible(side, q, c)
    decreases cg
  {
    var it :| IsItem(cg, it) && ItemPath(side, q, cg, it, c) && BestItem(side, q, cg, it, c);
    match it
    case Child(k) => BestIsEligible(side, q, cg.children[k], c);
    case Single(d) =>
  }

  /** cs_load is the weight of the CPU less a random number below 32. */
  ghost predicate LoadOk(q: Query, f: Found) {
    f.cpu >= 0 && Total(q, {f.cpu}) - 31 <= f.load <= Total(q, {f.cpu})
  }

  /** What the search of a group must answer. */
  ghost predicate Answer(side: Side, q: Query, cg: Group, f: Found) {
    if f.cpu == -1 then !Candidate(side, q, cg.mask)
    else LoadOk(q, f) && BestPath(side, q, cg, f.cpu)
  }

  /** What is known of an item once it has been searched. */
  ghost predicate ItemAnswer(side: Side, q: Query, cg: Group, it: Item, f: Found)
    requires IsItem(cg, it)
  {
    if f.cpu == -1 then !Candidate(side, q, ItemMask(cg, it))
    else LoadOk(q, f) && ItemPath(side, q, cg, it, f.cpu)
  }

  // ---- one pass over the items of a group ------------------------------------------------

  /** The answer so far does at least as well as d, but for the random number. */
  ghost predicate Beats(side: Side, q: Query, load: int, d: nat) {
    match side
    case Low => load <= Total(q, {d})
    case High => load + 31 >= Total(q, {d})
  }

  ghost predicate Leads(side: Side, q: Query, cg: Group, f: Found, best: int, it: Item)
    requires IsItem(cg, it)
  {
    Candidate(side, q, ItemMask(cg, it)) ==>
      && Before(side, best, Total(q, ItemMask(cg, it)))
      && (best == Total(q, ItemMask(cg, it)) ==>
          exists d :: ItemPath(side, q, cg, it, d) && Beats(side, q, f.load, d))
  }

  /** After the items in `seen`: f is the best so far, with total `best`, and lies in item w. */
  ghost predicate Progress(side: Side, q: Query, cg: Group, seen: set<Item>, f: Found, best: int, w: Item) {
    && (forall it | it in seen :: IsItem(cg, it))
    && (f.cpu == -1 ==>
        && best == (if side == Low then INT_MAX else INT_MIN)
        && forall it | it in seen :: !Candidate(side, q, ItemMask(cg, it)))
    && (f.cpu != -1 ==>
        && w in seen && LoadOk(q, f) && ItemPath(side, q, cg, w, f.cpu) && best == Total(q, ItemMask(cg, w))
        && forall it | it in seen :: Leads(side, q, cg, f, best, it))
  }

  /** The comparison of the source: is this item better than the best so far? */
  predicate Improves(side: Side, f: Found, best: int, f2: Found, load: int) {
    && f2.cpu >= 0
    && match side
       case Low => load < best || (load == best && f2.load < f.load)
       case High => load > best || (load == best && f2.load > f.load)
  }

  lemma LeadsKept(side: Side, q: Query, cg: Group, f: Found, best: int, f2: Found, load: int, it: Item)
    requires IsItem(cg, it) && Leads(side, q, cg, f, best, it) && Improves(side, f, best, f2, load)
    ensures Leads(side, q, cg, f2, load, it)
  {
    hide Candidate, Total, ItemPath, ItemMask;
  }

  lemma LeadsNew(side: Side, q: Query, cg: Group, f: Found, best: int, f2: Found, load: int, it: Item)
    requires IsItem(cg, it) && ItemAnswer(side, q, cg, it, f2) && load == Total(q, ItemMask(cg, it))
    requires f2.cpu >= 0
    ensures Leads(side, q, cg, f2, load, it)
    ensures !Improves(side, f, best, f2, load) ==> Leads(side, q, cg, f, best, it)
  {
    hide Candidate, Total, ItemPath, ItemMask;
    assert ItemPath(side, q, cg, it, f2.cpu);
    assert Beats(side, q, f2.load, f2.cpu);
  }

  /** One more item. */
  lemma Step(side: Side, q: Query, cg: Group, seen: set<Item>, f: Found, best: int, w: Item,
             it: Item, f2: Found, load: int)
    requires Progress(side, q, cg, seen, f, best, w)
    requires IsItem(cg, it) && ItemAnswer(side, q, cg, it, f2) && load == Total(q, ItemMask(cg, it))
    requires INT_MIN < load < INT_MAX
    ensures Improves(side, f, best, f2, load) ==> Progress(side, q, cg, seen + {it}, f2, load, it)
    ensures !Improves(side, f, best, f2, load) ==> Progress(side, q, cg, seen + {it}, f, best, w)
  {
    hide Candidate, Total, ItemPath, ItemMask, Leads;
    if f2.cpu == -1 {
      assert Leads(side, q, cg, f, best, it) by { LeadsVacuous(side, q, cg, f, best, it); }
    } else {
      LeadsNew(side, q, cg, f, best, f2, load, it);
      if Improves(side, f, best, f2, load) {
        forall x | x in seen
          ensures Leads(side, q, cg, f2, load, x)
        {
          if f.cpu == -1 {
            LeadsVacuous(side, q, cg, f2, load, x);
          } else {
            LeadsKept(side, q, cg, f, best, f2, load, x);
          }
        }
      }
    }
  }

  lemma LeadsVacuous(side: Side, q: Query, cg: Group, f: Found, best: int, it: Item)
    requires IsItem(cg, it) && !Candidate(side, q, ItemMask(cg, it))
    ensures Leads(side, q, cg, f, best, it)
  {
  }

  /** All items together are the group. */
  lemma Finish(side: Side, q: Query, cg: Group, seen: set<Item>, f: Found, best: int, w: Item)
    requires WellFormed(cg) && Progress(side, q, cg, seen, f, best, w)
    requires forall it | IsItem(cg, it) :: it in seen
    ensures Answer(side, q, cg, f)
  {
    if f.cpu == -1 {
      forall c | c in cg.mask
        ensures !Eligible(side, q, c)
      {
        var it := ItemOf(cg, c);
        assert it in seen && c in ItemMask(cg, it);
      }
    } else {
      forall other | IsItem(cg, other) && Candidate(side, q, ItemMask(cg, other))
        ensures Before(side, best, Total(q, ItemMask(cg, other)))
        ensures best == Total(q, ItemMask(cg, other)) ==>
          exists d :: ItemPath(side, q, cg, other, d) && Near(side, q, f.cpu, d)
      {
        assert Leads(side, q, cg, f, best, other);
        if best == Total(q, ItemMask(cg, other)) {
          var d :| ItemPath(side, q, cg, other, d) && Beats(side, q, f.load, d);
          assert Near(side, q, f.cpu, d);
        }
      }
      assert BestItem(side, q, cg, w, f.cpu);
    }
  }

  /** Every CPU of a group is in one of its items. */
  lemma ItemOf(cg: Group, c: nat) returns (it: Item)
    requires c in cg.mask
    ensures IsItem(cg, it) && c in ItemMask(cg, it)
  {
    if k :| 0 <= k < |cg.children| && c in cg.children[k].mask {
      it := Child(k);
    } else {
      it := Single(c);
    }
  }

  // ---- the search ----------------------------------------------------------------------

  /** A part of the group is within the range of an int. */
  lemma PartFits(q: Query, s: set<nat>, t: set<nat>)
    requires s <= t && NoOverflow(q, t)
    ensures NoOverflow(q, s) && INT_MIN < Total(q, s) < INT_MAX
  {
    TotalUnion(q, s, t - s);
    assert s + (t - s) == t;
  }

  lemma AnswerOfChild(side: Side, q: Query, cg: Group, k: nat, f: Found)
    requires k < |cg.children| && Answer(side, q, cg.children[k], f)
    ensures ItemAnswer(side, q, cg, Child(k), f)
  {
  }

  /** The part of the loop body that handles a single CPU (sched_ule.c:757-780). */
  method SearchCpu(cg: Group, q: Query, cpu: nat) returns (lgroup: Found, hgroup: Found, load: int)
    requires Rest(cg, cpu) && cpu < |q.cpus|
    ensures load == Total(q, {cpu})
    ensures q.Wants(Low) ==> ItemAnswer(Low, q, cg, Single(cpu), lgroup)
    ensures q.Wants(High) ==> ItemAnswer(High, q, cg, Single(cpu), hgroup)
  {
    TotalSingle(q, cpu);
    hide Total;
    lgroup, hgroup := Found(-1, 0), Found(-1, 0);
    load := q.cpus[cpu].load * 256;
    var rnd :| 0 <= rnd < 32;
    if q.Wants(Low) {
      if cpu == q.low.prefer {
        load := load - 64;
      }
      if Eligible(Low, q, cpu) {
        lgroup := Found(cpu, load - rnd);
      }
    }
    if q.Wants(High) && Eligible(High, q, cpu) {
      hgroup := Found(cpu, load - rnd);
    }
  }

  /** The items not yet visited. */
  predicate Pending(i: nat, cpumask: set<nat>, it: Item) {
    match it
    case Child(k) => k < i
    case Single(c) => c in cpumask
  }

  /** Where the loop stands: children from i on are done, as are the CPUs not in cpumask. */
  ghost predicate Position(cg: Group, i: nat, cpumask: set<nat>, seen: set<Item>) {
    && i <= |cg.children| && cpumask <= cg.mask
    && (forall k | 0 <= k < i :: cg.children[k].mask <= cpumask)
    && (forall k | i <= k < |cg.children| :: cg.children[k].mask !! cpumask)
    && (forall it | IsItem(cg, it) :: it in seen || Pending(i, cpumask, it))
  }

  lemma ChildFacts(cg: Group, i: nat)
    requires WellFormed(cg) && i < |cg.children|
    ensures cg.children[i].mask <= cg.mask && WellFormed(cg.children[i])
    ensures forall k | 0 <= k < i :: cg.children[k].mask !! cg.children[i].mask
  {
    assert cg.children[i] in cg.children;
  }

  lemma NextChild(cg: Group, i: nat, cpumask: set<nat>, seen: set<Item>)
    requires WellFormed(cg) && Position(cg, i, cpumask, seen) && i > 0
    ensures IsItem(cg, Child(i - 1)) && WellFormed(cg.children[i - 1])
    ensures cg.children[i - 1].mask <= cpumask
    ensures Position(cg, i - 1, cpumask - cg.children[i - 1].mask, seen + {Child(i - 1)})
  {
    hide WellFormed;
    ChildFacts(cg, i - 1);
    var mask := cg.children[i - 1].mask;
    forall k | 0 <= k < i - 1
      ensures cg.children[k].mask <= cpumask - mask
    {
      assert cg.children[k].mask !! mask;
    }
    forall it | IsItem(cg, it)
      ensures it in seen + {Child(i - 1)} || Pending(i - 1, cpumask - mask, it)
    {
      assert it in seen || Pending(i, cpumask, it);
      if it.Single? {
        assert cg.children[i - 1] in cg.children;
      }
    }
  }

  lemma NextCpu(cg: Group, cpumask: set<nat>, seen: set<Item>, cpu: nat)
    requires WellFormed(cg) && Position(cg, 0, cpumask, seen) && cpu in cpumask
    ensures Rest(cg, cpu)
    ensures Position(cg, 0, cpumask - {cpu}, seen + {Single(cpu)})
  {
    forall it | IsItem(cg, it)
      ensures it in seen + {Single(cpu)} || Pending(0, cpumask - {cpu}, it)
    {
      assert it in seen || Pending(0, cpumask, it);
    }
  }

  lemma TakeAway(q: Query, mask: set<nat>, cpumask: set<nat>, part: set<nat>)
    requires part <= cpumask <= mask
    ensures Total(q, mask - (cpumask - part)) == Total(q, mask - cpumask) + Total(q, part)
  {
    TotalUnion(q, mask - cpumask, part);
    assert mask - (cpumask - part) == (mask - cpumask) + part;
  }

  lemma Start(side: Side, q: Query, cg: Group)
    ensures Progress(side, q, cg, {}, Found(-1, 0), if side == Low then INT_MAX else INT_MIN, Single(0))
    ensures Position(cg, |cg.children|, cg.mask, {}) || !WellFormed(cg)
    ensures Total(q, cg.mask - cg.mask) == 0
  {
    assert cg.mask - cg.mask == {};
    if WellFormed(cg) {
      forall k | 0 <= k < |cg.children|
        ensures cg.children[k].mask <= cg.mask
      {
        assert cg.children[k] in cg.children;
      }
    }
  }

  /** cpu_search (sched_ule.c:703-812), with the constant `match` in the query. */
  method Search(cg: Group, q: Query) returns (low: Found, high: Found, total: int)
    requires WellFormed(cg) && InRange(q, cg.mask) && NoOverflow(q, cg.mask)
    ensures total == Total(q, cg.mask)
    ensures q.Wants(Low) ==> Answer(Low, q, cg, low)
    ensures q.Wants(High) ==> Answer(High, q, cg, high)
    decreases cg
  {
    hide Total, NoOverflow, Candidate, Answer, ItemAnswer, Progress, Improves, Eligible, WellFormed, Position, Rest, BestPath;
    total := 0;
    var cpumask := cg.mask;
    var lload, hload := INT_MAX, INT_MIN;
    low, high := Found(-1, 0), Found(-1, 0);
    var i := |cg.children|;
    ghost var seen: set<Item> := {};
    ghost var lw, hw := Single(0), Single(0);
    Start(Low, q, cg);
    Start(High, q, cg);
    while i > 0 || cpumask != {}
      invariant 0 <= i <= |cg.children| && cpumask <= cg.mask
      invariant Position(cg, i, cpumask, seen)
      invariant total == Total(q, cg.mask - cpumask)
      invariant q.Wants(Low) ==> Progress(Low, q, cg, seen, low, lload, lw)
      invariant q.Wants(High) ==> Progress(High, q, cg, seen, high, hload, hw)
      decreases i + |cpumask|
    {
      var lgroup, hgroup, load;
      ghost var it, part;
      ghost var before := cpumask;
      if i == 0 {
        var cpu :| cpu in cpumask;
        NextCpu(cg, cpumask, seen, cpu);
        lgroup, hgroup, load := SearchCpu(cg, q, cpu);
        it, part := Single(cpu), {cpu};
        cpumask := cpumask - {cpu};
      } else {
        NextChild(cg, i, cpumask, seen);
        var child := cg.children[i - 1];
        PartFits(q, child.mask, cg.mask);
        lgroup, hgroup, load := Search(child, q);
        if q.Wants(Low) { AnswerOfChild(Low, q, cg, i - 1, lgroup); }
        if q.Wants(High) { AnswerOfChild(High, q, cg, i - 1, hgroup); }
        it, part := Child(i - 1), child.mask;
        cpumask := cpumask - child.mask;
        i := i - 1;
      }
      TakeAway(q, cg.mask, before, part);
      PartFits(q, part, cg.mask);
      total := total + load;
      if q.Wants(Low) {
        Step(Low, q, cg, seen, low, lload, lw, it, lgroup, load);
        if Improves(Low, low, lload, lgroup, load) {
          lload, low, lw := load, lgroup, it;
        }
      }
      if q.Wants(High) {
        Step(High, q, cg, seen, high, hload, hw, it, hgroup, load);
        if Improves(High, high, hload, hgroup, load) {
          hload, high, hw := load, hgroup, it;
        }
      }
      seen := seen + {it};
    }
    assert cg.mask - {} == cg.mask;
    AllSeen(cg, seen);
    if q.Wants(Low) { Finish(Low, q, cg, seen, low, lload, lw); }
    if q.Wants(High) { Finish(High, q, cg, seen, high, hload, hw); }
  }

  lemma AllSeen(cg: Group, seen: set<Item>)
    requires Position(cg, 0, {}, seen)
    ensures forall it | IsItem(cg, it) :: it in seen
  {
  }

  /** What a search promises its callers: a CPU is found exactly if the group has an eligible one. */
  lemma FoundIffEligible(side: Side, q: Query, cg: Group, f: Found)
    requires WellFormed(cg) && Answer(side, q, cg, f)
    ensures f.cpu == -1 <==> forall c | c in cg.mask :: !Eligible(side, q, c)
    ensures f.cpu != -1 ==> f.cpu in cg.mask && Eligible(side, q, f.cpu)
  {
    if f.cpu != -1 {
      BestIsEligible(side, q, cg, f.cpu);
    }
  }

  /** sched_lowest (sched_ule.c:842-855) */
  method SchedLowest(cg: Group, cpus: seq<Cpu>, mask: set<nat>, pri: int, maxload: int, prefer: nat) returns (cpu: int)
    requires WellFormed(cg) && forall c | c in cg.mask :: c < |cpus|
    requires NoOverflow(Query(cpus, Limits({}, 0, 0, 0), Limits({}, 0, 0, 0), Lowest), cg.mask)
    ensures cpu == -1 <==> forall c | c in cg.mask * mask :: !(cpus[c].lowpri > pri && cpus[c].load <= maxload)
    ensures cpu != -1 ==> 0 <= cpu && cpu in cg.mask * mask && cpus[cpu].lowpri > pri && cpus[cpu].load <= maxload
    ensures cpu != -1 ==>
      BestPath(Low, Query(cpus, Limits(mask, prefer, pri, maxload), Limits({}, 0, 0, 0), Lowest), cg, cpu)
  {
    var q := Query(cpus, Limits(mask, prefer, pri, maxload), Limits({}, 0, 0, 0), Lowest);
    SameLoads(q, Query(cpus, Limits({}, 0, 0, 0), Limits({}, 0, 0, 0), Lowest), cg.mask);
    var low, _, _ := Search(cg, q);
    FoundIffEligible(Low, q, cg, low);
    cpu := low.cpu;
    if cpu == -1 {
      forall c | c in cg.mask * mask
        ensures !(cpus[c].lowpri > pri && cpus[c].load <= maxload)
      {
        assert !Eligible(Low, q, c);
      }
    }
  }

  /** sched_highest (sched_ule.c:860-870) */
  method SchedHighest(cg: Group, cpus: seq<Cpu>, mask: set<nat>, minload: int) returns (cpu: int)
    requires WellFormed(cg) && forall c | c in cg.mask :: c < |cpus|
    requires NoOverflow(Query(cpus, Limits({}, 0, 0, 0), Limits({}, 0, 0, 0), Lowest), cg.mask)
    ensures cpu == -1 <==> forall c | c in cg.mask * mask :: !(cpus[c].load >= minload && cpus[c].transferable != 0)
    ensures cpu != -1 ==> 0 <= cpu && cpu in cg.mask * mask && cpus[cpu].load >= minload && cpus[cpu].transferable != 0
    ensures cpu != -1 ==>
      BestPath(High, Query(cpus, Limits({}, 0, 0, 0), Limits(mask, 0, 0, minload), Highest), cg, cpu)
  {
    var q := Query(cpus, Limits({}, 0, 0, 0), Limits(mask, 0, 0, minload), Highest);
    SameLoads(q, Query(cpus, Limits({}, 0, 0, 0), Limits({}, 0, 0, 0), Lowest), cg.mask);
    var _, high, _ := Search(cg, q);
    FoundIffEligible(High, q, cg, high);
    cpu := high.cpu;
    if cpu == -1 {
      forall c | c in cg.mask * mask
        ensures !(cpus[c].load >= minload && cpus[c].transferable != 0)
      {
        assert !Eligible(High, q, c);
      }
    }
  }

  lemma {:induction false} SameLoads(q: Query, r: Query, s: set<nat>)
    requires q.cpus == r.cpus
    ensures SumLoad(q, s) == SumLoad(r, s)
  {
    if s != {} {
      var c :| c in s;
      SameLoads(q, r, s - {c});
      SumRemove(q, s, c);
      SumRemove(r, s, c);
    }
  }
}
