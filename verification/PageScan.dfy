/**
  The active scan of the page daemon over the queue of one domain, in FIFO order
  (asgn3/vm_pageout.c:1408-1551).

  Page locks are always obtained, so no other thread moves pages meanwhile; the
  targets come as parameters.
 */
module PageScan {
  import opened Arith
  import opened Lists
  import opened Wrappers
  import opened PageQueues
  import opened PageTypes

  // ---- the active scan, as a function of the list at its start ------------------------

  function DirtyAt(pages: seq<Page>, e: Entry): bool {
    e.P? && e.p < |pages| && pages[e.p].dirty
  }

  /** Where a page goes: while the shortage lasts, dirty pages go to the laundry directly. */
  function Destination(dirty: bool, shortage: int): Queue {
    if shortage > 0 && dirty then Laundry else Inactive
  }

  /** The shortage after the first k pages; a clean page counts `weight`, a dirty one 1. */
  function ShortageAfter(pages: seq<Page>, a: seq<Entry>, k: nat, shortage: int, weight: int): int
    requires k <= |a|
  {
    if k == 0 then shortage
    else
      var s := ShortageAfter(pages, a, k - 1, shortage, weight);
      if s <= 0 then s else if DirtyAt(pages, a[k - 1]) then s - 1 else s - weight
  }

  /** Those of the first k pages that go to queue q, in order. */
  function SentTo(pages: seq<Page>, a: seq<Entry>, k: nat, shortage: int, weight: int, q: Queue): seq<Entry>
    requires k <= |a|
  {
    if k == 0 then []
    else
      SentTo(pages, a, k - 1, shortage, weight, q) +
      if Destination(DirtyAt(pages, a[k - 1]), ShortageAfter(pages, a, k - 1, shortage, weight)) == q then [a[k - 1]] else []
  }

  /** The loop goes on after k pages. */
  predicate GoesOn(pages: seq<Page>, a: seq<Entry>, k: nat, shortage: int, weight: int, minScan: int) {
    k < |a| && (k < minScan || ShortageAfter(pages, a, k, shortage, weight) > 0)
  }

  ghost predicate StopsAt(pages: seq<Page>, a: seq<Entry>, k: nat, shortage: int, weight: int, minScan: int) {
    && k <= |a| && !GoesOn(pages, a, k, shortage, weight, minScan)
    && forall j | 0 <= j < k :: GoesOn(pages, a, j, shortage, weight, minScan)
  }

  /** With weight 1 every page counts the same. */
  lemma {:induction false} ShortageFifo(pages: seq<Page>, a: seq<Entry>, k: nat, shortage: int)
    requires k <= |a|
    ensures ShortageAfter(pages, a, k, shortage, 1) == if shortage <= 0 then shortage else Max(shortage - k, 0)
  {
    if k > 0 {
      ShortageFifo(pages, a, k - 1, shortage);
    }
  }

  /** A larger weight lets the shortage shrink faster. */
  lemma {:induction false} ShortageBound(pages: seq<Page>, a: seq<Entry>, k: nat, shortage: int, weight: int)
    requires k <= |a| && weight >= 1
    ensures ShortageAfter(pages, a, k, shortage, weight) <= if shortage <= 0 then shortage else Max(shortage - k, 0)
  {
    if k > 0 {
      ShortageBound(pages, a, k - 1, shortage, weight);
    }
  }

  /** How many pages the FIFO scan takes. */
  lemma FifoLength(pages: seq<Page>, a: seq<Entry>, k: nat, shortage: int, minScan: int)
    requires StopsAt(pages, a, k, shortage, 1, minScan)
    ensures k == Min(|a|, Max(Max(minScan, shortage), 0))
  {
    hide ShortageAfter;
    ShortageFifo(pages, a, k, shortage);
    if k > 0 {
      assert GoesOn(pages, a, k - 1, shortage, 1, minScan);
      ShortageFifo(pages, a, k - 1, shortage);
    }
  }

  /** With any weight it takes no more than that. */
  lemma ScanLength(pages: seq<Page>, a: seq<Entry>, k: nat, shortage: int, weight: int, minScan: int)
    requires StopsAt(pages, a, k, shortage, weight, minScan) && weight >= 1
    ensures Min(|a|, Max(minScan, 0)) <= k <= Min(|a|, Max(Max(minScan, shortage), 0))
  {
    hide ShortageAfter;
    if k > 0 {
      assert GoesOn(pages, a, k - 1, shortage, weight, minScan);
      ShortageBound(pages, a, k - 1, shortage, weight);
    }
  }

  /** What the first k pages take off the shortage: 1 for a dirty page, `weight` for a clean one. */
  function Relief(pages: seq<Page>, a: seq<Entry>, k: nat, weight: int): int
    requires k <= |a|
  {
    if k == 0 then 0 else Relief(pages, a, k - 1, weight) + if DirtyAt(pages, a[k - 1]) then 1 else weight
  }

  function DirtyOnes(pages: seq<Page>, a: seq<Entry>, k: nat): set<int>
    requires k <= |a|
  {
    set i | 0 <= i < k && a[i].P? && a[i].p < |pages| && pages[a[i].p].dirty
  }

  lemma {:induction false} ReliefCounts(pages: seq<Page>, a: seq<Entry>, k: nat, weight: int)
    requires k <= |a|
    ensures Relief(pages, a, k, weight) == |DirtyOnes(pages, a, k)| + weight * (k - |DirtyOnes(pages, a, k)|)
  {
    if k > 0 {
      ReliefCounts(pages, a, k - 1, weight);
      var x, y := DirtyOnes(pages, a, k - 1), DirtyOnes(pages, a, k);
      assert y == if DirtyAt(pages, a[k - 1]) then x + {k - 1} else x;
      assert weight * (k - 1 - |x|) + weight == weight * (k - |x|);
    } else {
      assert DirtyOnes(pages, a, 0) == {};
    }
  }

  lemma {:induction false} ShortageIsRelieved(pages: seq<Page>, a: seq<Entry>, k: nat, shortage: int, weight: int)
    requires k <= |a| && weight >= 1
    ensures ShortageAfter(pages, a, k, shortage, weight) > 0 <==> shortage - Relief(pages, a, k, weight) > 0
    ensures ShortageAfter(pages, a, k, shortage, weight) > 0 ==>
      ShortageAfter(pages, a, k, shortage, weight) == shortage - Relief(pages, a, k, weight)
    ensures Relief(pages, a, k, weight) >= k
  {
    if k > 0 {
      ShortageIsRelieved(pages, a, k - 1, shortage, weight);
    }
  }

  /** The queue that page number i of the scan belongs on afterwards. */
  function RightQueue(pages: seq<Page>, a: seq<Entry>, i: nat, shortage: int, weight: int): Queue
    requires i < |a|
  {
    if DirtyAt(pages, a[i]) && shortage > Relief(pages, a, i, weight) then Laundry else Inactive
  }

  lemma {:induction false} SentRight(pages: seq<Page>, a: seq<Entry>, k: nat, shortage: int, weight: int, i: nat)
    requires i < k <= |a| && weight >= 1
    ensures a[i] in SentTo(pages, a, k, shortage, weight, RightQueue(pages, a, i, shortage, weight))
  {
    if i == k - 1 {
      ShortageIsRelieved(pages, a, i, shortage, weight);
      hide Relief, ShortageAfter;
    } else {
      SentRight(pages, a, k - 1, shortage, weight, i);
      hide Relief, ShortageAfter;
    }
  }

  /** x comes from y by leaving out entries. */
  predicate Subsequence(x: seq<Entry>, y: seq<Entry>) {
    if x == [] then true
    else if y == [] then false
    else if x[|x| - 1] == y[|y| - 1] && Subsequence(x[..|x| - 1], y[..|y| - 1]) then true
    else Subsequence(x, y[..|y| - 1])
  }

  lemma SubsequenceNext(x: seq<Entry>, y: seq<Entry>, e: Entry)
    requires Subsequence(x, y)
    ensures Subsequence(x, y + [e]) && Subsequence(x + [e], y + [e])
  {
    assert (y + [e])[..|y|] == y && (x + [e])[..|x|] == x;
  }

  lemma SentNext(pages: seq<Page>, a: seq<Entry>, k: nat, shortage: int, weight: int, q: Queue)
    requires 0 < k <= |a|
    ensures var to := Destination(DirtyAt(pages, a[k - 1]), ShortageAfter(pages, a, k - 1, shortage, weight));
      SentTo(pages, a, k, shortage, weight, q) ==
        if to == q then SentTo(pages, a, k - 1, shortage, weight, q) + [a[k - 1]]
        else SentTo(pages, a, k - 1, shortage, weight, q)
  {
  }

  /** The pages sent to a queue keep their old order. */
  lemma {:induction false} SentInOrder(pages: seq<Page>, a: seq<Entry>, k: nat, shortage: int, weight: int, q: Queue)
    requires k <= |a|
    ensures Subsequence(SentTo(pages, a, k, shortage, weight, q), a[..k])
  {
    if k > 0 {
      hide *;
      var x, e := SentTo(pages, a, k - 1, shortage, weight, q), a[k - 1];
      SentInOrder(pages, a, k - 1, shortage, weight, q);
      SubsequenceNext(x, a[..k - 1], e);
      assert a[..k] == a[..k - 1] + [e];
      SentNext(pages, a, k, shortage, weight, q);
    }
  }

  lemma AppendMembers(s: seq<Entry>, e: Entry)
    ensures forall x :: x in s + [e] <==> x in s || x == e
  {
  }

  /** The pages taken are those sent to one queue or the other, and none is sent to both. */
  lemma {:induction false} SentSomewhere(pages: seq<Page>, a: seq<Entry>, k: nat, shortage: int, weight: int)
    requires k <= |a|
    ensures |SentTo(pages, a, k, shortage, weight, Inactive)| + |SentTo(pages, a, k, shortage, weight, Laundry)| == k
    ensures forall e :: e in a[..k] <==>
      e in SentTo(pages, a, k, shortage, weight, Inactive) || e in SentTo(pages, a, k, shortage, weight, Laundry)
  {
    if k > 0 {
      hide SentTo, ShortageAfter, DirtyAt;
      SentSomewhere(pages, a, k - 1, shortage, weight);
      SentNext(pages, a, k, shortage, weight, Inactive);
      SentNext(pages, a, k, shortage, weight, Laundry);
      assert a[..k] == a[..k - 1] + [a[k - 1]];
      var x, y := SentTo(pages, a, k - 1, shortage, weight, Inactive), SentTo(pages, a, k - 1, shortage, weight, Laundry);
      AppendMembers(x, a[k - 1]);
      AppendMembers(y, a[k - 1]);
      AppendMembers(a[..k - 1], a[k - 1]);
    }
  }

  // ---- the active scan -----------------------------------------------------------------

  lemma {:induction false} WithoutHead(pl: seq<Entry>, x: Entry)
    requires pl != [] && pl[0] == x
    ensures Without(pl, x) == pl[1..]
  {
  }

  /** A list without markers is as long as its count. */
  lemma {:induction false} OnlyPages(pl: seq<Entry>)
    requires forall e | e in pl :: e.P?
    ensures CountPages(pl) == |pl|
  {
    if pl != [] {
      assert pl[0] in pl;
      assert forall e | e in pl[1..] :: e in pl;
      OnlyPages(pl[1..]);
    }
  }

  /** The active list of a domain: no markers, and every entry is one of its pages. */
  lemma ActiveList(s: State, d: nat)
    requires Inv(s) && ListId(d, Active) in s.lists && ScanMarker !in s.lists[ListId(d, Active)].pl
    ensures var l := s.lists[ListId(d, Active)];
      && l.cnt == |l.pl|
      && forall i | 0 <= i < |l.pl| ::
           l.pl[i].P? && l.pl[i].p < |s.pages| && s.pages[l.pl[i].p].queue == Some(Active) && s.pages[l.pl[i].p].domain == d
  {
    var id := ListId(d, Active);
    var l := s.lists[id];
    assert ListOk(s.pages, id, l);
    forall e | e in l.pl
      ensures e.P? && OnList(s.pages, e.p, id)
    {
      match e
      case P(p) =>
      case InactHead =>
      case ScanMarker =>
    }
    OnlyPages(l.pl);
  }

  /** The head of the active list moves to the tail of another list. */
  function HeadMoved(lists: map<ListId, List>, d: nat, q: Queue): map<ListId, List>
    requires ListId(d, Active) in lists && Home(d, q) in lists && q != Active && lists[ListId(d, Active)].pl != []
  {
    var from, to := ListId(d, Active), Home(d, q);
    var head := lists[from].pl[0];
    lists[from := List(lists[from].pl[1..], lists[from].cnt - 1)][to := List(lists[to].pl + [head], lists[to].cnt + 1)]
  }

  lemma MoveHead(s: State, d: nat, m: Pid, q: Queue)
    requires Inv(s) && ListId(d, Active) in s.lists && q != Active
    requires s.lists[ListId(d, Active)].pl != [] && s.lists[ListId(d, Active)].pl[0] == P(m)
    ensures m < |s.pages| && s.pages[m].queue == Some(Active) && s.pages[m].domain == d
    ensures s.pages[m].wire == 0 && !s.pages[m].unmanaged && Home(d, q) in s.lists && Queued(s, m)
    ensures var t := Dequeued(s, m);
      && !Queued(t, m) && Accepts(t, m, q, false)
      && Enqueued(t, m, q, false).lists == HeadMoved(s.lists, d, q)
      && Enqueued(t, m, q, false).pages == s.pages[m := s.pages[m].(queue := Some(q))]
  {
    var id := ListId(d, Active);
    assert ListOk(s.pages, id, s.lists[id]);
    assert P(m) in s.lists[id].pl;
    assert OnList(s.pages, m, id);
    assert PageOk(s.pages[m], s.lists);
    WithoutHead(s.lists[id].pl, P(m));
    hide Inv, ListOk, PageOk, Without, OnList;
    assert s.pages[m := s.pages[m].(queue := None)][m := s.pages[m].(queue := Some(q))]
        == s.pages[m := s.pages[m].(queue := Some(q))];
  }

  function PagesOf(s: State, d: nat, q: Queue): seq<Entry>
    requires Home(d, q) in s.lists
  {
    s.lists[Home(d, q)].pl
  }

  predicate HasDomain(lists: map<ListId, List>, d: nat) {
    forall q: Queue :: Home(d, q) in lists
  }

  /** The three lists of a domain are as given; all others are as they were. */
  ghost predicate ListsAre(lists0: map<ListId, List>, lists: map<ListId, List>, d: nat,
                           active: seq<Entry>, inactive: seq<Entry>, laundry: seq<Entry>)
  {
    && HasDomain(lists0, d) && lists.Keys == lists0.Keys
    && lists[Home(d, Active)].pl == active && lists[Home(d, Inactive)].pl == inactive && lists[Home(d, Laundry)].pl == laundry
    && forall id | id in lists0 && id != Home(d, Active) && id != Home(d, Inactive) && id != Home(d, Laundry) ::
         lists[id] == lists0[id]
  }

  /** The state after k pages of the active list have been taken. */
  ghost predicate ActiveSoFar(s0: State, s: State, d: nat, k: nat, shortage0: int, weight: int, shortage: int)
    requires HasDomain(s0.lists, d)
  {
    var a := PagesOf(s0, d, Active);
    && k <= |a| && shortage == ShortageAfter(s0.pages, a, k, shortage0, weight)
    && ListsAre(s0.lists, s.lists, d, a[k..],
         PagesOf(s0, d, Inactive) + SentTo(s0.pages, a, k, shortage0, weight, Inactive),
         PagesOf(s0, d, Laundry) + SentTo(s0.pages, a, k, shortage0, weight, Laundry))
    && OnlyQueues(s0, s)
  }

  /** Of the pages, at most the queue fields have changed. */
  ghost predicate OnlyQueues(s0: State, s: State) {
    && |s.pages| == |s0.pages| && s.wireCount == s0.wireCount
    && forall p | 0 <= p < |s.pages| :: s.pages[p] == s0.pages[p].(queue := s.pages[p].queue)
  }

  lemma ActiveStart(s: State, d: nat, shortage: int, weight: int)
    requires HasDomain(s.lists, d)
    ensures ActiveSoFar(s, s, d, 0, shortage, weight, shortage)
  {
    assert PagesOf(s, d, Inactive) + [] == PagesOf(s, d, Inactive);
    assert PagesOf(s, d, Laundry) + [] == PagesOf(s, d, Laundry);
  }

  lemma ActiveStep(s0: State, s: State, s': State, d: nat, k: nat, shortage0: int, weight: int, shortage: int, m: Pid)
    requires HasDomain(s0.lists, d) && ActiveSoFar(s0, s, d, k, shortage0, weight, shortage)
    requires k < |PagesOf(s0, d, Active)| && PagesOf(s0, d, Active)[k] == P(m) && m < |s.pages|
    requires ListId(d, Active) in s.lists && Home(d, Destination(s.pages[m].dirty, shortage)) in s.lists
    requires s.lists[ListId(d, Active)].pl != []
    requires s'.lists == HeadMoved(s.lists, d, Destination(s.pages[m].dirty, shortage))
    requires s'.pages == s.pages[m := s.pages[m].(queue := Some(Destination(s.pages[m].dirty, shortage)))]
    requires s'.wireCount == s.wireCount
    ensures s.pages[m].dirty == DirtyAt(s0.pages, P(m))
    ensures ActiveSoFar(s0, s', d, k + 1, shortage0, weight,
      if shortage <= 0 then shortage else if s.pages[m].dirty then shortage - 1 else shortage - weight)
  {
    hide SentTo, HeadMoved, OnlyQueues, ListsAre, DirtyAt;
    var a, q := PagesOf(s0, d, Active), Destination(s.pages[m].dirty, shortage);
    OnlyQueueChanged(s0, s, s', m, q);
    SentNext(s0.pages, a, k + 1, shortage0, weight, Inactive);
    SentNext(s0.pages, a, k + 1, shortage0, weight, Laundry);
    var ina, lau := SentTo(s0.pages, a, k, shortage0, weight, Inactive), SentTo(s0.pages, a, k, shortage0, weight, Laundry);
    var ina0, lau0 := PagesOf(s0, d, Inactive), PagesOf(s0, d, Laundry);
    HeadMovedLists(s0.lists, s.lists, d, a[k..], ina0 + ina, lau0 + lau, q);
    assert a[k..][1..] == a[k + 1..] && a[k..][0] == P(m);
    assert (ina0 + ina) + [P(m)] == ina0 + (ina + [P(m)]) && (lau0 + lau) + [P(m)] == lau0 + (lau + [P(m)]);
    assert P(m) == a[k];
  }

  lemma HeadMovedLists(lists0: map<ListId, List>, lists: map<ListId, List>, d: nat,
                       active: seq<Entry>, inactive: seq<Entry>, laundry: seq<Entry>, q: Queue)
    requires ListsAre(lists0, lists, d, active, inactive, laundry) && active != [] && q != Active
    ensures ListId(d, Active) in lists && Home(d, q) in lists && lists[ListId(d, Active)].pl != []
    ensures ListsAre(lists0, HeadMoved(lists, d, q), d, active[1..],
      if q == Inactive then inactive + [active[0]] else inactive,
      if q == Laundry then laundry + [active[0]] else laundry)
  {
  }

  lemma OnlyQueueChanged(s0: State, s: State, s': State, m: Pid, q: Queue)
    requires OnlyQueues(s0, s) && m < |s.pages| && s'.wireCount == s.wireCount
    requires s'.pages == s.pages[m := s.pages[m].(queue := Some(q))]
    ensures OnlyQueues(s0, s') && s.pages[m].dirty == DirtyAt(s0.pages, P(m))
  {
  }

  /**
    Each of the first k pages is now on the laundry queue, if it was dirty and the pages
    before it had left a shortage, and else on the inactive queue.
   */
  ghost predicate QueuedRight(s0: State, s: State, d: nat, k: nat, shortage: int, weight: int)
    requires HasDomain(s0.lists, d)
  {
    var a := PagesOf(s0, d, Active);
    && k <= |a|
    && forall i | 0 <= i < k && a[i].P? ::
         a[i].p < |s.pages| && s.pages[a[i].p].queue == Some(RightQueue(s0.pages, a, i, shortage, weight))
  }

  lemma AllQueuedRight(s0: State, s: State, d: nat, k: nat, shortage0: int, weight: int, shortage: int)
    requires HasDomain(s0.lists, d) && ActiveSoFar(s0, s, d, k, shortage0, weight, shortage) && Inv(s) && weight >= 1
    ensures QueuedRight(s0, s, d, k, shortage0, weight)
  {
    var a := PagesOf(s0, d, Active);
    forall i | 0 <= i < k && a[i].P?
      ensures a[i].p < |s.pages| && s.pages[a[i].p].queue == Some(RightQueue(s0.pages, a, i, shortage0, weight))
    {
      var q := RightQueue(s0.pages, a, i, shortage0, weight);
      SentRight(s0.pages, a, k, shortage0, weight, i);
      hide SentTo, RightQueue, ShortageAfter;
      assert Home(d, q) in s.lists && a[i] in s.lists[Home(d, q)].pl;
      assert ListOk(s.pages, Home(d, q), s.lists[Home(d, q)]);
      assert OnList(s.pages, a[i].p, Home(d, q));
    }
  }

  lemma RemainingShortage(s0: State, s: State, d: nat, k: nat, shortage0: int, weight: int, shortage: int)
    requires HasDomain(s0.lists, d) && ActiveSoFar(s0, s, d, k, shortage0, weight, shortage) && weight >= 1
    ensures k <= |PagesOf(s0, d, Active)|
    ensures var left := shortage0 - Relief(s0.pages, PagesOf(s0, d, Active), k, weight);
      (shortage > 0 <==> left > 0) && (left > 0 ==> shortage == left)
  {
    hide ListsAre, OnlyQueues;
    ShortageIsRelieved(s0.pages, PagesOf(s0, d, Active), k, shortage0, weight);
  }

  /** The active scan in FIFO order (vm_pageout.c:1413-1550). */
  method ActiveScan(vm: Vm, d: nat, minScan: int, shortage0: int, weight: int) returns (shortage: int, scanned: nat)
    requires vm.Valid() && weight >= 1 && HasDomain(vm.lists, d)
    requires ScanMarker !in PagesOf(vm.S(), d, Active)
    modifies vm
    ensures vm.Valid()
    ensures StopsAt(old(vm.pages), PagesOf(old(vm.S()), d, Active), scanned, shortage0, weight, minScan)
    ensures ActiveSoFar(old(vm.S()), vm.S(), d, scanned, shortage0, weight, shortage)
    ensures QueuedRight(old(vm.S()), vm.S(), d, scanned, shortage0, weight)
    ensures var left := shortage0 - Relief(old(vm.pages), PagesOf(old(vm.S()), d, Active), scanned, weight);
      (shortage > 0 <==> left > 0) && (left > 0 ==> shortage == left)
    ensures weight == 1 ==>
      scanned == Min(|PagesOf(old(vm.S()), d, Active)|, Max(Max(minScan, shortage0), 0))
  {
    hide ActiveSoFar, ShortageAfter, SentTo, Inv, GoesOn, PagesOf, Home, QueuedRight, Relief;
    ghost var s0 := vm.S();
    ghost var a := PagesOf(s0, d, Active);
    AllPages(s0, d);
    ActiveStart(s0, d, shortage0, weight);
    var m, maxscan := FirstActive(vm, d);
    scanned, shortage := 0, shortage0;
    while m.Some? && (scanned < minScan || (shortage > 0 && scanned < maxscan))
      invariant vm.Valid() && scanned <= |a|
      invariant ActiveSoFar(s0, vm.S(), d, scanned, shortage0, weight, shortage)
      invariant m == if scanned < |a| then Some(a[scanned]) else None
      invariant forall j | 0 <= j < scanned :: GoesOn(s0.pages, a, j, shortage0, weight, minScan)
      decreases |a| - scanned
    {
      LoopTest(s0, vm.S(), d, scanned, shortage0, weight, shortage, minScan);
      var next;
      shortage, next := ActiveTurn(vm, d, m.value.p, shortage, weight, s0, scanned, shortage0);
      m := next;
      scanned := scanned + 1;
    }
    LoopTest(s0, vm.S(), d, scanned, shortage0, weight, shortage, minScan);
    if weight == 1 {
      FifoLength(s0.pages, a, scanned, shortage0, minScan);
    }
    AllQueuedRight(s0, vm.S(), d, scanned, shortage0, weight, shortage);
    RemainingShortage(s0, vm.S(), d, scanned, shortage0, weight, shortage);
  }

  lemma AllPages(s: State, d: nat)
    requires Inv(s) && HasDomain(s.lists, d) && ScanMarker !in PagesOf(s, d, Active)
    ensures forall i | 0 <= i < |PagesOf(s, d, Active)| :: PagesOf(s, d, Active)[i].P?
    ensures s.lists[Home(d, Active)].cnt == |PagesOf(s, d, Active)|
  {
    ActiveList(s, d);
    hide Inv;
  }

  method FirstActive(vm: Vm, d: nat) returns (m: Option<Entry>, cnt: int)
    requires HasDomain(vm.lists, d)
    ensures cnt == vm.lists[Home(d, Active)].cnt
    ensures var a := PagesOf(vm.S(), d, Active); m == if a == [] then None else Some(a[0])
  {
    var l := vm.lists[Home(d, Active)];
    m, cnt := if l.pl == [] then None else Some(l.pl[0]), l.cnt;
  }

  lemma LoopTest(s0: State, s: State, d: nat, k: nat, shortage0: int, weight: int, shortage: int, minScan: int)
    requires HasDomain(s0.lists, d) && ActiveSoFar(s0, s, d, k, shortage0, weight, shortage)
    ensures var a := PagesOf(s0, d, Active);
      && k <= |a|
      && (k < |a| && (k < minScan || (shortage > 0 && k < |a|)) <==> GoesOn(s0.pages, a, k, shortage0, weight, minScan))
  {
  }

  /** One turn of the loop; `next` was read before the page left the list. */
  method ActiveTurn(vm: Vm, d: nat, m: Pid, shortage: int, weight: int, ghost s0: State, ghost k: nat, ghost shortage0: int)
    returns (shortage': int, next: Option<Entry>)
    requires vm.Valid() && HasDomain(s0.lists, d) && ActiveSoFar(s0, vm.S(), d, k, shortage0, weight, shortage)
    requires k < |PagesOf(s0, d, Active)| && PagesOf(s0, d, Active)[k] == P(m)
    modifies vm
    ensures vm.Valid() && ActiveSoFar(s0, vm.S(), d, k + 1, shortage0, weight, shortage')
    ensures next == if k + 1 < |PagesOf(s0, d, Active)| then Some(PagesOf(s0, d, Active)[k + 1]) else None
  {
    SoFarMeans(s0, vm.S(), d, k, shortage0, weight, shortage);
    hide ActiveSoFar, Inv, HasDomain, PagesOf;
    var pl := vm.lists[ListId(d, Active)].pl;
    next := if |pl| > 1 then Some(pl[1]) else None;
    ghost var s := vm.S();
    shortage' := TakeHead(vm, d, m, shortage, weight);
    ActiveStep(s0, s, vm.S(), d, k, shortage0, weight, shortage, m);
  }

  lemma SoFarMeans(s0: State, s: State, d: nat, k: nat, shortage0: int, weight: int, shortage: int)
    requires HasDomain(s0.lists, d) && ActiveSoFar(s0, s, d, k, shortage0, weight, shortage)
    ensures k <= |PagesOf(s0, d, Active)| && shortage == ShortageAfter(s0.pages, PagesOf(s0, d, Active), k, shortage0, weight)
    ensures ListId(d, Active) in s.lists && s.lists[ListId(d, Active)].pl == PagesOf(s0, d, Active)[k..]
    ensures HasDomain(s.lists, d)
  {
  }

  /** The loop body for one page (vm_pageout.c:1459-1473). */
  method TakeHead(vm: Vm, d: nat, m: Pid, shortage: int, weight: int) returns (shortage': int)
    requires vm.Valid() && ListId(d, Active) in vm.lists && vm.lists[ListId(d, Active)].pl != []
    requires vm.lists[ListId(d, Active)].pl[0] == P(m)
    modifies vm
    ensures vm.Valid() && m < |old(vm.pages)| && vm.wireCount == old(vm.wireCount)
    ensures var q := Destination(old(vm.pages)[m].dirty, shortage);
      && Home(d, q) in old(vm.lists)
      && vm.lists == HeadMoved(old(vm.lists), d, q)
      && vm.pages == old(vm.pages)[m := old(vm.pages)[m].(queue := Some(q))]
    ensures shortage' == if shortage <= 0 then shortage else if old(vm.pages)[m].dirty then shortage - 1 else shortage - weight
  {
    MoveHead(vm.S(), d, m, Inactive);
    MoveHead(vm.S(), d, m, Laundry);
    hide Inv, Dequeued, Enqueued, HeadMoved;
    shortage' := shortage;
    vm.Dequeue(m);
    if shortage <= 0 {
      vm.Deactivate(m, false);
    } else {
      if !vm.pages[m].dirty {
        vm.Deactivate(m, false);
        shortage' := shortage' - weight;
      } else {
        vm.Launder(m);
        shortage' := shortage' - 1;
      }
    }
  }
}
