/**
  The inactive scan of the page daemon (asgn3/vm_pageout.c:1188-1363): it frees
  clean pages, launders dirty ones and keeps its place with a marker.

  Page and object locks are always obtained; what the mappings know of
  modifications is a field of the page.
 */
module InactiveScan {
  import opened Lists
  import opened Wrappers
  import opened PageQueues
  import opened PageTypes
  import PS = PageScan

  // ---- what becomes of a page ---------------------------------------------------------

  datatype Fate = Skipped | Stuck | Reclaimed | Laundered | Left

  /** vm_page_test_dirty asks the mappings, if there may be any. */
  predicate StillDirty(page: Page) {
    page.dirty || (page.refd && page.mapDirty)
  }

  /**
    Held and busy pages stay; invalid and clean ones are freed; dirty ones go to the
    laundry, or, if their object is being destroyed, are left to its destroyer.
   */
  function FateOf(page: Page): Fate {
    if page.held || page.busy != Unbusied then Stuck
    else if !page.valid || !StillDirty(page) then Reclaimed
    else if !page.dead then Laundered
    else Left
  }

  function FateAt(pages: seq<Page>, e: Entry): Fate {
    if e.P? && e.p < |pages| then FateOf(pages[e.p]) else Skipped
  }

  function PageAfter(page: Page): Page {
    match FateOf(page)
    case Reclaimed => Freed(page.(queue := None))
    case Laundered => page.(queue := Some(Laundry), dirty := true)
    case Left => page.(queue := None, dirty := true)
    case _ => page
  }

  /** Freeing the page would lose data: it is valid, and modified as far as it or its mappings know. */
  predicate HoldsData(page: Page) {
    page.valid && (page.dirty || (page.refd && page.mapDirty))
  }

  /**
    What the scan owes a page that it has looked at: one in use is left alone; one that
    holds data keeps it, marked dirty, for the laundry or for the destroyer of its
    object; only one that holds none is freed.
   */
  ghost predicate RightlyTreated(page: Page, page': Page) {
    if page.held || page.busy != Unbusied then page' == page
    else if HoldsData(page) then page' == page.(queue := if page.dead then None else Some(Laundry), dirty := true)
    else
      && page'.queue == None && !page'.hasObject && !page'.valid && !page'.dirty
      && page' == page.(queue := None, hasObject := false, valid := false, dirty := false)
  }

  lemma FateIsRight(page: Page)
    ensures RightlyTreated(page, PageAfter(page))
    ensures FateOf(page) == Stuck <==> page.held || page.busy != Unbusied
    ensures FateOf(page) == Reclaimed <==> !page.held && page.busy == Unbusied && !HoldsData(page)
    ensures FateOf(page) == Laundered <==> !page.held && page.busy == Unbusied && HoldsData(page) && !page.dead
  {
  }

  /** Those of the first k entries that meet fate f, in order. */
  function Those(pages: seq<Page>, a: seq<Entry>, k: nat, f: Fate): seq<Entry>
    requires k <= |a|
  {
    if k == 0 then []
    else Those(pages, a, k - 1, f) + if FateAt(pages, a[k - 1]) == f then [a[k - 1]] else []
  }

  /** Those of the first k entries that stay on the list. */
  function Kept(pages: seq<Page>, a: seq<Entry>, k: nat): seq<Entry>
    requires k <= |a|
  {
    if k == 0 then []
    else Kept(pages, a, k - 1) + if FateAt(pages, a[k - 1]) in {Skipped, Stuck} then [a[k - 1]] else []
  }

  /** The loop goes on after k entries: each of them, the marker included, counts against maxscan. */
  predicate GoesOn(pages: seq<Page>, a: seq<Entry>, k: nat, maxscan: int, shortage: int) {
    k < |a| && k < maxscan && shortage - |Those(pages, a, k, Reclaimed)| > 0
  }

  ghost predicate StopsAt(pages: seq<Page>, a: seq<Entry>, k: nat, maxscan: int, shortage: int) {
    && k <= |a| && !GoesOn(pages, a, k, maxscan, shortage)
    && forall j | 0 <= j < k :: GoesOn(pages, a, j, maxscan, shortage)
  }

  /** Every page looked at is freed, laundered, stuck, or left off the queues; together they are the entries looked at. */
  lemma {:induction false} FatesAddUp(pages: seq<Page>, a: seq<Entry>, k: nat)
    requires k <= |a|
    ensures |Kept(pages, a, k)| + |Those(pages, a, k, Reclaimed)| + |Those(pages, a, k, Laundered)|
      + |Those(pages, a, k, Left)| == k
    ensures |Those(pages, a, k, Skipped)| + |Those(pages, a, k, Stuck)| == |Kept(pages, a, k)|
  {
    if k > 0 {
      FatesAddUp(pages, a, k - 1);
    }
  }

  /** No more pages are freed than asked for. */
  lemma NeverTooMany(pages: seq<Page>, a: seq<Entry>, k: nat, maxscan: int, shortage: int)
    requires StopsAt(pages, a, k, maxscan, shortage)
    ensures shortage >= 0 ==> |Those(pages, a, k, Reclaimed)| <= shortage
  {
    if k > 0 {
      assert GoesOn(pages, a, k - 1, maxscan, shortage);
    }
  }

  lemma {:induction false} ThoseGrow(pages: seq<Page>, a: seq<Entry>, j: nat, k: nat, f: Fate)
    requires j <= k <= |a|
    ensures |Those(pages, a, j, f)| <= |Those(pages, a, k, f)|
  {
    if j < k {
      ThoseGrow(pages, a, j, k - 1, f);
    }
  }

  /**
    The marker on the list counts against the number of pages.  The scan looks at
    all entries but the last exactly if those before it do not hold enough pages
    that can be freed, and then never at the last one; that entry is a page,
    which is missed, unless the marker has come to be the tail of the list.
   */
  lemma LastIsMissed(pages: seq<Page>, a: seq<Entry>, k: nat, shortage: int)
    requires a != [] && StopsAt(pages, a, k, |a| - 1, shortage)
    ensures k <= |a| - 1
    ensures k == |a| - 1 <==> |a| == 1 || |Those(pages, a, |a| - 2, Reclaimed)| < shortage
    ensures |Those(pages, a, |a| - 1, Reclaimed)| < shortage ==> k == |a| - 1
    ensures k == |a| - 1 ==> ((exists i :: k <= i < |a| && a[i].P?) <==> a[|a| - 1].P?)
  {
    var n := |a| - 1;
    if k > 0 {
      assert GoesOn(pages, a, k - 1, n, shortage);
    }
    if n > 0 {
      ThoseGrow(pages, a, n - 1, n, Reclaimed);
      if k < n {
        ThoseGrow(pages, a, k, n - 1, Reclaimed);
      }
    }
  }

  /** The inactive list at rest: one marker, so one entry more than its count. */
  lemma InactiveLength(s: State, d: nat)
    requires Inv(s) && ListId(d, Inactive) in s.lists && ScanMarker !in s.lists[ListId(d, Inactive)].pl
    ensures var l := s.lists[ListId(d, Inactive)];
      && l.cnt == |l.pl| - 1 && NoDup(l.pl)
      && forall i | 0 <= i < |l.pl| :: l.pl[i] == InactHead || (l.pl[i].P? && OnList(s.pages, l.pl[i].p, ListId(d, Inactive)))
  {
    var id := ListId(d, Inactive);
    var pl := s.lists[id].pl;
    assert ListOk(s.pages, id, s.lists[id]);
    var i := IndexOf(pl, InactHead);
    var x, y := pl[..i], pl[i + 1..];
    assert pl == x + [InactHead] + y;
    forall e | e in x + y
      ensures e.P?
    {
      assert e in pl;
      assert e != InactHead;
    }
    PS.OnlyPages(x + y);
    CountConcat(x, y);
    CountConcat(x + [InactHead], y);
    CountConcat(x, [InactHead]);
    assert CountPages([InactHead]) == 0;
    forall j | 0 <= j < |pl|
      ensures pl[j] == InactHead || (pl[j].P? && OnList(s.pages, pl[j].p, id))
    {
      assert pl[j] in pl;
    }
  }

  // ---- one page ---------------------------------------------------------------------

  /** TAILQ_NEXT */
  function NextOf(pl: seq<Entry>, e: Entry): Option<Entry>
    requires e in pl
  {
    var i := IndexOf(pl, e);
    if i + 1 < |pl| then Some(pl[i + 1]) else None
  }

  lemma {:induction false} IndexSplit(x: seq<Entry>, e: Entry, y: seq<Entry>)
    requires e !in x
    ensures e in x + [e] + y && IndexOf(x + [e] + y, e) == |x|
  {
    var pl := x + [e] + y;
    assert pl[|x|] == e;
    if x != [] {
      assert pl[1..] == x[1..] + [e] + y;
      IndexSplit(x[1..], e, y);
    }
  }

  function FirstOf(q: seq<Entry>): Option<Entry> {
    if q == [] then None else Some(q[0])
  }

  lemma NextSplit(x: seq<Entry>, e: Entry, y: seq<Entry>)
    requires e !in x
    ensures e in x + [e] + y && NextOf(x + [e] + y, e) == FirstOf(y)
  {
    IndexSplit(x, e, y);
  }

  /** The marker goes in right behind page m (vm_pageout.c:1273). */
  method PutMarker(vm: Vm, id: ListId, m: Pid, ghost x: seq<Entry>, ghost y: seq<Entry>)
    requires vm.Valid() && id in vm.lists && vm.lists[id].pl == x + [P(m)] + y && ScanMarker !in vm.lists[id].pl
    modifies vm`lists
    ensures vm.Valid()
    ensures vm.lists == old(vm.lists)[id := List(x + [P(m), ScanMarker] + y, old(vm.lists[id].cnt))]
  {
    MarkerKeeps(vm.S(), id, x + [P(m)], y);
    assert P(m) !in x by { NotBefore(vm.S(), id, x, P(m), y); }
    IndexSplit(x, P(m), y);
    hide Inv, IndexOf;
    var l := vm.lists[id];
    var i := IndexOf(l.pl, P(m)) + 1;
    l := l.(pl := l.pl[..i] + [ScanMarker] + l.pl[i..]);
    assert l.pl == x + [P(m)] + [ScanMarker] + y == x + [P(m), ScanMarker] + y;
    vm.lists := vm.lists[id := l];
  }

  lemma NotBefore(s: State, id: ListId, x: seq<Entry>, e: Entry, y: seq<Entry>)
    requires Inv(s) && id in s.lists && s.lists[id].pl == x + [e] + y
    ensures e !in x && e !in y
  {
    assert ListOk(s.pages, id, s.lists[id]);
    var pl := s.lists[id].pl;
    assert pl[|x|] == e;
    assert forall i | 0 <= i < |x| :: x[i] == pl[i];
    assert forall i | 0 <= i < |y| :: y[i] == pl[|x| + 1 + i];
  }

  /** A marker in between changes nothing that the invariant speaks of. */
  lemma MarkerKeeps(s: State, id: ListId, x: seq<Entry>, y: seq<Entry>)
    requires id in s.lists && (s.lists[id].pl == x + y || s.lists[id].pl == x + [ScanMarker] + y)
    requires ScanMarker !in x + y && Inv(s)
    ensures Inv(s.(lists := s.lists[id := s.lists[id].(pl := x + [ScanMarker] + y)]))
    ensures Inv(s.(lists := s.lists[id := s.lists[id].(pl := x + y)]))
  {
    assert ListOk(s.pages, id, s.lists[id]);
    MarkerList(s.pages, id, s.lists[id], x, y);
    hide ListOk;
    ReplaceList(s, id, s.lists[id].(pl := x + [ScanMarker] + y));
    ReplaceList(s, id, s.lists[id].(pl := x + y));
  }

  lemma ReplaceList(s: State, id: ListId, l: List)
    requires Inv(s) && id in s.lists && ListOk(s.pages, id, l)
    ensures Inv(s.(lists := s.lists[id := l]))
  {
    hide ListOk;
    var s' := s.(lists := s.lists[id := l]);
    forall p | 0 <= p < |s.pages|
      ensures PageOk(s.pages[p], s'.lists)
    {
      assert PageOk(s.pages[p], s.lists);
    }
  }

  lemma MarkerList(pages: seq<Page>, id: ListId, l: List, x: seq<Entry>, y: seq<Entry>)
    requires ListOk(pages, id, l) && (l.pl == x + y || l.pl == x + [ScanMarker] + y) && ScanMarker !in x + y
    ensures ListOk(pages, id, l.(pl := x + [ScanMarker] + y)) && ListOk(pages, id, l.(pl := x + y))
  {
    NoDupAround(x, ScanMarker, y);
    CountConcat(x, y);
    CountConcat(x + [ScanMarker], y);
    CountConcat(x, [ScanMarker]);
    assert CountPages([ScanMarker]) == 0;
    hide CountPages, NoDup;
    assert forall e :: e in x + [ScanMarker] + y <==> e in x + y || e == ScanMarker;
  }

  lemma NoDupAround(x: seq<Entry>, e: Entry, y: seq<Entry>)
    requires NoDup(x + y) || NoDup(x + [e] + y)
    requires e !in x + y
    ensures NoDup(x + y) && NoDup(x + [e] + y)
  {
    var long, short := x + [e] + y, x + y;
    if NoDup(long) {
      assert forall i | 0 <= i < |short| :: short[i] == long[if i < |x| then i else i + 1];
    }
    InsertProps(x, e, y);
  }

  /** Back to the place that the marker kept (vm_pageout.c:1360-1361). */
  method TakeMarker(vm: Vm, id: ListId, ghost x: seq<Entry>, ghost y: seq<Entry>) returns (next: Option<Entry>)
    requires vm.Valid() && id in vm.lists && vm.lists[id].pl == x + [ScanMarker] + y && ScanMarker !in x + y
    modifies vm`lists
    ensures vm.Valid() && next == FirstOf(y)
    ensures vm.lists == old(vm.lists)[id := List(x + y, old(vm.lists[id].cnt))]
  {
    MarkerKeeps(vm.S(), id, x, y);
    NextSplit(x, ScanMarker, y);
    WithoutSplit(x, ScanMarker, y);
    hide Inv, Without, NextOf;
    var l := vm.lists[id];
    next := NextOf(l.pl, ScanMarker);
    l := l.(pl := Without(l.pl, ScanMarker));
    vm.lists := vm.lists[id := l];
  }

  /** The laundry list gets a page, or not. */
  function WithLaundry(lists: map<ListId, List>, m: Pid, laundered: bool): map<ListId, List>
    requires ListId(0, Laundry) in lists
  {
    var l := lists[ListId(0, Laundry)];
    if laundered then lists[ListId(0, Laundry) := List(l.pl + [P(m)], l.cnt + 1)] else lists
  }

  /** What happens to a page that has been taken off the list (vm_pageout.c:1278-1351). */
  method Dispose(vm: Vm, m: Pid) returns (freed: bool)
    requires vm.Valid() && m < |vm.pages| && ListId(0, Laundry) in vm.lists
    requires var page := vm.pages[m];
      page.queue == None && page.wire == 0 && !page.unmanaged && !page.held && page.busy == Unbusied
    modifies vm
    ensures vm.Valid() && vm.wireCount == old(vm.wireCount)
    ensures vm.pages == old(vm.pages)[m := PageAfter(old(vm.pages[m]))]
    ensures vm.lists == WithLaundry(old(vm.lists), m, FateOf(old(vm.pages[m])) == Laundered)
    ensures freed <==> FateOf(old(vm.pages[m])) == Reclaimed
  {
    ghost var page := vm.pages[m];
    freed := false;
    if vm.pages[m].valid && vm.pages[m].refd && vm.pages[m].mapDirty {
      PlainKeeps(vm.S(), m, vm.pages[m].(dirty := true));
      vm.pages := vm.pages[m := vm.pages[m].(dirty := true)];
    }
    hide Inv;
    if !vm.pages[m].valid || !vm.pages[m].dirty {
      var ok := vm.FreePrep(m);
      freed := true;
      assert vm.pages == old(vm.pages)[m := PageAfter(page)];
    } else {
      assert vm.pages[m] == page.(dirty := true);
      if !vm.pages[m].dead {
        LaunderMeans(vm.S(), m);
        vm.Launder(m);
        assert vm.pages == old(vm.pages)[m := PageAfter(page)];
      }
    }
  }

  lemma LaunderMeans(s: State, m: Pid)
    requires m < |s.pages| && s.pages[m].queue == None && ListId(0, Laundry) in s.lists
    ensures Accepts(Off(s, m), m, Laundry, false)
    ensures Moved(s, m, Laundry, false) ==
      s.(pages := s.pages[m := s.pages[m].(queue := Some(Laundry))], lists := WithLaundry(s.lists, m, true))
  {
  }

  /** The page leaves the list, and a marker takes its place (vm_pageout.c:1273-1274). */
  method SwapForMarker(vm: Vm, d: nat, m: Pid, ghost x: seq<Entry>, ghost y: seq<Entry>)
    requires vm.Valid() && ListId(d, Inactive) in vm.lists && vm.lists[ListId(d, Inactive)].pl == x + [P(m)] + y
    requires ScanMarker !in x + [P(m)] + y
    modifies vm
    ensures vm.Valid() && vm.wireCount == old(vm.wireCount) && m < |old(vm.pages)|
    ensures vm.pages == old(vm.pages)[m := old(vm.pages)[m].(queue := None)]
    ensures vm.lists == old(vm.lists)[ListId(d, Inactive) :=
      List(x + [ScanMarker] + y, old(vm.lists[ListId(d, Inactive)].cnt) - 1)]
    ensures old(vm.pages)[m].wire == 0 && !old(vm.pages)[m].unmanaged
  {
    var id := ListId(d, Inactive);
    OnInactive(vm.S(), d, m, x, y);
    hide Inv, Without;
    PutMarker(vm, id, m, x, y);
    TakenOut(vm.S(), id, m, x, y);
    vm.Dequeue(m);
  }

  /** A page that is neither held nor busy (vm_pageout.c:1273-1361). */
  method Process(vm: Vm, d: nat, m: Pid, ghost x: seq<Entry>, ghost y: seq<Entry>) returns (freed: bool, next: Option<Entry>)
    requires vm.Valid() && ListId(0, Laundry) in vm.lists
    requires ListId(d, Inactive) in vm.lists && vm.lists[ListId(d, Inactive)].pl == x + [P(m)] + y
    requires ScanMarker !in x + [P(m)] + y
    requires m < |vm.pages| && FateOf(vm.pages[m]) != Stuck
    modifies vm
    ensures vm.Valid() && vm.wireCount == old(vm.wireCount) && next == FirstOf(y)
    ensures freed <==> FateOf(old(vm.pages[m])) == Reclaimed
    ensures vm.pages == old(vm.pages)[m := PageAfter(old(vm.pages[m]))]
    ensures vm.lists == WithLaundry(
      old(vm.lists)[ListId(d, Inactive) := List(x + y, old(vm.lists[ListId(d, Inactive)].cnt) - 1)],
      m, FateOf(old(vm.pages[m])) == Laundered)
  {
    hide Inv, FateOf, PageAfter;
    ghost var page := vm.pages[m];
    SwapForMarker(vm, d, m, x, y);
    FateIgnoresQueue(page);
    freed := Dispose(vm, m);
    next := TakeMarker(vm, ListId(d, Inactive), x, y);
    assert vm.pages == old(vm.pages)[m := PageAfter(page)];
  }

  lemma FateIgnoresQueue(page: Page)
    ensures FateOf(page.(queue := None)) == FateOf(page)
    ensures FateOf(page) != Stuck ==> PageAfter(page.(queue := None)) == PageAfter(page)
    ensures FateOf(page) != Stuck ==> !page.held && page.busy == Unbusied
  {
  }

  lemma OnInactive(s: State, d: nat, m: Pid, x: seq<Entry>, y: seq<Entry>)
    requires Inv(s) && ListId(d, Inactive) in s.lists && s.lists[ListId(d, Inactive)].pl == x + [P(m)] + y
    ensures m < |s.pages| && s.pages[m].queue == Some(Inactive) && s.pages[m].domain == d
    ensures s.pages[m].wire == 0 && !s.pages[m].unmanaged
    ensures P(m) !in x && P(m) !in y
  {
    var id := ListId(d, Inactive);
    NotBefore(s, id, x, P(m), y);
    assert ListOk(s.pages, id, s.lists[id]);
    assert s.lists[id].pl[|x|] == P(m);
    assert OnList(s.pages, m, id);
    assert PageOk(s.pages[m], s.lists);
  }

  lemma TakenOut(s: State, id: ListId, m: Pid, x: seq<Entry>, y: seq<Entry>)
    requires id in s.lists && s.lists[id].pl == x + [P(m), ScanMarker] + y && P(m) !in x
    ensures Without(s.lists[id].pl, P(m)) == x + [ScanMarker] + y
  {
    WithoutSplit(x, P(m), [ScanMarker] + y);
    hide Without;
    assert x + [P(m), ScanMarker] + y == x + [P(m)] + ([ScanMarker] + y);
    assert x + ([ScanMarker] + y) == x + [ScanMarker] + y;
  }

  // ---- the loop --------------------------------------------------------------------

  /** The pages after the first k entries have been dealt with. */
  ghost predicate PagesSoFar(pages0: seq<Page>, pages: seq<Page>, a: seq<Entry>, k: nat)
    requires k <= |a|
  {
    && |pages| == |pages0|
    && (forall i | 0 <= i < k && a[i].P? && a[i].p < |pages0| :: pages[a[i].p] == PageAfter(pages0[a[i].p]))
    && (forall p | 0 <= p < |pages0| && P(p) !in a[..k] :: pages[p] == pages0[p])
  }

  /** The inactive list of the domain and the laundry list are as given; all others are as they were. */
  ghost predicate ListsAre(lists0: map<ListId, List>, lists: map<ListId, List>, d: nat,
                           inactive: seq<Entry>, laundry: seq<Entry>)
  {
    && lists.Keys == lists0.Keys && ListId(d, Inactive) in lists && ListId(0, Laundry) in lists
    && lists[ListId(d, Inactive)].pl == inactive && lists[ListId(0, Laundry)].pl == laundry
    && forall id | id in lists0 && id != ListId(d, Inactive) && id != ListId(0, Laundry) :: lists[id] == lists0[id]
  }

  predicate HasLists(lists: map<ListId, List>, d: nat) {
    ListId(d, Inactive) in lists && ListId(0, Laundry) in lists
  }

  /** The state after the first k entries of the inactive list. */
  ghost predicate InactiveSoFar(s0: State, s: State, d: nat, k: nat)
    requires HasLists(s0.lists, d)
  {
    var a := s0.lists[ListId(d, Inactive)].pl;
    && k <= |a| && s.wireCount == s0.wireCount
    && ListsAre(s0.lists, s.lists, d, Kept(s0.pages, a, k) + a[k..],
         s0.lists[ListId(0, Laundry)].pl + Those(s0.pages, a, k, Laundered))
    && PagesSoFar(s0.pages, s.pages, a, k)
  }

  lemma SoFarStart(s: State, d: nat)
    requires HasLists(s.lists, d)
    ensures InactiveSoFar(s, s, d, 0)
  {
    var a := s.lists[ListId(d, Inactive)].pl;
    assert [] + a[0..] == a;
    assert s.lists[ListId(0, Laundry)].pl + [] == s.lists[ListId(0, Laundry)].pl;
  }

  lemma {:induction false} KeptIn(pages: seq<Page>, a: seq<Entry>, k: nat)
    requires k <= |a|
    ensures forall e | e in Kept(pages, a, k) :: e in a[..k]
  {
    if k > 0 {
      KeptIn(pages, a, k - 1);
      assert a[..k] == a[..k - 1] + [a[k - 1]];
    }
  }

  /** Entry k, between those kept before it and those still to come. */
  lemma AtTurn(s0: State, s: State, d: nat, k: nat)
    requires HasLists(s0.lists, d) && InactiveSoFar(s0, s, d, k) && Inv(s)
    requires var a := s0.lists[ListId(d, Inactive)].pl; k < |a| && NoDup(a) && ScanMarker !in a
    ensures var a := s0.lists[ListId(d, Inactive)].pl;
      var x, y := Kept(s0.pages, a, k), a[k + 1..];
      && ListId(d, Inactive) in s.lists && ListId(0, Laundry) in s.lists
      && s.lists[ListId(d, Inactive)].pl == x + [a[k]] + y && a[k] !in x && ScanMarker !in x + [a[k]] + y
      && FateAt(s.pages, a[k]) == FateAt(s0.pages, a[k])
      && (a[k].P? && a[k].p < |s0.pages| ==> a[k].p < |s.pages| && s.pages[a[k].p] == s0.pages[a[k].p])
  {
    var a := s0.lists[ListId(d, Inactive)].pl;
    var x, y := Kept(s0.pages, a, k), a[k + 1..];
    hide Kept, Those, Inv, NoDup, FateOf;
    KeptIn(s0.pages, a, k);
    SplitAt(x, a, k);
  }

  lemma SplitAt(x: seq<Entry>, a: seq<Entry>, k: nat)
    requires k < |a| && NoDup(a) && ScanMarker !in a && forall e | e in x :: e in a[..k]
    ensures x + a[k..] == x + [a[k]] + a[k + 1..]
    ensures a[k] !in x && a[k] !in a[..k] && ScanMarker !in x + [a[k]] + a[k + 1..]
  {
    var y := a[k + 1..];
    assert a[k..] == [a[k]] + y;
    assert forall i | 0 <= i < k :: a[i] != a[k];
    assert forall e | e in y || e in a[..k] :: e in a;
  }

  lemma Same(s0: State, s: State, d: nat, k: nat)
    requires HasLists(s0.lists, d) && InactiveSoFar(s0, s, d, k)
    requires var a := s0.lists[ListId(d, Inactive)].pl;
      k < |a| && FateAt(s0.pages, a[k]) in {Skipped, Stuck} && (a[k].P? ==> a[k].p < |s0.pages|) && NoDup(a)
    ensures InactiveSoFar(s0, s, d, k + 1)
  {
    var a := s0.lists[ListId(d, Inactive)].pl;
    var x := Kept(s0.pages, a, k);
    assert x + [a[k]] + a[k + 1..] == x + a[k..];
    assert Those(s0.pages, a, k + 1, Laundered) == Those(s0.pages, a, k, Laundered);
    assert Kept(s0.pages, a, k + 1) == x + [a[k]];
    hide Kept, Those, ListsAre;
    PagesNext(s0.pages, s.pages, s.pages, a, k);
  }

  lemma PagesNext(pages0: seq<Page>, pages: seq<Page>, pages': seq<Page>, a: seq<Entry>, k: nat)
    requires k < |a| && NoDup(a) && PagesSoFar(pages0, pages, a, k) && (a[k].P? ==> a[k].p < |pages0|)
    requires if a[k].P?
             then pages' == pages[a[k].p := PageAfter(pages0[a[k].p])] ||
                  (pages' == pages && PageAfter(pages0[a[k].p]) == pages0[a[k].p])
             else pages' == pages
    ensures PagesSoFar(pages0, pages', a, k + 1)
  {
    hide PageAfter;
    assert a[..k + 1] == a[..k] + [a[k]];
    assert forall i | 0 <= i < k :: a[i] != a[k];
    assert a[k] !in a[..k];
  }

  lemma Gone(s0: State, s: State, s': State, d: nat, k: nat, m: Pid)
    requires HasLists(s0.lists, d) && InactiveSoFar(s0, s, d, k)
    requires var a := s0.lists[ListId(d, Inactive)].pl;
      && k < |a| && a[k] == P(m) && m < |s0.pages| && FateOf(s0.pages[m]) != Stuck && NoDup(a)
      && s'.pages == s.pages[m := PageAfter(s0.pages[m])] && s'.wireCount == s.wireCount
      && HasLists(s.lists, d)
      && s'.lists == WithLaundry(s.lists[ListId(d, Inactive) :=
           List(Kept(s0.pages, a, k) + a[k + 1..], s.lists[ListId(d, Inactive)].cnt - 1)], m, FateOf(s0.pages[m]) == Laundered)
    ensures InactiveSoFar(s0, s', d, k + 1)
  {
    hide Kept, Those, PageAfter, ListsAre, PagesSoFar, WithLaundry, NoDup;
    var a := s0.lists[ListId(d, Inactive)].pl;
    var t := Those(s0.pages, a, k, Laundered);
    NextEntry(s0.pages, a, k);
    PagesNext(s0.pages, s.pages, s'.pages, a, k);
    GoneLists(s0.lists, s.lists, d, Kept(s0.pages, a, k) + a[k..], Kept(s0.pages, a, k) + a[k + 1..], t,
      m, FateOf(s0.pages[m]) == Laundered);
  }

  lemma NextEntry(pages: seq<Page>, a: seq<Entry>, k: nat)
    requires k < |a|
    ensures Kept(pages, a, k + 1) ==
      if FateAt(pages, a[k]) in {Skipped, Stuck} then Kept(pages, a, k) + [a[k]] else Kept(pages, a, k)
    ensures Those(pages, a, k + 1, Laundered) ==
      if FateAt(pages, a[k]) == Laundered then Those(pages, a, k, Laundered) + [a[k]] else Those(pages, a, k, Laundered)
  {
  }

  lemma GoneLists(lists0: map<ListId, List>, lists: map<ListId, List>, d: nat, old_: seq<Entry>, new_: seq<Entry>,
                  t: seq<Entry>, m: Pid, laundered: bool)
    requires HasLists(lists0, d) && ListsAre(lists0, lists, d, old_, lists0[ListId(0, Laundry)].pl + t)
    ensures HasLists(lists, d)
    ensures var mid := lists[ListId(d, Inactive) := List(new_, lists[ListId(d, Inactive)].cnt - 1)];
      var lists' := WithLaundry(mid, m, laundered);
      ListsAre(lists0, lists', d, new_, lists0[ListId(0, Laundry)].pl + if laundered then t + [P(m)] else t)
  {
    var l := lists0[ListId(0, Laundry)].pl;
    assert (l + t) + [P(m)] == l + (t + [P(m)]);
  }

  lemma ValidMeans(vm: Vm)
    requires vm.Valid()
    ensures Inv(vm.S())
  {
  }

  /** One turn of the loop (vm_pageout.c:1198-1361). */
  method InactiveTurn(vm: Vm, d: nat, m: Entry, ghost s0: State, ghost k: nat)
    returns (freed: bool, stuck: bool, next: Option<Entry>)
    requires vm.Valid() && HasLists(s0.lists, d) && InactiveSoFar(s0, vm.S(), d, k)
    requires var a := s0.lists[ListId(d, Inactive)].pl; k < |a| && a[k] == m && NoDup(a) && ScanMarker !in a
    requires m.P? ==> m.p < |s0.pages|
    modifies vm
    ensures vm.Valid() && InactiveSoFar(s0, vm.S(), d, k + 1)
    ensures freed <==> FateAt(s0.pages, m) == Reclaimed
    ensures stuck <==> FateAt(s0.pages, m) == Stuck
    ensures next == FirstOf(s0.lists[ListId(d, Inactive)].pl[k + 1..])
  {
    hide InactiveSoFar, Inv, NoDup, Kept, NextOf, FirstOf, PageAfter, WithLaundry, Vm.Valid;
    ghost var a := s0.lists[ListId(d, Inactive)].pl;
    ghost var x, y := Kept(s0.pages, a, k), a[k + 1..];
    assert Inv(vm.S()) by { ValidMeans(vm); }
    AtTurn(s0, vm.S(), d, k);
    NextSplit(x, m, y);
    freed, stuck := false, false;
    next := NextOf(vm.lists[ListId(d, Inactive)].pl, m);
    if !m.P? {
      Same(s0, vm.S(), d, k);
      return;
    }
    if vm.pages[m.p].held || vm.pages[m.p].busy != Unbusied {
      stuck := true;
      Same(s0, vm.S(), d, k);
      return;
    }
    ghost var s := vm.S();
    freed, next := Process(vm, d, m.p, x, y);
    Gone(s0, s, vm.S(), d, k, m.p);
  }

  /** The inactive scan (vm_pageout.c:1194-1363). */
  method InactiveScan(vm: Vm, d: nat, shortage0: int) returns (shortage: int, addlShortage: nat, scanned: nat)
    requires vm.Valid() && HasLists(vm.lists, d) && ScanMarker !in vm.lists[ListId(d, Inactive)].pl
    modifies vm
    ensures vm.Valid() && InactiveSoFar(old(vm.S()), vm.S(), d, scanned)
    ensures |vm.pages| == |old(vm.pages)| && TreatedRight(old(vm.S()), vm.S(), d, scanned)
    ensures var pages, a, cnt := old(vm.pages), old(vm.lists)[ListId(d, Inactive)].pl, old(vm.lists)[ListId(d, Inactive)].cnt;
      && cnt == |a| - 1 && StopsAt(pages, a, scanned, cnt, shortage0)
      && shortage == shortage0 - |Those(pages, a, scanned, Reclaimed)|
      && addlShortage == |Those(pages, a, scanned, Stuck)|
  {
    hide InactiveSoFar, Inv, NoDup, FirstOf, FateAt, Those, Kept, GoesOn, TreatedRight;
    ghost var s0 := vm.S();
    ghost var a, cnt := s0.lists[ListId(d, Inactive)].pl, s0.lists[ListId(d, Inactive)].cnt;
    ScanReady(s0, d);
    SoFarStart(s0, d);
    FatesNext(s0.pages, a, 0);
    var maxscan := vm.lists[ListId(d, Inactive)].cnt;
    var m := FirstOf(vm.lists[ListId(d, Inactive)].pl);
    shortage, addlShortage, scanned := shortage0, 0, 0;
    assert a[0..] == a;
    while m.Some? && maxscan > 0 && shortage > 0
      invariant vm.Valid() && scanned <= |a| && InactiveSoFar(s0, vm.S(), d, scanned)
      invariant m == FirstOf(a[scanned..]) && maxscan == cnt - scanned
      invariant shortage == shortage0 - |Those(s0.pages, a, scanned, Reclaimed)|
      invariant addlShortage == |Those(s0.pages, a, scanned, Stuck)|
      invariant forall j | 0 <= j < scanned :: GoesOn(s0.pages, a, j, cnt, shortage0)
      decreases |a| - scanned
    {
      FirstMeans(a, scanned);
      FatesNext(s0.pages, a, scanned);
      LoopTest(s0.pages, a, scanned, cnt, shortage0);
      var freed, stuck;
      freed, stuck, m := InactiveTurn(vm, d, m.value, s0, scanned);
      if freed {
        shortage := shortage - 1;
      }
      if stuck {
        addlShortage := addlShortage + 1;
      }
      maxscan, scanned := maxscan - 1, scanned + 1;
    }
    FirstMeans(a, scanned);
    LoopTest(s0.pages, a, scanned, cnt, shortage0);
    AllTreated(s0, vm.S(), d, scanned);
  }

  /** Each page looked at is treated rightly, and no other page changes. */
  ghost predicate TreatedRight(s0: State, s: State, d: nat, k: nat)
    requires HasLists(s0.lists, d)
  {
    var a := s0.lists[ListId(d, Inactive)].pl;
    && k <= |a|
    && (forall i | 0 <= i < k && a[i].P? ::
          a[i].p < |s0.pages| && a[i].p < |s.pages| && RightlyTreated(s0.pages[a[i].p], s.pages[a[i].p]))
    && (forall p | 0 <= p < |s0.pages| && p < |s.pages| && P(p) !in a[..k] :: s.pages[p] == s0.pages[p])
  }

  lemma AllTreated(s0: State, s: State, d: nat, k: nat)
    requires HasLists(s0.lists, d) && InactiveSoFar(s0, s, d, k)
    requires var a := s0.lists[ListId(d, Inactive)].pl; forall i | 0 <= i < |a| && a[i].P? :: a[i].p < |s0.pages|
    ensures |s.pages| == |s0.pages| && TreatedRight(s0, s, d, k)
  {
    hide ListsAre, Kept, Those, PageAfter, RightlyTreated;
    var a := s0.lists[ListId(d, Inactive)].pl;
    forall i | 0 <= i < k && a[i].P?
      ensures RightlyTreated(s0.pages[a[i].p], s.pages[a[i].p])
    {
      FateIsRight(s0.pages[a[i].p]);
    }
  }

  lemma ScanReady(s: State, d: nat)
    requires Inv(s) && HasLists(s.lists, d) && ScanMarker !in s.lists[ListId(d, Inactive)].pl
    ensures var l := s.lists[ListId(d, Inactive)];
      && l.cnt == |l.pl| - 1 && NoDup(l.pl)
      && forall i | 0 <= i < |l.pl| && l.pl[i].P? :: l.pl[i].p < |s.pages|
  {
    InactiveLength(s, d);
    hide Inv, NoDup;
  }

  lemma LoopTest(pages: seq<Page>, a: seq<Entry>, k: nat, maxscan: int, shortage: int)
    requires k <= |a|
    ensures GoesOn(pages, a, k, maxscan, shortage) <==>
      k < |a| && k < maxscan && shortage - |Those(pages, a, k, Reclaimed)| > 0
  {
  }

  lemma FirstMeans(a: seq<Entry>, k: nat)
    requires k <= |a|
    ensures FirstOf(a[k..]) == if k < |a| then Some(a[k]) else None
  {
  }

  lemma FatesNext(pages: seq<Page>, a: seq<Entry>, k: nat)
    requires k <= |a|
    ensures forall f: Fate :: |Those(pages, a, 0, f)| == 0
    ensures k < |a| ==> forall f: Fate ::
      |Those(pages, a, k + 1, f)| == |Those(pages, a, k, f)| + if FateAt(pages, a[k]) == f then 1 else 0
  {
  }
}
