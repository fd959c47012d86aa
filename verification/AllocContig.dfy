/**
  Allocating a run of physical pages for an object (asgn3/vm_page.c:1807-1959):
  all of them are entered into the object, or, when the index runs out of
  memory half way, everything is taken back.

  The choice of the run by the buddy allocator or the reservations is a
  parameter, and so is the success of each insertion into the index.  Waiting and
  retrying, memory attributes and the count of zeroed pages are not modelled.
 */
module AllocContig {
  import opened Arith
  import opened Lists
  import opened Wrappers
  import opened ObjectIndex
  import opened PageTypes

  /** v_free_reserved and v_interrupt_free_min */
  datatype Limits = Limits(freeReserved: nat, interruptFreeMin: nat)

  datatype Class = Normal | System | Interrupt

  datatype Request = Request(class_: Class, nobusy: bool, sbusy: bool, wired: bool)

  /** The busy word of the pages; VM_ALLOC_NOOBJ goes with an absent object. */
  function BusyFor(req: Request, hasObject: bool): Busy {
    if req.sbusy then Shared(1) else if req.nobusy || !hasObject then Unbusied else Exclusive
  }

  /** May `npages` be taken from `free` pages? */
  predicate MayTake(limits: Limits, req: Request, free: int, npages: int) {
    || free >= npages + limits.freeReserved
    || (req.class_ == System && free >= npages + limits.interruptFreeMin)
    || (req.class_ == Interrupt && free >= npages)
  }

  /** How many free pages a request of the class must leave behind. */
  function Floor(limits: Limits, c: Class): nat {
    match c
    case Normal => limits.freeReserved
    case System => Min(limits.freeReserved, limits.interruptFreeMin)
    case Interrupt => 0
  }

  lemma MayTakeAboveFloor(limits: Limits, req: Request, free: int, npages: int)
    ensures MayTake(limits, req, free, npages) <==> free - npages >= Floor(limits, req.class_)
  {
  }

  /** A page as the request has it handed out. */
  ghost predicate HandedOut(page: Page, o: Option<Oid>, k: int, req: Request) {
    && page.obj == o && page.pindex == k && page.wire == (if req.wired then 1 else 0)
    && (req.sbusy ==> page.busy == Shared(1))
    && (!req.sbusy ==> (page.busy == Exclusive <==> o.Some? && !req.nobusy) && !page.busy.Shared?)
  }

  ghost predicate RunHandedOut(pages: seq<Page>, o: Option<Oid>, pindex: nat, req: Request, b: Pid, npages: nat) {
    b + npages <= |pages| && forall p | b <= p < b + npages :: HandedOut(pages[p], o, pindex + (p - b), req)
  }

  ghost predicate RunIsClean(pages: seq<Page>, b: Pid, npages: nat) {
    b + npages <= |pages| && forall p | b <= p < b + npages :: Clean(pages[p])
  }

  lemma AllHandedOut(pages0: seq<Page>, pages: seq<Page>, o: Option<Oid>, pindex: nat, req: Request, b: Pid, npages: nat)
    requires Entered(pages0, pages, o, pindex, BusyFor(req, o.Some?), req.wired, b, npages, npages)
    requires RunIsClean(pages0, b, npages)
    ensures RunHandedOut(pages, o, pindex, req, b, npages)
  {
    forall p | b <= p < b + npages
      ensures HandedOut(pages[p], o, pindex + (p - b), req)
    {
      assert EnteredAt(pages0[p], pages[p], o, pindex + (p - b), BusyFor(req, o.Some?), req.wired, p - b, npages);
    }
  }

  /** vm_page_alloc_check (vm_page.c:1964-1979) */
  predicate Clean(page: Page) {
    page.obj == None && page.busy == Unbusied && page.wire == 0 && !page.valid && !page.dirty
  }

  // ---- an object is determined by its pages --------------------------------------------

  lemma {:induction false} SortedUnique(a: seq<Pid>, b: seq<Pid>, pages: seq<Page>)
    requires Sorted(a, pages) && Sorted(b, pages) && forall p :: p in a <==> p in b
    ensures a == b
  {
    assert |b| > 0 ==> b[0] in b;
    if a != [] {
      hide Sorted, Key;
      assert a[0] in a;
      var m, n := |a| - 1, |b| - 1;
      assert a[m] in a && b[n] in b;
      SameLast(a, b, pages);
      WithoutLast(a, pages);
      WithoutLast(b, pages);
      assert a[m] == b[n];
      forall p
        ensures p in a[..m] <==> p in b[..n]
      {
        assert p in a[..m] <==> p in a && p != a[m];
        assert p in b[..n] <==> p in b && p != b[n];
      }
      SortedUnique(a[..m], b[..n], pages);
      assert a == a[..m] + [a[m]] && b == b[..n] + [b[n]];
    }
  }

  lemma LastIsGreatest(a: seq<Pid>, pages: seq<Page>)
    requires Sorted(a, pages) && a != []
    ensures forall p | p in a && p != a[|a| - 1] :: Key(pages, p) < Key(pages, a[|a| - 1])
  {
  }

  lemma SameLast(a: seq<Pid>, b: seq<Pid>, pages: seq<Page>)
    requires Sorted(a, pages) && Sorted(b, pages) && a != [] && b != []
    requires a[|a| - 1] in b && b[|b| - 1] in a
    ensures a[|a| - 1] == b[|b| - 1]
  {
    LastIsGreatest(a, pages);
    LastIsGreatest(b, pages);
  }

  lemma WithoutLast(a: seq<Pid>, pages: seq<Page>)
    requires Sorted(a, pages) && a != []
    ensures Sorted(a[..|a| - 1], pages)
    ensures forall p :: p in a[..|a| - 1] <==> p in a && p != a[|a| - 1]
  {
    var m := |a| - 1;
    assert a == a[..m] + [a[m]];
    assert forall i | 0 <= i < m :: Key(pages, a[i]) < Key(pages, a[m]);
  }

  /** List, index and count of an object follow from which pages belong to it, and where. */
  lemma ObjUnique(o: Oid, x: Obj, y: Obj, pages: seq<Page>)
    requires ObjOk(o, x, pages) && ObjOk(o, y, pages)
    ensures x == y
  {
    IndexIsList(o, x, pages);
    IndexIsList(o, y, pages);
    assert forall p :: p in x.memq <==> p in y.memq;
    SortedUnique(x.memq, y.memq, pages);
    hide ObjOk, Sorted, Key;
    assert x.rtree.Keys == y.rtree.Keys;
  }

  /** Only the pages of the object matter. */
  lemma SamePages(o: Oid, x: Obj, pages: seq<Page>, pages': seq<Page>)
    requires ObjOk(o, x, pages) && |pages'| == |pages|
    requires forall p | 0 <= p < |pages| :: pages[p].obj == pages'[p].obj
    requires forall p | 0 <= p < |pages| && pages[p].obj == Some(o) :: pages[p].pindex == pages'[p].pindex
    ensures ObjOk(o, x, pages')
  {
    assert forall p | p in x.memq :: Key(pages', p) == Key(pages, p);
  }

  /** If in the end every page is where it was, so is every object. */
  lemma AllRestored(objects: seq<Obj>, pages: seq<Page>, objects': seq<Obj>, pages': seq<Page>)
    requires AllOk(objects, pages) && AllOk(objects', pages') && |objects'| == |objects| && |pages'| == |pages|
    requires forall p | 0 <= p < |pages| :: pages[p].obj == pages'[p].obj
    requires forall p | 0 <= p < |pages| && pages[p].obj.Some? :: pages[p].pindex == pages'[p].pindex
    ensures objects' == objects
  {
    forall o | 0 <= o < |objects|
      ensures objects'[o] == objects[o]
    {
      assert ObjOk(o, objects[o], pages) && ObjOk(o, objects'[o], pages');
      SamePages(o, objects[o], pages, pages');
      ObjUnique(o, objects[o], objects'[o], pages');
    }
  }

  // ---- the allocator -------------------------------------------------------------------

  /** After page m at index k, index k + 1 being free, the next insertion goes right behind m. */
  lemma PredecessorIsHere(o: Oid, obj: Obj, pages: seq<Page>, m: Pid)
    requires ObjOk(o, obj, pages) && m < |pages| && pages[m].obj == Some(o)
    requires pages[m].pindex + 1 !in obj.rtree
    ensures IsPredecessor(obj.memq, pages, pages[m].pindex + 1, Some(m))
  {
    var k := pages[m].pindex;
    var i := TreeInList(o, obj, pages, k);
    ListSorted(o, obj, pages);
    PlaceOf(obj.memq, i);
    if i + 1 < |obj.memq| {
      KeyInTree(o, obj, pages, i + 1);
    }
    hide ObjOk, IndexOf;
  }

  /** A page as vm_page_alloc_contig initializes it, before it enters the object. */
  function Initialized(page: Page, busy: Busy, wired: bool): Page {
    page.(busy := busy, wire := if wired then 1 else page.wire)
  }

  /** Page p of the run b .. b+npages when the first `done` pages have been entered and the next one perhaps begun. */
  ghost predicate EnteredAt(old_: Page, new_: Page, o: Option<Oid>, k: int, busy: Busy, wired: bool, at: int, done: int) {
    if at < done then k >= 0 && new_ == Initialized(old_, busy, wired).(obj := o, pindex := k)
    else new_ == old_ || (at == done && new_ == Initialized(old_, busy, wired).(pindex := 0))
  }

  ghost predicate Entered(pages0: seq<Page>, pages: seq<Page>, o: Option<Oid>, pindex: nat, busy: Busy, wired: bool,
                          b: Pid, npages: nat, done: nat)
  {
    && |pages| == |pages0|
    && (forall p | 0 <= p < |pages| && !(b <= p < b + npages) :: pages[p] == pages0[p])
    && (forall p | b <= p < b + npages && p < |pages| ::
          EnteredAt(pages0[p], pages[p], o, pindex + (p - b), busy, wired, p - b, done))
  }

  lemma EnteredNext(pages0: seq<Page>, pages: seq<Page>, pages': seq<Page>, o: Option<Oid>, pindex: nat,
                    busy: Busy, wired: bool, b: Pid, npages: nat, done: nat)
    requires Entered(pages0, pages, o, pindex, busy, wired, b, npages, done) && done < npages && b + done < |pages|
    requires pages' == pages[b + done := Initialized(pages[b + done], busy, wired).(obj := o, pindex := pindex + done)]
    ensures Entered(pages0, pages', o, pindex, busy, wired, b, npages, done + 1)
  {
    var m := b + done;
    assert EnteredAt(pages0[m], pages[m], o, pindex + (m - b), busy, wired, m - b, done);
    forall p | b <= p < b + npages && p < |pages|
      ensures EnteredAt(pages0[p], pages'[p], o, pindex + (p - b), busy, wired, p - b, done + 1)
    {
      assert EnteredAt(pages0[p], pages[p], o, pindex + (p - b), busy, wired, p - b, done);
    }
  }

  lemma EnteredFailed(pages0: seq<Page>, pages: seq<Page>, pages': seq<Page>, o: Option<Oid>, pindex: nat,
                      busy: Busy, wired: bool, b: Pid, npages: nat, done: nat)
    requires Entered(pages0, pages, o, pindex, busy, wired, b, npages, done) && done < npages && b + done < |pages|
    requires pages' == pages[b + done := Initialized(pages[b + done], busy, wired).(pindex := 0)]
    ensures Entered(pages0, pages', o, pindex, busy, wired, b, npages, done)
  {
    var m := b + done;
    assert EnteredAt(pages0[m], pages[m], o, pindex + (m - b), busy, wired, m - b, done);
    forall p | b <= p < b + npages && p < |pages|
      ensures EnteredAt(pages0[p], pages'[p], o, pindex + (p - b), busy, wired, p - b, done)
    {
      assert EnteredAt(pages0[p], pages[p], o, pindex + (p - b), busy, wired, p - b, done);
    }
  }

  lemma StillOut(pages0: seq<Page>, pages: seq<Page>, o: Option<Oid>, pindex: nat,
                 busy: Busy, wired: bool, b: Pid, npages: nat, done: nat, p: Pid)
    requires Entered(pages0, pages, o, pindex, busy, wired, b, npages, done)
    requires b + done <= p < b + npages && p < |pages| && pages0[p].obj == None
    ensures pages[p].obj == None
  {
    assert EnteredAt(pages0[p], pages[p], o, pindex + (p - b), busy, wired, p - b, done);
  }

  lemma NoneEntered(pages: seq<Page>, o: Option<Oid>, pindex: nat, busy: Busy, wired: bool, b: Pid, npages: nat)
    ensures Entered(pages, pages, o, pindex, busy, wired, b, npages, 0)
  {
  }

  /** Nothing changed but pages lo up to hi. */
  ghost predicate SameOutside(pages0: seq<Page>, pages: seq<Page>, lo: int, hi: int) {
    && |pages| == |pages0|
    && forall p | 0 <= p < |pages| && !(lo <= p < hi) :: pages[p] == pages0[p]
  }

  lemma SameNext(pages0: seq<Page>, pages1: seq<Page>, pages2: seq<Page>, lo: int, hi: int)
    requires SameOutside(pages0, pages1, lo, hi) && SameOutside(pages1, pages2, hi, hi + 1) && lo <= hi
    ensures SameOutside(pages0, pages2, lo, hi + 1)
  {
  }

  lemma SameTwice(pages0: seq<Page>, pages1: seq<Page>, pages2: seq<Page>, lo: int, hi: int)
    requires SameOutside(pages0, pages1, lo, hi) && SameOutside(pages1, pages2, lo, hi)
    ensures SameOutside(pages0, pages2, lo, hi)
  {
  }

  lemma SameAt(pages0: seq<Page>, pages: seq<Page>, lo: int, hi: int, p: int)
    requires SameOutside(pages0, pages, lo, hi) && !(lo <= p < hi) && 0 <= p < |pages0|
    ensures |pages| == |pages0| && pages[p] == pages0[p]
  {
  }

  /** A change that neither moves a page nor takes it in or out. */
  lemma PlainChange(objects: seq<Obj>, pages: seq<Page>, m: Pid, page: Page)
    requires AllOk(objects, pages) && m < |pages| && page.obj == pages[m].obj
    requires page.obj == None || page.pindex == pages[m].pindex
    ensures AllOk(objects, pages[m := page])
  {
    forall o | 0 <= o < |objects|
      ensures ObjOk(o, objects[o], pages[m := page])
    {
      assert ObjOk(o, objects[o], pages);
      SamePages(o, objects[o], pages, pages[m := page]);
    }
  }

  /** The predecessor test does not look at the page that is about to be inserted. */
  lemma InitKeeps(objects: seq<Obj>, pages: seq<Page>, o: Oid, m: Pid, k: nat, mpred: Option<Pid>, page: Page)
    requires AllOk(objects, pages) && m < |pages| && o < |objects| && pages[m].obj == page.obj == None
    requires page.pindex == pages[m].pindex && IsPredecessor(objects[o].memq, pages, k, mpred)
    ensures AllOk(objects, pages[m := page])
    ensures IsPredecessor(objects[o].memq, pages[m := page], k, mpred)
  {
    PlainChange(objects, pages, m, page);
    hide AllOk, IndexOf;
    assert forall p :: Key(pages[m := page], p) == Key(pages, p);
  }

  lemma FirstPredecessor(objects: seq<Obj>, pages: seq<Page>, o: Oid, k: nat)
    requires AllOk(objects, pages) && o < |objects| && k !in objects[o].rtree
    ensures IsPredecessor(objects[o].memq, pages, k, LookupLe(objects[o].rtree, k))
  {
    assert ObjOk(o, objects[o], pages);
    hide AllOk, ObjOk;
    LookupGivesPredecessor(o, objects[o], pages, k);
  }

  lemma NextPredecessor(objects: seq<Obj>, pages: seq<Page>, o: Oid, m: Pid, k: nat)
    requires AllOk(objects, pages) && o < |objects| && m < |pages| && pages[m].obj == Some(o) && pages[m].pindex == k
    requires k + 1 !in objects[o].rtree
    ensures IsPredecessor(objects[o].memq, pages, k + 1, Some(m))
  {
    assert ObjOk(o, objects[o], pages);
    hide AllOk, ObjOk;
    PredecessorIsHere(o, objects[o], pages, m);
  }

  class PageAllocator {
    const vm: Vm
    const limits: Limits
    var free: set<Pid>
    var freeCount: int
    var wireCount: int

    /** The free count is right, and free pages are clean. */
    ghost predicate Valid()
      reads this, vm
    {
      && vm.Valid() && freeCount == |free|
      && forall p | p in free :: p < |vm.pages| && Clean(vm.pages[p])
    }

    constructor (npages: nat, nobjects: nat, limits: Limits)
      ensures Valid() && fresh(vm) && |vm.pages| == npages && |vm.objects| == nobjects
    {
      vm := new Vm(npages, nobjects);
      this.limits := limits;
      free, freeCount, wireCount := {}, 0, 0;
    }

    /** vm_page_free_toq (vm_page.c:2983-2993) for an unmanaged page; its panics are the preconditions. */
    method FreeToq(m: Pid)
      requires Valid() && m < |vm.pages| && m !in free
      requires !vm.pages[m].busy.Shared? && vm.pages[m].wire == 0 && (vm.pages[m].obj == None ==> vm.pages[m].busy == Unbusied)
      modifies this, vm
      ensures Valid() && free == old(free) + {m} && wireCount == old(wireCount)
      ensures |vm.pages| == |old(vm.pages)| && |vm.objects| == |old(vm.objects)|
      ensures forall p | 0 <= p < |vm.pages| && p != m :: vm.pages[p] == old(vm.pages)[p]
    {
      hide AllOk;
      vm.Remove(m);
      ghost var objects, pages := vm.objects, vm.pages;
      var page := vm.pages[m].(valid := false, dirty := false);
      PlainChange(objects, pages, m, page);
      vm.pages := vm.pages[m := page];
      freeCount := freeCount + 1;
      free := free + {m};
    }

    /**
      The loop that enters the pages b, b + 1, ... at pindex, pindex + 1, ...
      (vm_page.c:1916-1955), up to the first insertion that fails.
     */
    method Enter(o: Oid, pindex: nat, busy: Busy, wired: bool, b: Pid, npages: nat, fails: seq<bool>) returns (done: nat)
      requires vm.Valid() && o < |vm.objects| && b + npages <= |vm.pages| && pindex + npages <= PINDEX_LIMIT
      requires |fails| == npages && npages > 0
      requires forall p | b <= p < b + npages :: vm.pages[p].obj == None
      requires forall k: nat | pindex <= k < pindex + npages :: k !in vm.objects[o].rtree
      modifies vm
      ensures vm.Valid() && |vm.objects| == |old(vm.objects)|
      ensures done <= npages && (done < npages ==> fails[done]) && forall i | 0 <= i < done :: !fails[i]
      ensures Entered(old(vm.pages), vm.pages, Some(o), pindex, busy, wired, b, npages, done)
    {
      hide AllOk, ObjOk, IsPredecessor, LookupLe, InsertAt, Rank, Key;
      ghost var pages0 := vm.pages;
      FirstPredecessor(vm.objects, vm.pages, o, pindex);
      var mpred := LookupLe(vm.objects[o].rtree, pindex);
      done := 0;
      NoneEntered(pages0, Some(o), pindex, busy, wired, b, npages);
      while done < npages
        invariant 0 <= done <= npages && |vm.pages| == |pages0| && |vm.objects| == |old(vm.objects)|
        invariant vm.Valid() && Entered(pages0, vm.pages, Some(o), pindex, busy, wired, b, npages, done)
        invariant done < npages ==> IsPredecessor(vm.objects[o].memq, vm.pages, pindex + done, mpred)
        invariant forall k: nat | pindex + done <= k < pindex + npages :: k !in vm.objects[o].rtree
        invariant forall i | 0 <= i < done :: !fails[i]
      {
        hide Entered;
        var m := b + done;
        StillOut(pages0, vm.pages, Some(o), pindex, busy, wired, b, npages, done, m);
        ghost var pages1 := vm.pages;
        InitKeeps(vm.objects, vm.pages, o, m, pindex + done, mpred, Initialized(vm.pages[m], busy, wired));
        vm.pages := vm.pages[m := Initialized(vm.pages[m], busy, wired)];
        var failed := vm.InsertAfter(m, o, pindex + done, mpred, fails[done]);
        if failed {
          assert vm.pages == pages1[m := Initialized(pages1[m], busy, wired).(pindex := 0)];
          EnteredFailed(pages0, pages1, vm.pages, Some(o), pindex, busy, wired, b, npages, done);
          return;
        }
        assert vm.pages == pages1[m := Initialized(pages1[m], busy, wired).(obj := Some(o), pindex := pindex + done)];
        EnteredNext(pages0, pages1, vm.pages, Some(o), pindex, busy, wired, b, npages, done);
        if done + 1 < npages {
          NextPredecessor(vm.objects, vm.pages, o, m, pindex + done);
        }
        mpred := Some(m);
        done := done + 1;
      }
    }

    /** One turn of the loop below. */
    method UndoOne(m: Pid, unwire: bool)
      requires Valid() && m < |vm.pages| && m !in free && (vm.pages[m].wire == 0 || unwire)
      modifies this, vm
      ensures Valid() && free == old(free) + {m} && wireCount == old(wireCount)
      ensures |vm.objects| == |old(vm.objects)| && SameOutside(old(vm.pages), vm.pages, m, m + 1)
    {
      hide AllOk;
      var page := vm.pages[m];
      if unwire {
        page := page.(wire := 0);
      }
      page := page.(busy := Unbusied);
      PlainChange(vm.objects, vm.pages, m, page);
      vm.pages := vm.pages[m := page];
      FreeToq(m);
    }

    /** The loop that takes everything back after insertion number `done` has failed (vm_page.c:1933-1942). */
    method Undo(b: Pid, npages: nat, done: nat, wired: bool)
      requires Valid() && b + npages <= |vm.pages| && done < npages
      requires forall p | b <= p < b + npages :: p !in free
      requires forall p | b <= p < b + npages :: vm.pages[p].wire == 0 || (p - b <= done && wired)
      modifies this, vm
      ensures Valid() && free == old(free) + Range(b, b + npages) && wireCount == old(wireCount)
      ensures |vm.objects| == |old(vm.objects)| && SameOutside(old(vm.pages), vm.pages, b, b + npages)
    {
      hide Valid, Range, SameOutside;
      ghost var free0, pages0 := free, vm.pages;
      var i := 0;
      RangeNext(b, b);
      assert SameOutside(pages0, vm.pages, b, b) by { NothingChanged(pages0, b); }
      while i < npages
        invariant 0 <= i <= npages && Valid() && wireCount == old(wireCount)
        invariant free == free0 + Range(b, b + i)
        invariant |vm.objects| == |old(vm.objects)| && SameOutside(pages0, vm.pages, b, b + i)
      {
        ghost var pages1 := vm.pages;
        SameAt(pages0, vm.pages, b, b + i, b + i);
        UndoOne(b + i, i <= done && wired);
        SameNext(pages0, pages1, vm.pages, b, b + i);
        RangeNext(b, b + i);
        i := i + 1;
      }
    }

    /** The pages of the run enter the object, or none of them does and all are free again. */
    method Fill(o: Oid, pindex: nat, busy: Busy, wired: bool, b: Pid, npages: nat, fails: seq<bool>) returns (ok: bool)
      requires Valid() && npages > 0 && |fails| == npages && o < |vm.objects|
      requires b + npages <= |vm.pages| && pindex + npages <= PINDEX_LIMIT
      requires forall k: nat | pindex <= k < pindex + npages :: k !in vm.objects[o].rtree
      requires forall p | b <= p < b + npages :: p !in free && Clean(vm.pages[p])
      modifies this, vm
      ensures Valid() && freeCount == |free| && (ok <==> forall i | 0 <= i < npages :: !fails[i])
      ensures ok ==> free == old(free) && wireCount == old(wireCount)
      ensures ok ==> Entered(old(vm.pages), vm.pages, Some(o), pindex, busy, wired, b, npages, npages)
      ensures !ok ==> free == old(free) + Range(b, b + npages) && vm.objects == old(vm.objects)
      ensures !ok ==> wireCount == old(wireCount) - if wired then npages else 0
      ensures SameOutside(old(vm.pages), vm.pages, b, b + npages)
    {
      hide AllOk, Entered, Range;
      ghost var objects, pages, free0 := vm.objects, vm.pages, free;
      var done := Enter(o, pindex, busy, wired, b, npages, fails);
      OutsideSame(pages, vm.pages, Some(o), pindex, busy, wired, b, npages, done);
      ok := done == npages;
      if !ok {
        if wired {
          wireCount := wireCount - npages;
        }
        WiredSoFar(pages, vm.pages, Some(o), pindex, busy, wired, b, npages, done);
        ghost var pages1 := vm.pages;
        Undo(b, npages, done, wired);
        SameTwice(pages, pages1, vm.pages, b, b + npages);
        CleanAgain(pages, vm.pages, free0, b, npages, free);
        AllRestored(objects, pages, vm.objects, vm.pages);
      }
    }

    /** The same loop without an object: only the page index is recorded. */
    method SetIndexes(pindex: nat, busy: Busy, wired: bool, b: Pid, npages: nat)
      requires Valid() && b + npages <= |vm.pages|
      requires forall p | b <= p < b + npages :: p !in free && Clean(vm.pages[p])
      modifies vm
      ensures Valid() && vm.objects == old(vm.objects)
      ensures SameOutside(old(vm.pages), vm.pages, b, b + npages)
      ensures Entered(old(vm.pages), vm.pages, None, pindex, busy, wired, b, npages, npages)
    {
      hide AllOk, Entered;
      ghost var pages0 := vm.pages;
      NoneEntered(pages0, None, pindex, busy, wired, b, npages);
      var i := 0;
      while i < npages
        invariant 0 <= i <= npages && |vm.pages| == |pages0| && vm.objects == old(vm.objects)
        invariant vm.Valid() && Entered(pages0, vm.pages, None, pindex, busy, wired, b, npages, i)
      {
        var m := b + i;
        StillOut(pages0, vm.pages, None, pindex, busy, wired, b, npages, i, m);
        var page := Initialized(vm.pages[m], busy, wired).(pindex := pindex + i);
        PlainChange(vm.objects, vm.pages, m, page);
        EnteredNext(pages0, vm.pages, vm.pages[m := page.(obj := None)], None, pindex, busy, wired, b, npages, i);
        assert page.(obj := None) == page;
        vm.pages := vm.pages[m := page];
        i := i + 1;
      }
      OutsideSame(pages0, vm.pages, None, pindex, busy, wired, b, npages, npages);
    }

    /** The run leaves the free lists (vm_page.c:1877). */
    method TakeRun(b: Pid, npages: nat)
      requires Valid() && npages > 0 && forall p | b <= p < b + npages :: p in free
      modifies `free, `freeCount
      ensures Valid() && free == old(free) - Range(b, b + npages) && old(free) == free + Range(b, b + npages)
      ensures freeCount == |free| == old(freeCount) - npages && old(freeCount) == |old(free)| && b + npages <= |vm.pages|
      ensures forall p | b <= p < b + npages :: p !in free && Clean(vm.pages[p])
    {
      TakeBlock(free, b, npages);
      assert b + npages - 1 in free;
      free := free - Range(b, b + npages);
      freeCount := freeCount - npages;
    }

    /** vm_page_alloc_contig once it has a run of pages (vm_page.c:1876-1959). */
    method AllocRun(o: Option<Oid>, pindex: nat, req: Request, npages: nat, b: Pid, fails: seq<bool>) returns (ok: bool)
      requires Valid() && npages > 0 && |fails| == npages
      requires o.Some? ==> o.value < |vm.objects| && pindex + npages <= PINDEX_LIMIT
      requires o.Some? ==> forall k: nat | pindex <= k < pindex + npages :: k !in vm.objects[o.value].rtree
      requires forall p | b <= p < b + npages :: p in free
      modifies this, vm
      ensures Valid() && SameOutside(old(vm.pages), vm.pages, b, b + npages)
      ensures ok <==> o == None || forall i | 0 <= i < npages :: !fails[i]
      ensures !ok ==> vm.objects == old(vm.objects) && free == old(free)
      ensures freeCount == |free| && old(freeCount) == |old(free)|
      ensures wireCount == old(wireCount) + if ok && req.wired then npages else 0
      ensures ok ==> free == old(free) - Range(b, b + npages) && freeCount == old(freeCount) - npages
      ensures ok ==> Entered(old(vm.pages), vm.pages, o, pindex, BusyFor(req, o.Some?), req.wired, b, npages, npages)
    {
      hide AllOk, Entered, Range, SameOutside, Clean, BusyFor;
      TakeRun(b, npages);
      var busy := BusyFor(req, o.Some?);
      if req.wired {
        wireCount := wireCount + npages;
      }
      if o.Some? {
        ok := Fill(o.value, pindex, busy, req.wired, b, npages, fails);
      } else {
        SetIndexes(pindex, busy, req.wired, b, npages);
        ok := true;
      }
    }

    lemma RunClean(block: Option<Pid>, npages: nat)
      requires Valid() && npages > 0
      requires block.Some? ==> forall p | block.value <= p < block.value + npages :: p in free
      ensures block.Some? ==> RunIsClean(vm.pages, block.value, npages)
    {
      hide Clean, AllOk;
      if block.Some? {
        assert block.value + npages - 1 in free;
      }
    }

    /** vm_page_alloc_contig (vm_page.c:1807-1959); `block` is the run the physical allocator offers. */
    method AllocContig(o: Option<Oid>, pindex: nat, req: Request, npages: nat, block: Option<Pid>, fails: seq<bool>)
      returns (r: Option<Pid>)
      requires Valid() && npages > 0 && |fails| == npages && !(req.nobusy && req.sbusy) && (o == None ==> !req.sbusy)
      requires o.Some? ==> o.value < |vm.objects| && pindex + npages <= PINDEX_LIMIT
      requires o.Some? ==> forall k: nat | pindex <= k < pindex + npages :: k !in vm.objects[o.value].rtree
      requires block.Some? ==> forall p | block.value <= p < block.value + npages :: p in free
      modifies this, vm
      ensures Valid()
      ensures if block == None then vm.pages == old(vm.pages)
              else SameOutside(old(vm.pages), vm.pages, block.value, block.value + npages)
      ensures r.Some? <==>
        MayTake(limits, req, old(freeCount), npages) && block.Some? && (o == None || forall i | 0 <= i < npages :: !fails[i])
      ensures r == None ==> vm.objects == old(vm.objects) && free == old(free)
      ensures r == None ==> freeCount == old(freeCount) && wireCount == old(wireCount)
      ensures r.Some? ==> r == block && free == old(free) - Range(r.value, r.value + npages)
      ensures r.Some? ==> wireCount == old(wireCount) + if req.wired then npages else 0
      ensures r.Some? ==> freeCount == old(freeCount) - npages
      ensures r.Some? ==>
        Entered(old(vm.pages), vm.pages, o, pindex, BusyFor(req, o.Some?), req.wired, r.value, npages, npages)
      // every page of the run is as asked, and the reserve of the class is left; a refusal means that it would not be
      ensures r.Some? ==> RunHandedOut(vm.pages, o, pindex, req, r.value, npages)
      ensures r.Some? ==> freeCount >= Floor(limits, req.class_)
      ensures r == None && block.Some? && (o == None || forall i | 0 <= i < npages :: !fails[i]) ==>
        freeCount - npages < Floor(limits, req.class_)
    {
      hide Valid, Entered, Range, SameOutside, Clean, BusyFor, MayTake, RunHandedOut, Floor, RunIsClean;
      MayTakeAboveFloor(limits, req, freeCount, npages);
      RunClean(block, npages);
      r := None;
      if block.Some? {
        NothingChanged(vm.pages, block.value);
        if MayTake(limits, req, freeCount, npages) {
          var ok := AllocRun(o, pindex, req, npages, block.value, fails);
          if ok {
            r := block;
            AllHandedOut(old(vm.pages), vm.pages, o, pindex, req, block.value, npages);
          }
        }
      }
    }
  }

  lemma OutsideSame(pages0: seq<Page>, pages: seq<Page>, o: Option<Oid>, pindex: nat,
                    busy: Busy, wired: bool, b: Pid, npages: nat, done: nat)
    requires Entered(pages0, pages, o, pindex, busy, wired, b, npages, done)
    ensures SameOutside(pages0, pages, b, b + npages)
  {
  }

  lemma NothingChanged(pages: seq<Page>, b: int)
    ensures forall c :: SameOutside(pages, pages, b, c)
  {
  }

  /** Every page is where it was before the run was taken: the pages of the run are free again. */
  lemma CleanAgain(pages0: seq<Page>, pages: seq<Page>, free0: set<Pid>, b: Pid, npages: nat, free: set<Pid>)
    requires SameOutside(pages0, pages, b, b + npages) && b + npages <= |pages| && free == free0 + Range(b, b + npages)
    requires forall p | b <= p < b + npages :: Clean(pages0[p])
    requires forall p | p in free :: p < |pages| && Clean(pages[p])
    ensures |pages| == |pages0| && forall p | 0 <= p < |pages| :: pages0[p].obj == pages[p].obj
    ensures forall p | 0 <= p < |pages| && pages0[p].obj.Some? :: pages0[p].pindex == pages[p].pindex
  {
    forall p | 0 <= p < |pages|
      ensures pages0[p].obj == pages[p].obj && (pages0[p].obj.Some? ==> pages0[p].pindex == pages[p].pindex)
    {
      if b <= p < b + npages {
        assert p in free;
      }
    }
  }

  lemma RangeNext(lo: nat, hi: nat)
    requires lo <= hi
    ensures Range(lo, lo) == {} && Range(lo, hi + 1) == Range(lo, hi) + {hi}
  {
  }

  lemma TakeBlock(free: set<Pid>, b: Pid, npages: nat)
    requires forall p | b <= p < b + npages :: p in free
    ensures |free - Range(b, b + npages)| == |free| - npages
    ensures free - Range(b, b + npages) + Range(b, b + npages) == free
  {
    RangeSize(b, b + npages);
    var run := Range(b, b + npages);
    assert run <= free;
    assert free == (free - run) + run;
  }

  /** At the failure, the pages up to the failing one may be wired, if that was asked for; the rest are not. */
  lemma WiredSoFar(pages0: seq<Page>, pages: seq<Page>, o: Option<Oid>, pindex: nat,
                   busy: Busy, wired: bool, b: Pid, npages: nat, done: nat)
    requires Entered(pages0, pages, o, pindex, busy, wired, b, npages, done) && done < npages && b + npages <= |pages|
    requires forall p | b <= p < b + npages :: Clean(pages0[p])
    ensures forall p | b <= p < b + npages :: pages[p].wire == 0 || (p - b <= done && wired)
  {
  }
}
