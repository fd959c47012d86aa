/**
  vm_page_grab_pages (asgn3/vm_page.c:3340-3420): the pages at a range of indices
  of an object, each looked up or else allocated.  The code walks along the
  list of the object instead of looking every index up; here it is proved to do the
  same as a loop that looks up afresh each time.

  What happens while the call sleeps is a parameter: each wakeup may come with
  other contents of the objects, as long as these are consistent and the pages
  already grabbed have stayed where they are.
 */
module GrabPages {
  import opened Lists
  import opened Wrappers
  import opened ObjectIndex
  import opened PageTypes
  import AC = AllocContig

  datatype Flags = Flags(nowait: bool, ignSbusy: bool, nobusy: bool, sbusy: bool, wired: bool, zero: bool)

  datatype World = World(pages: seq<Page>, objects: seq<Obj>)

  /** A free page for an allocation, or what the world is like after a wait. */
  datatype Event = Granted(p: Pid) | Changed(w: World)

  /** How the call ends: it returns, it is still waiting, or the exclusive busying of a page has panicked. */
  datatype End = Returned | Asleep | Panicked

  datatype Outcome = Outcome(w: World, ma: seq<Pid>, end: End)

  // ---- one index at a time ---------------------------------------------------------

  predicate MustWait(fl: Flags, page: Page) {
    if fl.ignSbusy then page.busy == Exclusive else page.busy != Unbusied
  }

  /** vm_page_xbusy panics on a page that is not unbusied. */
  predicate Panics(fl: Flags, page: Page) {
    !fl.nobusy && !fl.sbusy && page.busy != Unbusied
  }

  /** An existing page that need not be waited for is wired and busied as asked. */
  function Taken(page: Page, fl: Flags): Page {
    var busy := if fl.sbusy then Shared(if page.busy.Shared? then page.busy.n + 1 else 1)
                else if fl.nobusy then page.busy else Exclusive;
    page.(wire := page.wire + if fl.wired then 1 else 0, busy := busy, valid := page.valid || fl.zero)
  }

  function Holders(b: Busy): nat { if b.Shared? then b.n else 0 }

  /** A page in the caller's hands: wired once more and busied as the flags say, and otherwise as it was. */
  ghost predicate AsAsked(fl: Flags, before: Page, after: Page) {
    && after.wire - before.wire == (if fl.wired then 1 else 0)
    && (fl.sbusy ==> after.busy.Shared? && Holders(after.busy) == Holders(before.busy) + 1)
    && (!fl.sbusy && fl.nobusy ==> after.busy == before.busy)
    && (!fl.sbusy && !fl.nobusy ==> before.busy == Unbusied && after.busy == Exclusive)
    && (after.valid <==> before.valid || fl.zero)
    && after == before.(wire := after.wire, busy := after.busy, valid := after.valid, obj := after.obj, pindex := after.pindex)
  }

  lemma TakenAsAsked(page: Page, fl: Flags)
    requires !MustWait(fl, page) && !Panics(fl, page)
    ensures AsAsked(fl, page, Taken(page, fl))
    // it has not taken away another thread's exclusive hold, nor, unless told so, shared the page with anybody
    ensures page.busy != Exclusive && (page.busy != Unbusied ==> fl.ignSbusy)
  {
  }

  lemma WaitsForBusy(fl: Flags, page: Page)
    ensures MustWait(fl, page) <==> page.busy == Exclusive || (!fl.ignSbusy && page.busy.Shared?)
  {
  }

  lemma CreatedAsAsked(w: World, o: Oid, k: nat, p: Pid, fl: Flags)
    requires o < |w.objects| && p < |w.pages| && AC.Clean(w.pages[p])
    ensures |Created(w, o, k, p, fl).pages| == |w.pages| && AsAsked(fl, w.pages[p], Created(w, o, k, p, fl).pages[p])
    ensures forall x | 0 <= x < |w.pages| && x != p :: Created(w, o, k, p, fl).pages[x] == w.pages[x]
    ensures Created(w, o, k, p, fl).pages[p].obj == Some(o) && Created(w, o, k, p, fl).pages[p].pindex == k
  {
    hide Inserted;
  }

  /** The wiring comes before the busying, so a page that cannot be busied has been wired. */
  function Wired(w: World, m: Pid, fl: Flags): World
    requires m < |w.pages|
  {
    w.(pages := w.pages[m := w.pages[m].(wire := w.pages[m].wire + if fl.wired then 1 else 0)])
  }

  /** The page at index k is shared busy. */
  predicate SharedAt(w: World, o: Oid, k: nat) {
    o < |w.objects| && k in w.objects[o].rtree && w.objects[o].rtree[k] < |w.pages|
    && w.pages[w.objects[o].rtree[k]].busy.Shared?
  }

  /** A free page as vm_page_alloc_after prepares it for the object. */
  function Prepared(page: Page, fl: Flags): Page {
    page.(busy := if fl.sbusy then Shared(1) else if fl.nobusy then Unbusied else Exclusive,
          wire := if fl.wired then 1 else page.wire)
  }

  function Created(w: World, o: Oid, k: nat, p: Pid, fl: Flags): World
    requires o < |w.objects| && p < |w.pages|
  {
    var page := Prepared(w.pages[p], fl);
    World(w.pages[p := page.(obj := Some(o), pindex := k, valid := page.valid || fl.zero)],
          w.objects[o := Inserted(w.objects[o], w.pages[p := page], p, k)])
  }

  predicate Grants(w: World, env: seq<Event>) {
    env != [] && env[0].Granted? && env[0].p < |w.pages| && AC.Clean(w.pages[env[0].p])
  }

  predicate InPlace(rtree: map<nat, Pid>, pindex: nat, ma: seq<Pid>, j: nat) {
    j < |ma| && pindex + j in rtree && rtree[pindex + j] == ma[j]
  }

  /** The pages of ma are those at pindex, pindex + 1, ... */
  predicate GrabbedAt(w: World, o: Oid, pindex: nat, ma: seq<Pid>) {
    o < |w.objects| && forall j | 0 <= j < |ma| :: InPlace(w.objects[o].rtree, pindex, ma, j)
  }

  lemma GrabbedOneMore(w: World, w': World, o: Oid, pindex: nat, ma: seq<Pid>, m: Pid)
    requires GrabbedAt(w, o, pindex, ma) && o < |w'.objects|
    requires w'.objects[o].rtree == w.objects[o].rtree[pindex + |ma| := m]
    ensures GrabbedAt(w', o, pindex, ma + [m])
  {
    forall j | 0 <= j < |ma + [m]|
      ensures InPlace(w'.objects[o].rtree, pindex, ma + [m], j)
    {
      assert j < |ma| ==> InPlace(w.objects[o].rtree, pindex, ma, j);
    }
  }

  function After(w: World, e: Event, o: Oid, pindex: nat, ma: seq<Pid>): World {
    if e.Changed? && |e.w.pages| == |w.pages| && |e.w.objects| == |w.objects| && GrabbedAt(e.w, o, pindex, ma) then e.w else w
  }

  /** The simple form: look up each index; take the page, create it, wait, or give up. */
  function Grab(w: World, o: Oid, pindex: nat, count: nat, fl: Flags, ma: seq<Pid>, env: seq<Event>): Outcome
    requires o < |w.objects|
    decreases |env|, count - |ma|
  {
    var k := pindex + |ma|;
    if |ma| >= count then Outcome(w, ma, Returned)
    else if k in w.objects[o].rtree && w.objects[o].rtree[k] < |w.pages| then
      var m := w.objects[o].rtree[k];
      if !MustWait(fl, w.pages[m]) then
        if Panics(fl, w.pages[m]) then Outcome(Wired(w, m, fl), ma, Panicked)
        else Grab(w.(pages := w.pages[m := Taken(w.pages[m], fl)]), o, pindex, count, fl, ma + [m], env)
      else if fl.nowait then Outcome(w, ma, Returned)
      else if env == [] then Outcome(w, ma, Asleep)
      else Grab(After(w, env[0], o, pindex, ma), o, pindex, count, fl, ma, env[1..])
    else if Grants(w, env) then
      Grab(Created(w, o, k, env[0].p, fl), o, pindex, count, fl, ma + [env[0].p], env[1..])
    else if fl.nowait then Outcome(w, ma, Returned)
    else if env == [] then Outcome(w, ma, Asleep)
    else Grab(After(w, env[0], o, pindex, ma), o, pindex, count, fl, ma, env[1..])
  }

  /**
    What it returns: the pages at consecutive indices; all of them unless it may not
    wait (or still waits).  It panics only if it must not sleep on shared-busy pages
    but busy them exclusively, and at the first index not yet grabbed is one.
   */
  lemma {:induction false} GrabbedPrefix(w: World, o: Oid, pindex: nat, count: nat, fl: Flags, ma: seq<Pid>, env: seq<Event>)
    requires GrabbedAt(w, o, pindex, ma) && |ma| <= count
    ensures var r := Grab(w, o, pindex, count, fl, ma, env);
      && GrabbedAt(r.w, o, pindex, r.ma) && ma <= r.ma && |r.ma| <= count
      && (|r.ma| < count ==> r.end != Returned || fl.nowait)
      && (r.end == Panicked ==>
            |r.ma| < count && fl.ignSbusy && !fl.nobusy && !fl.sbusy && SharedAt(r.w, o, pindex + |r.ma|))
    decreases |env|, count - |ma|
  {
    hide Taken, Prepared, InPlace, AC.Clean;
    var k := pindex + |ma|;
    if |ma| < count {
      if k in w.objects[o].rtree && w.objects[o].rtree[k] < |w.pages| {
        var m := w.objects[o].rtree[k];
        if !MustWait(fl, w.pages[m]) {
          if Panics(fl, w.pages[m]) {
            return;
          }
          var w' := w.(pages := w.pages[m := Taken(w.pages[m], fl)]);
          GrabbedOneMore(w, w', o, pindex, ma, m);
          GrabbedPrefix(w', o, pindex, count, fl, ma + [m], env);
        } else if !fl.nowait && env != [] {
          GrabbedPrefix(After(w, env[0], o, pindex, ma), o, pindex, count, fl, ma, env[1..]);
        }
      } else if Grants(w, env) {
        var w' := Created(w, o, k, env[0].p, fl);
        GrabbedOneMore(w, w', o, pindex, ma, env[0].p);
        GrabbedPrefix(w', o, pindex, count, fl, ma + [env[0].p], env[1..]);
      } else if !fl.nowait && env != [] {
        GrabbedPrefix(After(w, env[0], o, pindex, ma), o, pindex, count, fl, ma, env[1..]);
      }
    }
  }

  // ---- the cursor --------------------------------------------------------------------

  function Exact(rtree: map<nat, Pid>, k: nat): Option<Pid> {
    if k in rtree then Some(rtree[k]) else None
  }

  /** The page with the greatest index below k. */
  function Below(rtree: map<nat, Pid>, k: nat): Option<Pid> {
    if k == 0 then None else LookupLe(rtree, k - 1)
  }

  /** TAILQ_PREV gives the page with the greatest lower index. */
  lemma PrevIsBelow(o: Oid, obj: Obj, pages: seq<Page>, i: nat)
    requires ObjOk(o, obj, pages) && i < |obj.memq|
    ensures Below(obj.rtree, Key(pages, obj.memq[i])) == if i == 0 then None else Some(obj.memq[i - 1])
  {
    var k := Key(pages, obj.memq[i]);
    ListSorted(o, obj, pages);
    hide ObjOk, LookupLe, Key;
    if i > 0 {
      KeyInTree(o, obj, pages, i - 1);
    }
    if k > 0 {
      LookupLeProps(obj.rtree, k - 1);
      var le := LookupLe(obj.rtree, k - 1);
      if le.Some? {
        var j: nat :| j <= k - 1 && j in obj.rtree && obj.rtree[j] == le.value &&
          forall x: nat | j < x <= k - 1 :: x !in obj.rtree;
        var a := TreeInList(o, obj, pages, j);
        InOrder(obj.memq, pages, i, a);
      }
    }
  }

  lemma InOrder(memq: seq<Pid>, pages: seq<Page>, i: nat, a: nat)
    requires Sorted(memq, pages) && i < |memq| && a < |memq|
    requires Key(pages, memq[a]) < Key(pages, memq[i])
    requires i > 0 ==> Key(pages, memq[i - 1]) <= Key(pages, memq[a])
    ensures i > 0 && a == i - 1
  {
    hide Key;
    assert forall x | i < x < |memq| :: Key(pages, memq[i]) < Key(pages, memq[x]);
  }

  /** Below k is also up to k, when k itself is not there. */
  lemma BelowIsPredecessor(objects: seq<Obj>, pages: seq<Page>, o: Oid, k: nat)
    requires AllOk(objects, pages) && o < |objects| && k !in objects[o].rtree
    ensures IsPredecessor(objects[o].memq, pages, k, Below(objects[o].rtree, k))
  {
    AC.FirstPredecessor(objects, pages, o, k);
    hide AllOk, IsPredecessor;
  }

  // ---- the code --------------------------------------------------------------------------

  ghost predicate EventsOk(env: seq<Event>) {
    forall e | e in env && e.Changed? :: AllOk(e.w.objects, e.w.pages)
  }

  ghost function WorldOf(vm: Vm): World
    reads vm
  {
    World(vm.pages, vm.objects)
  }

  /** The cursor is what fresh lookups at index k would give. */
  ghost predicate Cursor(rtree: map<nat, Pid>, k: nat, m: Option<Pid>, mpred: Option<Pid>) {
    m == Exact(rtree, k) && mpred == Below(rtree, k)
  }

  /** The lookup at the label retrylookup (vm_page.c:3365-3371). */
  method FreshLookup(vm: Vm, o: Oid, k: nat) returns (m: Option<Pid>, mpred: Option<Pid>)
    requires vm.Valid() && o < |vm.objects|
    ensures Cursor(vm.objects[o].rtree, k, m, mpred)
  {
    ghost var obj := vm.objects[o];
    assert ObjOk(o, obj, vm.pages);
    hide ObjOk;
    m := LookupLe(vm.objects[o].rtree, k);
    if k in vm.objects[o].rtree {
      var memq := vm.objects[o].memq;
      ghost var i := TreeInList(o, obj, vm.pages, k);
      ListSorted(o, obj, vm.pages);
      PlaceOf(obj.memq, i);
      PrevIsBelow(o, obj, vm.pages, i);
      var j := IndexOf(memq, m.value);
      mpred := if j == 0 then None else Some(memq[j - 1]);
    } else {
      mpred := m;
      m := None;
    }
  }

  /** What is left of the same when the busying panics. */
  method WireOnly(vm: Vm, m: Pid, fl: Flags)
    requires vm.Valid() && m < |vm.pages|
    modifies vm`pages
    ensures vm.Valid() && WorldOf(vm) == Wired(old(WorldOf(vm)), m, fl)
  {
    var page := vm.pages[m];
    if fl.wired {
      page := page.(wire := page.wire + 1);
    }
    AC.PlainChange(vm.objects, vm.pages, m, page);
    hide AllOk;
    vm.pages := vm.pages[m := page];
  }

  /** Wire and busy a page that is there (vm_page.c:3392-3401 and 3411-3415). */
  method TakePage(vm: Vm, m: Pid, fl: Flags)
    requires vm.Valid() && m < |vm.pages|
    modifies vm`pages
    ensures vm.Valid() && vm.pages == old(vm.pages)[m := Taken(old(vm.pages[m]), fl)]
  {
    var page := vm.pages[m];
    if fl.wired {
      page := page.(wire := page.wire + 1);
    }
    if !fl.nobusy && !fl.sbusy {
      page := page.(busy := Exclusive);
    }
    if fl.sbusy {
      page := page.(busy := Shared(if page.busy.Shared? then page.busy.n + 1 else 1));
    }
    if !page.valid && fl.zero {
      page := page.(valid := true);
    }
    AC.PlainChange(vm.objects, vm.pages, m, page);
    hide AllOk;
    vm.pages := vm.pages[m := page];
  }

  /** vm_page_alloc_after with a free page p, then zeroing (vm_page.c:3403-3415). */
  method CreatePage(vm: Vm, o: Oid, k: nat, p: Pid, mpred: Option<Pid>, fl: Flags)
    requires vm.Valid() && o < |vm.objects| && p < |vm.pages| && AC.Clean(vm.pages[p])
    requires k !in vm.objects[o].rtree && k < PINDEX_LIMIT && mpred == Below(vm.objects[o].rtree, k)
    modifies vm
    ensures vm.Valid() && WorldOf(vm) == Created(old(WorldOf(vm)), o, k, p, fl)
  {
    BelowIsPredecessor(vm.objects, vm.pages, o, k);
    hide AllOk, IsPredecessor, Below, Inserted;
    ghost var pages := vm.pages;
    var page := Prepared(vm.pages[p], fl);
    AC.InitKeeps(vm.objects, vm.pages, o, p, k, mpred, page);
    vm.pages := vm.pages[p := page];
    var failed := vm.InsertAfter(p, o, k, mpred, false);
    if !vm.pages[p].valid && fl.zero {
      AC.PlainChange(vm.objects, vm.pages, p, vm.pages[p].(valid := true));
      vm.pages := vm.pages[p := vm.pages[p].(valid := true)];
    }
    assert vm.pages == pages[p := page.(obj := Some(o), pindex := k, valid := page.valid || fl.zero)];
  }

  /** The object lock was dropped; other threads may have been at work. */
  method Wakeup(vm: Vm, o: Oid, pindex: nat, ma: seq<Pid>, e: Event)
    requires vm.Valid() && o < |vm.objects| && (e.Changed? ==> AllOk(e.w.objects, e.w.pages))
    modifies vm
    ensures vm.Valid() && WorldOf(vm) == After(old(WorldOf(vm)), e, o, pindex, ma) && o < |vm.objects|
  {
    if e.Changed? && |e.w.pages| == |vm.pages| && |e.w.objects| == |vm.objects| && GrabbedAt(e.w, o, pindex, ma) {
      vm.pages, vm.objects := e.w.pages, e.w.objects;
    }
  }

  /** After the page at index k has been dealt with, the cursor moves on along the list. */
  method Advance(vm: Vm, o: Oid, k: nat, m: Pid) returns (m': Option<Pid>)
    requires vm.Valid() && o < |vm.objects| && Exact(vm.objects[o].rtree, k) == Some(m)
    ensures Cursor(vm.objects[o].rtree, k + 1, m', Some(m))
  {
    assert ObjOk(o, vm.objects[o], vm.pages);
    hide AllOk;
    m' := vm.Next(m);
  }

  lemma WhereIs(objects: seq<Obj>, pages: seq<Page>, o: Oid, k: nat)
    requires AllOk(objects, pages) && o < |objects| && k in objects[o].rtree
    ensures objects[o].rtree[k] < |pages|
  {
    assert ObjOk(o, objects[o], pages);
  }

  /** How the visit of an index ends: with a page, with a retry after a wait, or with the end of the call. */
  datatype Visit = Got(p: Pid) | Again | Ended(end: End)

  /** The loop body for one index, at the cursor m, mpred (vm_page.c:3373-3416). */
  method VisitIndex(vm: Vm, o: Oid, pindex: nat, count: nat, fl: Flags, ma: seq<Pid>, env: seq<Event>, n: nat,
                    m: Option<Pid>, mpred: Option<Pid>)
    returns (visit: Visit, n': nat)
    requires vm.Valid() && o < |vm.objects| && pindex + count <= PINDEX_LIMIT && EventsOk(env)
    requires |ma| < count && n <= |env| && Cursor(vm.objects[o].rtree, pindex + |ma|, m, mpred)
    modifies vm
    ensures vm.Valid() && o < |vm.objects| && n <= n' <= |env| && (visit == Again ==> n' > n)
    // a page that is there is only waited for, or given up, while it is busy in a way that matters
    ensures m.Some? && (visit.Again? || (visit.Ended? && visit.end != Panicked)) ==>
      && m.value < |old(vm.pages)| && old(vm.pages)[m.value].busy != Unbusied
      && (fl.ignSbusy ==> old(vm.pages)[m.value].busy == Exclusive)
    ensures var r := Grab(old(WorldOf(vm)), o, pindex, count, fl, ma, env[n..]);
      match visit
      case Got(p) =>
        && p < |vm.pages| == |old(vm.pages)| && AsAsked(fl, old(vm.pages)[p], vm.pages[p])
        && (forall x | 0 <= x < |vm.pages| && x != p :: vm.pages[x] == old(vm.pages)[x])
        && r == Grab(WorldOf(vm), o, pindex, count, fl, ma + [p], env[n'..]) && Exact(vm.objects[o].rtree, pindex + |ma|) == Some(p)
      case Again => r == Grab(WorldOf(vm), o, pindex, count, fl, ma, env[n'..])
      case Ended(end) => r == Outcome(WorldOf(vm), ma, end)
  {
    hide AllOk, Grab, Created, After, GrabbedAt, AC.Clean, Taken, MustWait, LookupLe;
    n' := n;
    ghost var w := WorldOf(vm);
    if m.Some? {
      WhereIs(vm.objects, vm.pages, o, pindex + |ma|);
      WaitsForBusy(fl, vm.pages[m.value]);
    }
    OneStep(w, o, pindex, count, fl, ma, env, n);
    if m.Some? && !MustWait(fl, vm.pages[m.value]) {
      if Panics(fl, vm.pages[m.value]) {
        WireOnly(vm, m.value, fl);
        return Ended(Panicked), n;
      }
      TakenAsAsked(vm.pages[m.value], fl);
      TakePage(vm, m.value, fl);
      return Got(m.value), n;
    }
    if m.None? && n < |env| && env[n].Granted? && env[n].p < |vm.pages| && AC.Clean(vm.pages[env[n].p]) {
      CreatedAsAsked(w, o, pindex + |ma|, env[n].p, fl);
      CreatePage(vm, o, pindex + |ma|, env[n].p, mpred, fl);
      CreatedTree(w, o, pindex + |ma|, env[n].p, fl);
      return Got(env[n].p), n + 1;
    }
    if fl.nowait {
      return Ended(Returned), n;
    }
    if n == |env| {
      return Ended(Asleep), n;
    }
    Wakeup(vm, o, pindex, ma, env[n]);
    return Again, n + 1;
  }

  /** vm_page_grab_pages (vm_page.c:3340-3420) does what the simple form does. */
  method Pages(vm: Vm, o: Oid, pindex: nat, count: nat, fl: Flags, env: seq<Event>) returns (ma: seq<Pid>, end: End)
    requires vm.Valid() && o < |vm.objects| && pindex + count <= PINDEX_LIMIT && EventsOk(env)
    requires (fl.nobusy ==> fl.wired && !fl.sbusy) && (fl.sbusy ==> fl.ignSbusy)
    modifies vm
    ensures vm.Valid()
    ensures Outcome(WorldOf(vm), ma, end) == Grab(old(WorldOf(vm)), o, pindex, count, fl, [], env)
    ensures GrabbedAt(WorldOf(vm), o, pindex, ma) && |ma| <= count && (|ma| < count ==> end != Returned || fl.nowait)
    ensures end == Panicked ==>
      |ma| < count && fl.ignSbusy && !fl.nobusy && !fl.sbusy && SharedAt(WorldOf(vm), o, pindex + |ma|)
  {
    hide AllOk, Grab, Cursor, GrabbedAt, Exact, Below, EventsOk, Vm.Valid;
    ghost var r := GrabResult(WorldOf(vm), o, pindex, count, fl, env);
    ma, end := [], Returned;
    var n := 0;
    var m, mpred := FreshLookup(vm, o, pindex);
    assert env[0..] == env;
    while |ma| < count
      invariant vm.Valid() && o < |vm.objects| && |ma| <= count && n <= |env| && end == Returned
      invariant Cursor(vm.objects[o].rtree, pindex + |ma|, m, mpred)
      invariant r == Grab(WorldOf(vm), o, pindex, count, fl, ma, env[n..])
      decreases |env| - n, count - |ma|
    {
      var visit;
      visit, n := VisitIndex(vm, o, pindex, count, fl, ma, env, n, m, mpred);
      match visit {
        case Got(p) =>
          mpred := Some(p);
          m := Advance(vm, o, pindex + |ma|, p);
          ma := ma + [p];
        case Again =>
          m, mpred := FreshLookup(vm, o, pindex + |ma|);
        case Ended(e) =>
          end := e;
          return;
      }
    }
    GrabDone(WorldOf(vm), o, pindex, count, fl, ma, env[n..]);
    assert r == Outcome(WorldOf(vm), ma, Returned);
  }

  lemma GrabResult(w: World, o: Oid, pindex: nat, count: nat, fl: Flags, env: seq<Event>) returns (r: Outcome)
    requires o < |w.objects|
    ensures r == Grab(w, o, pindex, count, fl, [], env)
    ensures GrabbedAt(r.w, o, pindex, r.ma) && |r.ma| <= count && (|r.ma| < count ==> r.end != Returned || fl.nowait)
    ensures r.end == Panicked ==>
      |r.ma| < count && fl.ignSbusy && !fl.nobusy && !fl.sbusy && SharedAt(r.w, o, pindex + |r.ma|)
  {
    GrabbedPrefix(w, o, pindex, count, fl, [], env);
    hide Grab;
    r := Grab(w, o, pindex, count, fl, [], env);
  }

  lemma CreatedTree(w: World, o: Oid, k: nat, p: Pid, fl: Flags)
    requires o < |w.objects| && p < |w.pages|
    ensures |Created(w, o, k, p, fl).objects| == |w.objects|
    ensures Exact(Created(w, o, k, p, fl).objects[o].rtree, k) == Some(p)
  {
  }

  lemma GrabDone(w: World, o: Oid, pindex: nat, count: nat, fl: Flags, ma: seq<Pid>, env: seq<Event>)
    requires o < |w.objects| && |ma| >= count
    ensures Grab(w, o, pindex, count, fl, ma, env) == Outcome(w, ma, Returned)
  {
  }

  /** One step of the simple form. */
  lemma OneStep(w: World, o: Oid, pindex: nat, count: nat, fl: Flags, ma: seq<Pid>, env: seq<Event>, n: nat)
    requires o < |w.objects| && |ma| < count && n <= |env|
    ensures var k := pindex + |ma|;
      var there := k in w.objects[o].rtree && w.objects[o].rtree[k] < |w.pages|;
      var granted := n < |env| && env[n].Granted? && env[n].p < |w.pages| && AC.Clean(w.pages[env[n].p]);
      var r := Grab(w, o, pindex, count, fl, ma, env[n..]);
      && (there && !MustWait(fl, w.pages[w.objects[o].rtree[k]]) ==>
          var m := w.objects[o].rtree[k];
          r == if Panics(fl, w.pages[m]) then Outcome(Wired(w, m, fl), ma, Panicked)
               else Grab(w.(pages := w.pages[m := Taken(w.pages[m], fl)]), o, pindex, count, fl, ma + [m], env[n..]))
      && (!there && granted ==>
          r == Grab(Created(w, o, k, env[n].p, fl), o, pindex, count, fl, ma + [env[n].p], env[n + 1..]))
      && ((if there then MustWait(fl, w.pages[w.objects[o].rtree[k]]) else !granted) ==>
          if fl.nowait then r == Outcome(w, ma, Returned)
          else if n == |env| then r == Outcome(w, ma, Asleep)
          else r == Grab(After(w, env[n], o, pindex, ma), o, pindex, count, fl, ma, env[n + 1..]))
  {
    if n < |env| {
      assert env[n..][1..] == env[n + 1..] && env[n..][0] == env[n];
    }
  }
}
