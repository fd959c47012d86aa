/**
  The pages of an object (asgn3/vm_page.c:1247-1575): an index by page index, a
  list in index order, and a count, kept in step by insert, remove, replace and
  rename.

  The radix tree is a map; whether an insertion finds memory for its nodes is a
  parameter.  Locks, vnode references and the physical map are not modelled.
 */
module ObjectIndex {
  import opened Lists
  import opened PageTypes
  import opened Wrappers

  type Oid = nat

  /** vm_pindex_t has 64 bits. */
  const PINDEX_LIMIT := 0x1_0000_0000_0000_0000

  datatype Page = Page(obj: Option<Oid>, pindex: nat, busy: Busy, wire: nat, valid: bool, zero: bool, dirty: bool)

  /** memq, rtree and resident_page_count of a vm_object. */
  datatype Obj = Obj(memq: seq<Pid>, rtree: map<nat, Pid>, resident: int)

  // ---- the index -------------------------------------------------------------------

  /** vm_radix_lookup_le: the page with the greatest index up to k. */
  function LookupLe(rtree: map<nat, Pid>, k: nat): Option<Pid> {
    if k in rtree then Some(rtree[k]) else if k == 0 then None else LookupLe(rtree, k - 1)
  }

  /** vm_radix_lookup_ge */
  function LookupGe(rtree: map<nat, Pid>, k: nat): Option<Pid>
    decreases PINDEX_LIMIT - k
  {
    if k >= PINDEX_LIMIT then None else if k in rtree then Some(rtree[k]) else LookupGe(rtree, k + 1)
  }

  lemma {:induction false} LookupLeProps(rtree: map<nat, Pid>, k: nat)
    ensures LookupLe(rtree, k) == None ==> forall i: nat | i <= k :: i !in rtree
    ensures LookupLe(rtree, k).Some? ==>
      exists j: nat :: j <= k && j in rtree && rtree[j] == LookupLe(rtree, k).value && forall i: nat | j < i <= k :: i !in rtree
  {
    if k !in rtree && k > 0 {
      LookupLeProps(rtree, k - 1);
    }
  }

  lemma {:induction false} LookupGeProps(rtree: map<nat, Pid>, k: nat)
    ensures LookupGe(rtree, k) == None ==> forall i: nat | k <= i < PINDEX_LIMIT :: i !in rtree
    ensures LookupGe(rtree, k).Some? ==>
      exists j: nat :: k <= j && j in rtree && rtree[j] == LookupGe(rtree, k).value && forall i: nat | k <= i < j :: i !in rtree
    decreases PINDEX_LIMIT - k
  {
    if k < PINDEX_LIMIT && k !in rtree {
      LookupGeProps(rtree, k + 1);
    }
  }

  // ---- the list ----------------------------------------------------------------------

  function Key(pages: seq<Page>, p: Pid): nat {
    if p < |pages| then pages[p].pindex else 0
  }

  ghost predicate Sorted(memq: seq<Pid>, pages: seq<Page>) {
    forall i, j | 0 <= i < j < |memq| :: Key(pages, memq[i]) < Key(pages, memq[j])
  }

  /** How many pages of the list come before index k. */
  function Rank(memq: seq<Pid>, pages: seq<Page>, k: nat): (r: nat)
    ensures r <= |memq|
  {
    if memq == [] || Key(pages, memq[|memq| - 1]) < k then |memq| else Rank(memq[..|memq| - 1], pages, k)
  }

  lemma {:induction false} RankProps(memq: seq<Pid>, pages: seq<Page>, k: nat)
    requires Sorted(memq, pages)
    ensures forall i | 0 <= i < Rank(memq, pages, k) :: Key(pages, memq[i]) < k
    ensures forall i | Rank(memq, pages, k) <= i < |memq| :: Key(pages, memq[i]) >= k
  {
    if memq != [] && Key(pages, memq[|memq| - 1]) >= k {
      RankProps(memq[..|memq| - 1], pages, k);
    }
  }

  lemma RankUnique(memq: seq<Pid>, pages: seq<Page>, k: nat, r: nat)
    requires Sorted(memq, pages) && r <= |memq|
    requires r > 0 ==> Key(pages, memq[r - 1]) < k
    requires r < |memq| ==> k <= Key(pages, memq[r])
    ensures Rank(memq, pages, k) == r
  {
    RankProps(memq, pages, k);
  }

  function InsertAt(memq: seq<Pid>, i: nat, m: Pid): seq<Pid>
    requires i <= |memq|
  {
    memq[..i] + [m] + memq[i..]
  }

  function DeleteAt(memq: seq<Pid>, i: nat): seq<Pid>
    requires i < |memq|
  {
    memq[..i] + memq[i + 1..]
  }

  // ---- the invariant -------------------------------------------------------------------

  /** The list is strictly sorted and holds exactly the pages of the object ... */
  ghost predicate ListOk(o: Oid, memq: seq<Pid>, pages: seq<Page>) {
    && Sorted(memq, pages)
    && (forall p | p in memq :: p < |pages|)
    && (forall p | 0 <= p < |pages| :: p in memq <==> pages[p].obj == Some(o))
  }

  /** ... the index maps the index of each of them to it, and nothing else. */
  ghost predicate TreeOk(o: Oid, rtree: map<nat, Pid>, pages: seq<Page>) {
    && (forall p | 0 <= p < |pages| && pages[p].obj == Some(o) ::
          pages[p].pindex < PINDEX_LIMIT && pages[p].pindex in rtree && rtree[pages[p].pindex] == p)
    && (forall k | k in rtree :: rtree[k] < |pages| && pages[rtree[k]].obj == Some(o) && pages[rtree[k]].pindex == k)
  }

  ghost predicate ObjOk(o: Oid, obj: Obj, pages: seq<Page>) {
    ListOk(o, obj.memq, pages) && TreeOk(o, obj.rtree, pages) && obj.resident == |obj.memq|
  }

  ghost predicate AllOk(objects: seq<Obj>, pages: seq<Page>) {
    && (forall o | 0 <= o < |objects| :: ObjOk(o, objects[o], pages))
    && (forall p | 0 <= p < |pages| && pages[p].obj.Some? :: pages[p].obj.value < |objects|)
  }

  /** The index and the list hold the same pages under the same indices, and the count is their number. */
  lemma IndexIsList(o: Oid, obj: Obj, pages: seq<Page>)
    requires ObjOk(o, obj, pages)
    ensures forall k, p :: (k in obj.rtree && obj.rtree[k] == p) <==> (p in obj.memq && Key(pages, p) == k)
    ensures obj.resident == |obj.memq| == |obj.rtree|
  {
    forall k, p
      ensures (k in obj.rtree && obj.rtree[k] == p) <==> (p in obj.memq && Key(pages, p) == k)
    {
    }
    CountKeys(obj.memq, obj.rtree, pages);
  }

  lemma CountKeys(memq: seq<Pid>, rtree: map<nat, Pid>, pages: seq<Page>)
    requires Sorted(memq, pages)
    requires forall i | 0 <= i < |memq| :: Key(pages, memq[i]) in rtree
    requires forall k | k in rtree :: rtree[k] in memq && Key(pages, rtree[k]) == k
    ensures |rtree| == |memq|
  {
    var ks := seq(|memq|, i requires 0 <= i < |memq| => Key(pages, memq[i]));
    forall k | k in rtree.Keys
      ensures k in ks
    {
      var i :| 0 <= i < |memq| && memq[i] == rtree[k];
      assert ks[i] == k;
    }
    CountDistinct(ks, rtree.Keys);
  }

  lemma {:induction false} CountDistinct(ks: seq<nat>, s: set<nat>)
    requires forall i, j | 0 <= i < j < |ks| :: ks[i] < ks[j]
    requires forall k :: k in ks <==> k in s
    ensures |s| == |ks|
  {
    if ks == [] {
      assert s == {};
    } else {
      var n := |ks| - 1;
      assert ks == ks[..n] + [ks[n]];
      CountDistinct(ks[..n], s - {ks[n]});
    }
  }

  // ---- inserting and removing, as functions ------------------------------------------------

  function Inserted(obj: Obj, pages: seq<Page>, m: Pid, k: nat): Obj {
    Obj(InsertAt(obj.memq, Rank(obj.memq, pages, k), m), obj.rtree[k := m], obj.resident + 1)
  }

  function Removed(obj: Obj, m: Pid, k: nat): Obj
    requires m in obj.memq
  {
    Obj(DeleteAt(obj.memq, IndexOf(obj.memq, m)), obj.rtree - {k}, obj.resident - 1)
  }

  lemma InsertMembers(memq: seq<Pid>, r: nat, m: Pid)
    requires r <= |memq|
    ensures forall p :: p in InsertAt(memq, r, m) <==> p in memq || p == m
  {
    assert memq == memq[..r] + memq[r..];
    assert forall p :: p in memq <==> p in memq[..r] || p in memq[r..];
  }

  lemma InsertAtIndex(memq: seq<Pid>, r: nat, m: Pid, i: nat)
    requires r <= |memq| && i <= |memq|
    ensures |InsertAt(memq, r, m)| == |memq| + 1
    ensures InsertAt(memq, r, m)[i] == if i < r then memq[i] else if i == r then m else memq[i - 1]
  {
  }

  lemma SortedInsert(memq: seq<Pid>, pages: seq<Page>, m: Pid, pages': seq<Page>, k: nat)
    requires Sorted(memq, pages) && m !in memq && Key(pages', m) == k
    requires forall p | p in memq :: Key(pages', p) == Key(pages, p) && Key(pages, p) != k
    ensures Sorted(InsertAt(memq, Rank(memq, pages, k), m), pages')
  {
    RankProps(memq, pages, k);
    var r := Rank(memq, pages, k);
    var memq' := InsertAt(memq, r, m);
    InsertAtIndex(memq, r, m, 0);
    forall i, j | 0 <= i < j < |memq'|
      ensures Key(pages', memq'[i]) < Key(pages', memq'[j])
    {
      hide *;
      InsertAtIndex(memq, r, m, i);
      InsertAtIndex(memq, r, m, j);
      PairInOrder(memq, pages, pages', r, k, i, j);
    }
  }

  /** Two places of a list that has a new page of index k at place r. */
  lemma PairInOrder(memq: seq<Pid>, pages: seq<Page>, pages': seq<Page>, r: nat, k: nat, i: nat, j: nat)
    requires Sorted(memq, pages) && r <= |memq| && i < j <= |memq|
    requires forall p | p in memq :: Key(pages', p) == Key(pages, p) && Key(pages, p) != k
    requires forall x | 0 <= x < r :: Key(pages, memq[x]) < k
    requires forall x | r <= x < |memq| :: Key(pages, memq[x]) >= k
    ensures i != r ==> Key(pages', memq[if i < r then i else i - 1]) == Key(pages, memq[if i < r then i else i - 1])
    ensures i < r ==> Key(pages, memq[i]) < k
    ensures j > r ==> k < Key(pages, memq[j - 1]) == Key(pages', memq[j - 1])
    ensures j < r ==> Key(pages', memq[i]) < Key(pages', memq[j])
    ensures i < r < j ==> Key(pages', memq[i]) < Key(pages', memq[j - 1])
    ensures r < i ==> Key(pages', memq[i - 1]) < Key(pages', memq[j - 1])
  {
    hide Key;
    assert forall x | 0 <= x < |memq| :: memq[x] in memq;
  }

  lemma DeleteAtIndex(memq: seq<Pid>, r: nat, i: nat)
    requires r < |memq| && i < |memq| - 1
    ensures |DeleteAt(memq, r)| == |memq| - 1
    ensures DeleteAt(memq, r)[i] == if i < r then memq[i] else memq[i + 1]
  {
  }

  lemma {:induction false} DeleteMembers(memq: seq<Pid>, r: nat)
    requires r < |memq| && forall i, j | 0 <= i < j < |memq| :: memq[i] != memq[j]
    ensures forall p :: p in DeleteAt(memq, r) <==> p in memq && p != memq[r]
  {
    assert memq == memq[..r] + [memq[r]] + memq[r + 1..];
    assert forall p :: p in memq <==> p in memq[..r] || p == memq[r] || p in memq[r + 1..];
  }

  lemma SortedDelete(memq: seq<Pid>, pages: seq<Page>, m: Pid, pages': seq<Page>)
    requires Sorted(memq, pages) && m in memq
    requires forall p | p in memq && p != m :: Key(pages', p) == Key(pages, p)
    ensures Sorted(DeleteAt(memq, IndexOf(memq, m)), pages')
    ensures forall p :: p in DeleteAt(memq, IndexOf(memq, m)) <==> p in memq && p != m
  {
    hide Key, IndexOf;
    var r := IndexOf(memq, m);
    var memq' := DeleteAt(memq, r);
    assert forall i, j | 0 <= i < j < |memq| :: memq[i] != memq[j];
    DeleteMembers(memq, r);
    forall i, j | 0 <= i < j < |memq'|
      ensures Key(pages', memq'[i]) < Key(pages', memq'[j])
    {
      DeleteAtIndex(memq, r, i);
      DeleteAtIndex(memq, r, j);
      assert memq'[i] in memq' && memq'[j] in memq';
    }
  }

  lemma InsertList(o: Oid, memq: seq<Pid>, pages: seq<Page>, m: Pid, k: nat, page: Page)
    requires ListOk(o, memq, pages) && m < |pages| && pages[m].obj == None
    requires forall p | p in memq :: Key(pages, p) != k
    requires page.obj == Some(o) && page.pindex == k
    ensures ListOk(o, InsertAt(memq, Rank(memq, pages, k), m), pages[m := page])
  {
    assert m !in memq;
    SortedInsert(memq, pages, m, pages[m := page], k);
    InsertMembers(memq, Rank(memq, pages, k), m);
    hide Rank, InsertAt, Sorted;
  }

  lemma InsertTree(o: Oid, rtree: map<nat, Pid>, pages: seq<Page>, m: Pid, k: nat, page: Page)
    requires TreeOk(o, rtree, pages) && m < |pages| && pages[m].obj == None
    requires k < PINDEX_LIMIT && k !in rtree && page.obj == Some(o) && page.pindex == k
    ensures TreeOk(o, rtree[k := m], pages[m := page])
  {
  }

  /** Inserting a page that belongs to no object keeps every object consistent. */
  lemma InsertKeeps(objects: seq<Obj>, pages: seq<Page>, o: Oid, m: Pid, k: nat, page: Page)
    requires AllOk(objects, pages) && o < |objects| && m < |pages| && pages[m].obj == None
    requires k < PINDEX_LIMIT && k !in objects[o].rtree && page.obj == Some(o) && page.pindex == k
    ensures AllOk(objects[o := Inserted(objects[o], pages, m, k)], pages[m := page])
  {
    var obj := objects[o];
    assert ObjOk(o, obj, pages);
    IndexIsList(o, obj, pages);
    InsertList(o, obj.memq, pages, m, k, page);
    InsertTree(o, obj.rtree, pages, m, k, page);
    hide Rank, ListOk, TreeOk;
    OthersKept(objects, pages, o, Inserted(obj, pages, m, k), m, page);
  }

  /** The other objects do not notice a page that is, and was, not theirs. */
  lemma OthersKept(objects: seq<Obj>, pages: seq<Page>, o: Oid, obj: Obj, m: Pid, page: Page)
    requires AllOk(objects, pages) && o < |objects| && m < |pages| && ObjOk(o, obj, pages[m := page])
    requires (pages[m].obj == None || pages[m].obj == Some(o)) && (page.obj == None || page.obj == Some(o))
    ensures AllOk(objects[o := obj], pages[m := page])
  {
    forall x | 0 <= x < |objects| && x != o
      ensures ObjOk(x, objects[x], pages[m := page])
    {
      assert ObjOk(x, objects[x], pages);
      Untouched(x, objects[x], pages, m, page);
    }
    hide ObjOk;
  }

  lemma Untouched(x: Oid, obj: Obj, pages: seq<Page>, m: Pid, page: Page)
    requires ObjOk(x, obj, pages) && m < |pages| && pages[m].obj != Some(x) && page.obj != Some(x)
    ensures ObjOk(x, obj, pages[m := page])
  {
    assert m !in obj.memq;
  }

  lemma RemoveList(o: Oid, memq: seq<Pid>, pages: seq<Page>, m: Pid, page: Page)
    requires ListOk(o, memq, pages) && m < |pages| && pages[m].obj == Some(o) && page.obj == None
    ensures m in memq && ListOk(o, DeleteAt(memq, IndexOf(memq, m)), pages[m := page])
  {
    assert m in memq;
    SortedDelete(memq, pages, m, pages[m := page]);
    hide DeleteAt, IndexOf, Sorted;
  }

  lemma RemoveTree(o: Oid, rtree: map<nat, Pid>, pages: seq<Page>, m: Pid, page: Page)
    requires TreeOk(o, rtree, pages) && m < |pages| && pages[m].obj == Some(o) && page.obj == None
    ensures TreeOk(o, rtree - {pages[m].pindex}, pages[m := page])
  {
  }

  /** Removing a page keeps every object consistent. */
  lemma RemoveKeeps(objects: seq<Obj>, pages: seq<Page>, m: Pid, page: Page)
    requires AllOk(objects, pages) && m < |pages| && pages[m].obj.Some? && page.obj == None
    ensures var o := pages[m].obj.value;
            && o < |objects| && m in objects[o].memq
            && AllOk(objects[o := Removed(objects[o], m, pages[m].pindex)], pages[m := page])
  {
    var o := pages[m].obj.value;
    var obj := objects[o];
    assert ObjOk(o, obj, pages);
    RemoveList(o, obj.memq, pages, m, page);
    RemoveTree(o, obj.rtree, pages, m, page);
    hide ListOk, TreeOk, IndexOf;
    OthersKept(objects, pages, o, Removed(obj, m, pages[m].pindex), m, page);
  }

  lemma InsertDelete(memq: seq<Pid>, r: nat, m: Pid)
    requires r <= |memq| && m !in memq
    ensures m in InsertAt(memq, r, m) && IndexOf(InsertAt(memq, r, m), m) == r
    ensures DeleteAt(InsertAt(memq, r, m), r) == memq
  {
    var memq' := InsertAt(memq, r, m);
    assert memq'[r] == m;
    hide IndexOf;
    assert forall i | 0 <= i < |memq'| && i != r :: memq'[i] == (if i < r then memq[i] else memq[i - 1]) != m;
    assert DeleteAt(memq', r) == memq;
  }

  /** Removing what was inserted restores list, index and count. */
  lemma InsertRemove(obj: Obj, pages: seq<Page>, m: Pid, k: nat)
    requires m !in obj.memq && k !in obj.rtree
    ensures m in Inserted(obj, pages, m, k).memq
    ensures Removed(Inserted(obj, pages, m, k), m, k) == obj
  {
    InsertDelete(obj.memq, Rank(obj.memq, pages, k), m);
    hide IndexOf, DeleteAt, InsertAt, Rank;
    assert obj.rtree[k := m] - {k} == obj.rtree;
  }

  lemma KeyInTree(o: Oid, obj: Obj, pages: seq<Page>, i: nat)
    requires ObjOk(o, obj, pages) && i < |obj.memq|
    ensures Key(pages, obj.memq[i]) in obj.rtree && obj.rtree[Key(pages, obj.memq[i])] == obj.memq[i]
  {
    hide Sorted;
    assert obj.memq[i] in obj.memq;
  }

  lemma TreeInList(o: Oid, obj: Obj, pages: seq<Page>, k: nat) returns (i: nat)
    requires ObjOk(o, obj, pages) && k in obj.rtree
    ensures i < |obj.memq| && obj.memq[i] == obj.rtree[k] && Key(pages, obj.memq[i]) == k
  {
    hide Sorted;
    assert obj.rtree[k] in obj.memq;
    i :| 0 <= i < |obj.memq| && obj.memq[i] == obj.rtree[k];
  }

  lemma ListSorted(o: Oid, obj: Obj, pages: seq<Page>)
    requires ObjOk(o, obj, pages)
    ensures Sorted(obj.memq, pages)
    ensures forall i, j | 0 <= i < j < |obj.memq| :: obj.memq[i] != obj.memq[j]
  {
  }

  lemma PlaceOf(memq: seq<Pid>, i: nat)
    requires forall i, j | 0 <= i < j < |memq| :: memq[i] != memq[j]
    requires i < |memq|
    ensures memq[i] in memq && IndexOf(memq, memq[i]) == i
  {
    hide IndexOf;
    var j := IndexOf(memq, memq[i]);
  }

  /** The less-or-equal lookup gives the page right before index k. */
  lemma LookupPlace(o: Oid, obj: Obj, pages: seq<Page>, k: nat) returns (i: int)
    requires ObjOk(o, obj, pages) && k !in obj.rtree
    ensures -1 <= i < |obj.memq|
    ensures LookupLe(obj.rtree, k) == if i == -1 then None else Some(obj.memq[i])
    ensures i >= 0 ==> Key(pages, obj.memq[i]) < k
    ensures i + 1 < |obj.memq| ==> k < Key(pages, obj.memq[i + 1])
  {
    ListSorted(o, obj, pages);
    LookupLeProps(obj.rtree, k);
    hide ObjOk, LookupLe, Key;
    var le := LookupLe(obj.rtree, k);
    if le == None {
      i := -1;
      if obj.memq != [] {
        KeyInTree(o, obj, pages, 0);
      }
    } else {
      var j: nat :| j <= k && j in obj.rtree && obj.rtree[j] == le.value && forall x: nat | j < x <= k :: x !in obj.rtree;
      i := TreeInList(o, obj, pages, j);
      if i + 1 < |obj.memq| {
        KeyInTree(o, obj, pages, i + 1);
      }
    }
  }

  // ---- neighbours --------------------------------------------------------------------

  /** What the assertions of vm_page_insert_after ask: mpred is on the list right before index k. */
  predicate IsPredecessor(memq: seq<Pid>, pages: seq<Page>, k: nat, mpred: Option<Pid>) {
    match mpred
    case None => memq == [] || k < Key(pages, memq[0])
    case Some(p) =>
      && p in memq && Key(pages, p) < k
      && (IndexOf(memq, p) + 1 < |memq| ==> k < Key(pages, memq[IndexOf(memq, p) + 1]))
  }

  /** The place after a page, or the head of the list. */
  function PlaceAfter(memq: seq<Pid>, mpred: Option<Pid>): (r: nat)
    requires mpred.Some? ==> mpred.value in memq
    ensures r <= |memq|
  {
    match mpred
    case None => 0
    case Some(p) => IndexOf(memq, p) + 1
  }

  lemma PlaceIsRank(memq: seq<Pid>, pages: seq<Page>, k: nat, r: nat)
    requires Sorted(memq, pages) && r <= |memq|
    requires r > 0 ==> Key(pages, memq[r - 1]) < k
    requires r < |memq| ==> k < Key(pages, memq[r])
    ensures Rank(memq, pages, k) == r && forall i | 0 <= i < |memq| :: Key(pages, memq[i]) != k
  {
    RankUnique(memq, pages, k, r);
    RankProps(memq, pages, k);
    hide Rank, Key;
    assert forall i | r < i < |memq| :: Key(pages, memq[r]) < Key(pages, memq[i]);
  }

  lemma PredecessorPlace(o: Oid, obj: Obj, pages: seq<Page>, k: nat, mpred: Option<Pid>)
    requires ObjOk(o, obj, pages) && IsPredecessor(obj.memq, pages, k, mpred)
    ensures PlaceAfter(obj.memq, mpred) == Rank(obj.memq, pages, k) && k !in obj.rtree
  {
    hide Rank, IndexOf, ObjOk, Key, Sorted;
    ListSorted(o, obj, pages);
    PlaceIsRank(obj.memq, pages, k, PlaceAfter(obj.memq, mpred));
    if k in obj.rtree {
      var i := TreeInList(o, obj, pages, k);
      assert false;
    }
  }

  /** What the lookup finds satisfies those assertions. */
  lemma LookupGivesPredecessor(o: Oid, obj: Obj, pages: seq<Page>, k: nat)
    requires ObjOk(o, obj, pages) && k !in obj.rtree
    ensures IsPredecessor(obj.memq, pages, k, LookupLe(obj.rtree, k))
  {
    ListSorted(o, obj, pages);
    var i := LookupPlace(o, obj, pages, k);
    hide ObjOk, LookupLe, IndexOf, Sorted, Key;
    if i >= 0 {
      PlaceOf(obj.memq, i);
    }
  }

  // ---- the operations --------------------------------------------------------------------

  class Vm {
    var pages: seq<Page>
    var objects: seq<Obj>

    ghost predicate Valid()
      reads this
    {
      AllOk(objects, pages)
    }

    constructor (npages: nat, nobjects: nat)
      ensures Valid() && |pages| == npages && |objects| == nobjects
      ensures forall p | 0 <= p < npages :: pages[p].obj == None
    {
      pages := seq(npages, _ => Page(None, 0, Unbusied, 0, false, false, false));
      objects := seq(nobjects, _ => Obj([], map[], 0));
    }

    /** vm_page_insert_radixdone (vm_page.c:1317-1353) */
    method InsertRadixDone(m: Pid, o: Oid, mpred: Option<Pid>)
      requires o < |objects| && (mpred.Some? ==> mpred.value in objects[o].memq)
      modifies `objects
      ensures var obj := old(objects[o]);
        objects == old(objects)[o :=
          obj.(memq := InsertAt(obj.memq, PlaceAfter(obj.memq, mpred), m), resident := obj.resident + 1)]
    {
      var obj := objects[o];
      if mpred.Some? {
        obj := obj.(memq := InsertAt(obj.memq, IndexOf(obj.memq, mpred.value) + 1, m));
      } else {
        obj := obj.(memq := [m] + obj.memq);
        assert [m] + old(objects[o]).memq == InsertAt(old(objects[o]).memq, 0, m);
      }
      obj := obj.(resident := obj.resident + 1);
      objects := objects[o := obj];
    }

    /** vm_page_insert_after (vm_page.c:1267-1304); `fails` says whether the radix tree runs out of nodes. */
    method InsertAfter(m: Pid, o: Oid, k: nat, mpred: Option<Pid>, fails: bool) returns (failed: bool)
      requires Valid() && m < |pages| && o < |objects| && k < PINDEX_LIMIT && pages[m].obj == None
      requires IsPredecessor(objects[o].memq, pages, k, mpred)
      modifies this
      ensures Valid() && failed == fails
      ensures failed ==> objects == old(objects) && pages == old(pages)[m := old(pages[m]).(pindex := 0)]
      ensures !failed ==> objects == old(objects)[o := Inserted(old(objects[o]), old(pages), m, k)]
      ensures !failed ==> pages == old(pages)[m := old(pages[m]).(obj := Some(o), pindex := k)]
    {
      assert ObjOk(o, objects[o], pages);
      PredecessorPlace(o, objects[o], pages, k, mpred);
      InsertKeeps(objects, pages, o, m, k, pages[m].(obj := Some(o), pindex := k));
      ResetKeeps(objects, pages, m);
      hide AllOk, ObjOk, IsPredecessor, IndexOf, Rank, InsertAt;
      ghost var objects' := objects[o := Inserted(objects[o], pages, m, k)];
      var page := pages[m].(obj := Some(o), pindex := k);
      if fails {
        page := page.(obj := None, pindex := 0);
        assert page == pages[m].(pindex := 0);
        pages := pages[m := page];
        return true;
      }
      objects := objects[o := objects[o].(rtree := objects[o].rtree[k := m])];
      InsertRadixDone(m, o, mpred);
      assert objects == objects';
      pages := pages[m := page];
      failed := false;
    }

    /** vm_page_insert (vm_page.c:1247-1255) */
    method Insert(m: Pid, o: Oid, k: nat, fails: bool) returns (failed: bool)
      requires Valid() && m < |pages| && o < |objects| && k < PINDEX_LIMIT && pages[m].obj == None
      requires k !in objects[o].rtree
      modifies this
      ensures Valid() && failed == fails
      ensures failed ==> objects == old(objects) && pages == old(pages)[m := old(pages[m]).(pindex := 0)]
      ensures !failed ==> objects == old(objects)[o := Inserted(old(objects[o]), old(pages), m, k)]
      ensures !failed ==> pages == old(pages)[m := old(pages[m]).(obj := Some(o), pindex := k)]
    {
      assert ObjOk(o, objects[o], pages);
      LookupGivesPredecessor(o, objects[o], pages, k);
      hide AllOk, ObjOk, IsPredecessor, IndexOf, Rank, InsertAt;
      var mpred := LookupLe(objects[o].rtree, k);
      failed := InsertAfter(m, o, k, mpred, fails);
    }

    /** The work of vm_page_remove (vm_page.c:1371-1395). */
    method Unlink(m: Pid)
      requires m < |pages| && pages[m].obj.Some? && pages[m].obj.value < |objects|
      requires m in objects[pages[m].obj.value].memq
      modifies this
      ensures pages == old(pages)[m := Detached(old(pages[m]))]
      ensures var o := old(pages[m].obj).value;
        objects == old(objects)[o := Removed(old(objects)[o], m, old(pages[m].pindex))]
    {
      hide IndexOf, DeleteAt;
      var page, o := pages[m], pages[m].obj.value;
      var obj := objects[o];
      if page.busy == Exclusive {
        page := page.(busy := Unbusied);
      }
      obj := obj.(rtree := obj.rtree - {page.pindex});
      obj := obj.(memq := DeleteAt(obj.memq, IndexOf(obj.memq, m)));
      obj := obj.(resident := obj.resident - 1);
      objects := objects[o := obj];
      pages := pages[m := page.(obj := None)];
    }

    /** vm_page_remove (vm_page.c:1363-1396) */
    method Remove(m: Pid)
      requires Valid() && m < |pages|
      modifies this
      ensures Valid()
      ensures old(pages[m].obj) == None ==> pages == old(pages) && objects == old(objects)
      ensures old(pages[m].obj).Some? ==> pages == old(pages)[m := Detached(old(pages[m]))]
      ensures old(pages[m].obj).Some? ==> pages[m].obj == None
      ensures old(pages[m].obj).Some? ==>
        pages[m].busy == if old(pages[m]).busy == Exclusive then Unbusied else old(pages[m]).busy
      ensures old(pages[m].obj).Some? ==>
        && old(pages[m].obj).value < |old(objects)| && m in old(objects)[old(pages[m].obj).value].memq
        && objects == old(objects)[old(pages[m].obj).value :=
             Removed(old(objects)[old(pages[m].obj).value], m, old(pages[m].pindex))]
    {
      if pages[m].obj.Some? {
        RemoveKeeps(objects, pages, m, Detached(pages[m]));
        hide AllOk, Removed;
        Unlink(m);
      }
    }

    /** vm_page_replace (vm_page.c:1479-1516): the new page takes the place of the old one. */
    method Replace(mnew: Pid, o: Oid, k: nat) returns (mold: Pid)
      requires Valid() && mnew < |pages| && o < |objects| && pages[mnew].obj == None && k in objects[o].rtree
      modifies this
      ensures Valid() && mold == old(objects[o]).rtree[k] && mold < |old(pages)| && mold in old(objects[o]).memq
      ensures pages == old(pages)[mnew := old(pages[mnew]).(obj := Some(o), pindex := k)]
        [mold := old(pages)[mold].(obj := None, busy := Unbusied)]
      ensures objects == old(objects)[o := Replaced(old(objects[o]), mold, mnew, k)]
    {
      ReplaceKeeps(objects, pages, o, mnew, k);
      hide AllOk, IndexOf, InsertAt, DeleteAt;
      var obj := objects[o];
      mold := obj.rtree[k];
      ghost var objects' := objects[o := Replaced(obj, mold, mnew, k)];
      obj := obj.(rtree := obj.rtree[k := mnew]);
      ReplaceInList(obj.memq, mold, mnew);
      obj := obj.(memq := InsertAt(obj.memq, IndexOf(obj.memq, mold) + 1, mnew));
      obj := obj.(memq := DeleteAt(obj.memq, IndexOf(obj.memq, mold)));
      objects := objects[o := obj];
      assert objects == objects';
      var page, gone := pages[mnew].(obj := Some(o), pindex := k), pages[mold].(obj := None, busy := Unbusied);
      pages := pages[mnew := page][mold := gone];
    }

    /** vm_page_rename (vm_page.c:1536-1575) */
    method Rename(m: Pid, o: Oid, k: nat, fails: bool) returns (failed: bool)
      requires Valid() && m < |pages| && o < |objects| && k < PINDEX_LIMIT && pages[m].obj.Some?
      requires k !in objects[o].rtree && LookupLe(objects[o].rtree, k) != Some(m)
      modifies this
      ensures Valid() && failed == fails
      ensures failed ==> pages == old(pages) && objects == old(objects)
      ensures !failed ==> pages == old(pages)[m := Renamed(old(pages[m]), o, k)]
      ensures !failed ==> |pages| == |old(pages)| && pages[m].obj == Some(o) && pages[m].pindex == k && pages[m].dirty
      ensures MayRemove(old(objects), old(pages), m)
      ensures !failed ==> objects == Moved(old(objects), old(pages), m, o, k)
    {
      hide AllOk, ObjOk, Sorted, LookupLe, IsPredecessor, IndexOf, Rank, Moved, Removed, InsertAt, DeleteAt, PlaceAfter,
        Detached, Inserted, Key;
      RenameKeeps(objects, pages, m, o, k);
      failed := fails;
      if fails {
        return;
      }
      var mpred := LookupLe(objects[o].rtree, k);
      RenameSteps(objects, pages, m, o, k, mpred);
      objects := objects[o := objects[o].(rtree := objects[o].rtree[k := m])];
      Unlink(m);
      var page := pages[m].(obj := Some(o), pindex := k);
      InsertRadixDone(m, o, mpred);
      pages := pages[m := page.(dirty := true)];
      assert pages == old(pages)[m := Renamed(old(pages[m]), o, k)];
    }

    /** vm_page_lookup (vm_page.c:1406-1412) */
    method Lookup(o: Oid, k: nat) returns (r: Option<Pid>)
      requires Valid() && o < |objects|
      ensures r.Some? ==> r.value < |pages| && pages[r.value].obj == Some(o) && pages[r.value].pindex == k
      ensures r.None? ==> forall p | 0 <= p < |pages| && pages[p].obj == Some(o) :: pages[p].pindex != k
    {
      assert ObjOk(o, objects[o], pages);
      r := if k in objects[o].rtree then Some(objects[o].rtree[k]) else None;
    }

    /** vm_page_find_least (vm_page.c:1422-1431) */
    method FindLeast(o: Oid, k: nat) returns (r: Option<Pid>)
      requires Valid() && o < |objects|
      ensures r.Some? ==> r.value < |pages| && pages[r.value].obj == Some(o) && pages[r.value].pindex >= k
      ensures r.Some? ==> forall p | 0 <= p < |pages| && pages[p].obj == Some(o) && pages[p].pindex >= k ::
        pages[r.value].pindex <= pages[p].pindex
      ensures r.None? ==> forall p | 0 <= p < |pages| && pages[p].obj == Some(o) :: pages[p].pindex < k
    {
      ghost var obj := objects[o];
      assert ObjOk(o, obj, pages);
      hide Sorted;
      ListSorted(o, obj, pages);
      FirstIsLeast(o, obj, pages);
      r := None;
      if objects[o].memq != [] {
        r := Some(objects[o].memq[0]);
        if pages[r.value].pindex < k {
          LookupGeProps(objects[o].rtree, k);
          hide LookupGe;
          r := LookupGe(objects[o].rtree, k);
        }
      }
    }

    /** vm_page_next (vm_page.c:1439-1451): the page at the next index, if it is there. */
    method Next(m: Pid) returns (r: Option<Pid>)
      requires Valid() && m < |pages| && pages[m].obj.Some?
      ensures pages[m].obj.value < |objects|
      ensures var rtree := objects[pages[m].obj.value].rtree;
        r == if pages[m].pindex + 1 in rtree then Some(rtree[pages[m].pindex + 1]) else None
    {
      var o := pages[m].obj.value;
      assert ObjOk(o, objects[o], pages);
      var memq := objects[o].memq;
      ListSorted(o, objects[o], pages);
      assert m in memq;
      var i := IndexOf(memq, m);
      NextInTree(o, objects[o], pages, i);
      hide ObjOk, Sorted, IndexOf, AllOk;
      if i + 1 < |memq| && Key(pages, memq[i + 1]) == (pages[m].pindex + 1) % PINDEX_LIMIT {
        r := Some(memq[i + 1]);
      } else {
        r := None;
      }
    }

    /** vm_page_prev (vm_page.c:1459-1471) */
    method Prev(m: Pid) returns (r: Option<Pid>)
      requires Valid() && m < |pages| && pages[m].obj.Some?
      ensures pages[m].obj.value < |objects|
      ensures var rtree := objects[pages[m].obj.value].rtree;
        r == if pages[m].pindex > 0 && pages[m].pindex - 1 in rtree then Some(rtree[pages[m].pindex - 1]) else None
    {
      var o := pages[m].obj.value;
      assert ObjOk(o, objects[o], pages);
      var memq := objects[o].memq;
      ListSorted(o, objects[o], pages);
      assert m in memq;
      var i := IndexOf(memq, m);
      PrevInTree(o, objects[o], pages, i);
      hide ObjOk, Sorted, IndexOf, AllOk;
      if i > 0 && Key(pages, memq[i - 1]) == (pages[m].pindex - 1) % PINDEX_LIMIT {
        r := Some(memq[i - 1]);
      } else {
        r := None;
      }
    }
  }

  /** Neighbours on the list are neighbours in the index; the wrapped index of a last or first page is never found. */
  lemma NextInTree(o: Oid, obj: Obj, pages: seq<Page>, i: nat)
    requires ObjOk(o, obj, pages) && i < |obj.memq|
    ensures var k := Key(pages, obj.memq[i]);
      && k < PINDEX_LIMIT
      && (if i + 1 < |obj.memq| && Key(pages, obj.memq[i + 1]) == (k + 1) % PINDEX_LIMIT
          then k + 1 in obj.rtree && obj.rtree[k + 1] == obj.memq[i + 1] else k + 1 !in obj.rtree)
  {
    var k := Key(pages, obj.memq[i]);
    assert obj.memq[i] in obj.memq;
    assert k < PINDEX_LIMIT;
    ListSorted(o, obj, pages);
    hide TreeOk, ListOk;
    if i + 1 < |obj.memq| {
      KeyInTree(o, obj, pages, i + 1);
      assert forall x | i + 1 < x < |obj.memq| :: Key(pages, obj.memq[i + 1]) < Key(pages, obj.memq[x]);
    }
    if k + 1 in obj.rtree {
      var j := TreeInList(o, obj, pages, k + 1);
      KeyInTree(o, obj, pages, j);
      assert k + 1 < PINDEX_LIMIT;
      hide ObjOk, Key;
      assert j == i + 1;
    }
  }

  lemma PrevInTree(o: Oid, obj: Obj, pages: seq<Page>, i: nat)
    requires ObjOk(o, obj, pages) && i < |obj.memq|
    ensures var k := Key(pages, obj.memq[i]);
      && k < PINDEX_LIMIT
      && (if i > 0 && Key(pages, obj.memq[i - 1]) == (k - 1) % PINDEX_LIMIT
          then k > 0 && k - 1 in obj.rtree && obj.rtree[k - 1] == obj.memq[i - 1] else k > 0 ==> k - 1 !in obj.rtree)
  {
    var k := Key(pages, obj.memq[i]);
    assert obj.memq[i] in obj.memq;
    assert k < PINDEX_LIMIT;
    hide ObjOk, Key;
    ListSorted(o, obj, pages);
    if i > 0 {
      KeyInTree(o, obj, pages, i - 1);
      assert forall x | 0 <= x < i - 1 :: Key(pages, obj.memq[x]) < Key(pages, obj.memq[i - 1]);
    }
    assert (k - 1) % PINDEX_LIMIT == if k == 0 then PINDEX_LIMIT - 1 else k - 1;
    if k > 0 && k - 1 in obj.rtree {
      var j := TreeInList(o, obj, pages, k - 1);
      assert j == i - 1;
    }
  }

  lemma FirstIsLeast(o: Oid, obj: Obj, pages: seq<Page>)
    requires ObjOk(o, obj, pages)
    ensures obj.memq == [] ==> forall p | 0 <= p < |pages| :: pages[p].obj != Some(o)
    ensures obj.memq != [] ==>
      && obj.memq[0] in obj.memq
      && forall p | 0 <= p < |pages| && pages[p].obj == Some(o) :: Key(pages, obj.memq[0]) <= pages[p].pindex
  {
    forall p | 0 <= p < |pages| && pages[p].obj == Some(o)
      ensures obj.memq != [] && Key(pages, obj.memq[0]) <= pages[p].pindex
    {
      assert p in obj.memq;
      var i :| 0 <= i < |obj.memq| && obj.memq[i] == p;
    }
  }

  // ---- renaming --------------------------------------------------------------------------

  function Replaced(obj: Obj, mold: Pid, mnew: Pid, k: nat): Obj
    requires mold in obj.memq
  {
    obj.(memq := obj.memq[IndexOf(obj.memq, mold) := mnew], rtree := obj.rtree[k := mnew])
  }

  function Renamed(page: Page, o: Oid, k: nat): Page {
    Detached(page).(obj := Some(o), pindex := k, dirty := true)
  }

  predicate MayRemove(objects: seq<Obj>, pages: seq<Page>, m: Pid) {
    && m < |pages| && pages[m].obj.Some? && pages[m].obj.value < |objects|
    && m in objects[pages[m].obj.value].memq
  }

  function AfterRemove(objects: seq<Obj>, pages: seq<Page>, m: Pid): seq<Obj>
    requires MayRemove(objects, pages, m)
  {
    objects[pages[m].obj.value := Removed(objects[pages[m].obj.value], m, pages[m].pindex)]
  }

  /** Taken out of the old object, then put into the new one. */
  function Moved(objects: seq<Obj>, pages: seq<Page>, m: Pid, o: Oid, k: nat): seq<Obj>
    requires MayRemove(objects, pages, m) && o < |objects|
  {
    var mid := AfterRemove(objects, pages, m);
    mid[o := Inserted(mid[o], pages[m := Detached(pages[m])], m, k)]
  }

  lemma {:induction false} LookupLeWithout(rtree: map<nat, Pid>, k: nat, j: nat)
    requires j in rtree && LookupLe(rtree, k) != Some(rtree[j])
    ensures LookupLe(rtree - {j}, k) == LookupLe(rtree, k)
  {
    if k !in rtree && k > 0 {
      LookupLeWithout(rtree, k - 1, j);
    }
  }

  /**
    The predecessor was looked up before the page was taken out of its old
    object; unless it is the page itself, it is still right afterwards.
   */
  lemma RenameKeeps(objects: seq<Obj>, pages: seq<Page>, m: Pid, o: Oid, k: nat)
    requires AllOk(objects, pages) && m < |pages| && o < |objects| && k < PINDEX_LIMIT && pages[m].obj.Some?
    requires k !in objects[o].rtree && LookupLe(objects[o].rtree, k) != Some(m)
    ensures MayRemove(objects, pages, m)
    ensures AllOk(Moved(objects, pages, m, o, k), pages[m := Renamed(pages[m], o, k)])
    ensures var mid, mpred := AfterRemove(objects, pages, m), LookupLe(objects[o].rtree, k);
      && (mpred.Some? ==> mpred.value in mid[o].memq)
      && PlaceAfter(mid[o].memq, mpred) == Rank(mid[o].memq, pages[m := Detached(pages[m])], k)
    ensures pages[m].obj == Some(o) ==> pages[m].pindex != k
  {
    var oo := pages[m].obj.value;
    assert ObjOk(oo, objects[oo], pages);
    RemoveKeeps(objects, pages, m, Detached(pages[m]));
    var mid, pages' := AfterRemove(objects, pages, m), pages[m := Detached(pages[m])];
    assert ObjOk(o, mid[o], pages');
    if o == oo {
      LookupLeWithout(objects[o].rtree, k, pages[m].pindex);
    }
    hide LookupLe, IndexOf, Rank;
    assert LookupLe(mid[o].rtree, k) == LookupLe(objects[o].rtree, k);
    LookupGivesPredecessor(o, mid[o], pages', k);
    PredecessorPlace(o, mid[o], pages', k, LookupLe(mid[o].rtree, k));
    InsertKeeps(mid, pages', o, m, k, Renamed(pages[m], o, k));
    hide AllOk, ObjOk, Inserted;
    assert pages'[m := Renamed(pages[m], o, k)] == pages[m := Renamed(pages[m], o, k)];
  }

  /** The steps of vm_page_rename: index first, then out of the old object, then onto the new list. */
  lemma RenameSteps(objects: seq<Obj>, pages: seq<Page>, m: Pid, o: Oid, k: nat, mpred: Option<Pid>)
    requires MayRemove(objects, pages, m) && o < |objects|
    requires pages[m].obj == Some(o) ==> pages[m].pindex != k
    requires mpred.Some? ==> mpred.value in AfterRemove(objects, pages, m)[o].memq
    requires PlaceAfter(AfterRemove(objects, pages, m)[o].memq, mpred) ==
      Rank(AfterRemove(objects, pages, m)[o].memq, pages[m := Detached(pages[m])], k)
    ensures var oo := pages[m].obj.value;
      var objects1 := objects[o := objects[o].(rtree := objects[o].rtree[k := m])];
      && m in objects1[oo].memq
      && (var objects2 := objects1[oo := Removed(objects1[oo], m, pages[m].pindex)];
          && (mpred.Some? ==> mpred.value in objects2[o].memq)
          && objects2[o := objects2[o].(memq := InsertAt(objects2[o].memq, PlaceAfter(objects2[o].memq, mpred), m),
                                        resident := objects2[o].resident + 1)]
             == Moved(objects, pages, m, o, k))
  {
    hide Rank, IndexOf, InsertAt, DeleteAt, PlaceAfter;
    var oo, j := pages[m].obj.value, pages[m].pindex;
    if o == oo {
      assert objects[o].rtree[k := m] - {j} == (objects[o].rtree - {j})[k := m];
    }
  }

  /**
    Within one object: the predecessor looked up beforehand is still on the list
    after the removal exactly if it is not the page itself.  When it is, the
    insertion that follows goes after a page that is no longer on the list.
   */
  lemma RenameWithinObject(objects: seq<Obj>, pages: seq<Page>, m: Pid, o: Oid, k: nat)
    requires AllOk(objects, pages) && m < |pages| && o < |objects| && pages[m].obj == Some(o) && k !in objects[o].rtree
    ensures MayRemove(objects, pages, m)
    ensures LookupLe(objects[o].rtree, k).Some? ==>
      (LookupLe(objects[o].rtree, k) != Some(m) <==>
       LookupLe(objects[o].rtree, k).value in AfterRemove(objects, pages, m)[o].memq)
  {
    assert ObjOk(o, objects[o], pages);
    ListSorted(o, objects[o], pages);
    var i := LookupPlace(o, objects[o], pages, k);
    hide LookupLe, IndexOf, Sorted;
    DeleteMembers(objects[o].memq, IndexOf(objects[o].memq, m));
  }

  /** That case arises: one page at index 0 of an object, renamed to index 1. */
  lemma RenameGoesWrong() returns (objects: seq<Obj>, pages: seq<Page>)
    ensures AllOk(objects, pages) && |objects| == |pages| == 1 && pages[0].obj == Some(0)
    ensures 1 !in objects[0].rtree && LookupLe(objects[0].rtree, 1) == Some(0)
    ensures MayRemove(objects, pages, 0) && AfterRemove(objects, pages, 0)[0].memq == []
  {
    pages := [Page(Some(0), 0, Exclusive, 0, true, false, false)];
    objects := [Obj([0], map[0 := 0], 1)];
    assert AfterRemove(objects, pages, 0)[0].memq == DeleteAt([0], 0);
  }

  /** vm_page_remove also unbusies a page that is exclusively busy. */
  function Detached(page: Page): Page {
    page.(obj := None, busy := if page.busy == Exclusive then Unbusied else page.busy)
  }

  lemma ResetKeeps(objects: seq<Obj>, pages: seq<Page>, m: Pid)
    requires AllOk(objects, pages) && m < |pages| && pages[m].obj == None
    ensures AllOk(objects, pages[m := pages[m].(pindex := 0)])
  {
    forall x | 0 <= x < |objects|
      ensures ObjOk(x, objects[x], pages[m := pages[m].(pindex := 0)])
    {
      assert ObjOk(x, objects[x], pages);
      Untouched(x, objects[x], pages, m, pages[m].(pindex := 0));
    }
  }

  lemma {:induction false} IndexOfFirst(memq: seq<Pid>, i: nat)
    requires i < |memq| && forall j | 0 <= j < i :: memq[j] != memq[i]
    ensures memq[i] in memq && IndexOf(memq, memq[i]) == i
  {
    if i > 0 {
      IndexOfFirst(memq[1..], i - 1);
    }
  }

  lemma {:induction false} FirstOfIndex(memq: seq<Pid>, p: Pid)
    requires p in memq
    ensures forall j | 0 <= j < IndexOf(memq, p) :: memq[j] != p
  {
    if memq[0] != p {
      FirstOfIndex(memq[1..], p);
    }
  }

  lemma ReplaceInList(memq: seq<Pid>, mold: Pid, mnew: Pid)
    requires mold in memq && mnew != mold
    ensures var i := IndexOf(memq, mold);
            var longer := InsertAt(memq, i + 1, mnew);
            && mold in longer && IndexOf(longer, mold) == i
            && DeleteAt(longer, i) == memq[i := mnew]
  {
    FirstOfIndex(memq, mold);
    var i := IndexOf(memq, mold);
    hide IndexOf;
    var longer := InsertAt(memq, i + 1, mnew);
    IndexOfFirst(longer, i);
  }

  lemma ReplaceList(o: Oid, memq: seq<Pid>, pages: seq<Page>, i: nat, mnew: Pid, k: nat, page: Page, gone: Page)
    requires ListOk(o, memq, pages) && mnew < |pages| && pages[mnew].obj == None
    requires i < |memq| && Key(pages, memq[i]) == k
    requires page.obj == Some(o) && page.pindex == k && gone.obj == None
    ensures memq[i] < |pages| && ListOk(o, memq[i := mnew], pages[mnew := page][memq[i] := gone])
  {
    assert memq[i] in memq;
    var mold, pages' := memq[i], pages[mnew := page][memq[i] := gone];
    var memq' := memq[i := mnew];
    assert mnew !in memq;
    assert forall j | 0 <= j < |memq| && j != i :: memq[j] != mold && memq[j] in memq;
    assert forall j | 0 <= j < |memq| :: Key(pages', memq'[j]) == Key(pages, memq[j]);
    assert Sorted(memq', pages');
    hide Sorted, Key;
    forall p | 0 <= p < |pages'|
      ensures p in memq' <==> pages'[p].obj == Some(o)
    {
      if p in memq && p != mold {
        var j :| 0 <= j < |memq| && memq[j] == p;
        assert memq'[j] == p;
      }
      assert memq'[i] == mnew;
    }
    forall p | p in memq'
      ensures p < |pages'|
    {
    }
  }

  lemma ReplaceTree(o: Oid, rtree: map<nat, Pid>, pages: seq<Page>, mnew: Pid, k: nat, page: Page, gone: Page)
    requires TreeOk(o, rtree, pages) && mnew < |pages| && pages[mnew].obj == None && k in rtree
    requires page.obj == Some(o) && page.pindex == k && gone.obj == None
    ensures rtree[k] < |pages| && TreeOk(o, rtree[k := mnew], pages[mnew := page][rtree[k] := gone])
  {
  }

  lemma ReplaceKeeps(objects: seq<Obj>, pages: seq<Page>, o: Oid, mnew: Pid, k: nat)
    requires AllOk(objects, pages) && o < |objects| && mnew < |pages| && pages[mnew].obj == None && k in objects[o].rtree
    ensures var obj := objects[o];
            var mold := obj.rtree[k];
            && mold < |pages| && mold in obj.memq && mnew != mold
            && AllOk(objects[o := Replaced(obj, mold, mnew, k)],
                 pages[mnew := pages[mnew].(obj := Some(o), pindex := k)][mold := pages[mold].(obj := None, busy := Unbusied)])
  {
    hide Sorted, IndexOf, Key;
    var obj := objects[o];
    assert ObjOk(o, obj, pages);
    var i := TreeInList(o, obj, pages, k);
    OwnerOf(o, obj, pages, i);
    ListSorted(o, obj, pages);
    PlaceOf(obj.memq, i);
    var mold := obj.memq[i];
    var page, gone := pages[mnew].(obj := Some(o), pindex := k), pages[mold].(obj := None, busy := Unbusied);
    ReplaceList(o, obj.memq, pages, i, mnew, k, page, gone);
    ReplaceTree(o, obj.rtree, pages, mnew, k, page, gone);
    hide ListOk, TreeOk;
    OthersKeptTwice(objects, pages, o, Replaced(obj, mold, mnew, k), mnew, page, mold, gone);
  }

  lemma OwnerOf(o: Oid, obj: Obj, pages: seq<Page>, i: nat)
    requires ObjOk(o, obj, pages) && i < |obj.memq|
    ensures obj.memq[i] < |pages| && pages[obj.memq[i]].obj == Some(o)
  {
    assert obj.memq[i] in obj.memq;
  }

  lemma OthersKeptTwice(objects: seq<Obj>, pages: seq<Page>, o: Oid, obj: Obj, m: Pid, page: Page, n: Pid, gone: Page)
    requires AllOk(objects, pages) && o < |objects| && m < |pages| && n < |pages| && m != n
    requires ObjOk(o, obj, pages[m := page][n := gone])
    requires pages[m].obj == None && page.obj == Some(o) && pages[n].obj == Some(o) && gone.obj == None
    ensures AllOk(objects[o := obj], pages[m := page][n := gone])
  {
    forall x | 0 <= x < |objects| && x != o
      ensures ObjOk(x, objects[x], pages[m := page][n := gone])
    {
      assert ObjOk(x, objects[x], pages);
      Untouched(x, objects[x], pages, m, page);
      Untouched(x, objects[x], pages[m := page], n, gone);
    }
    hide ObjOk;
  }
}
