/**
  The paging queues (asgn3/vm_page.c:2668-2824, 2870-2937, 3006-3169 and
  asgn3/vm_page.h:205-259): the `queue` field of a page, the lists of every
  memory domain, and their counts.

  Locks and the time stamps of the activation are not modelled.
 */
module PageQueues {
  import opened Lists
  import opened PageTypes
  import opened Wrappers

  datatype Queue = Inactive | Active | Laundry

  /** A place on a list: a page, the marker for insertions near the head, or the marker of a scan. */
  datatype Entry = P(p: Pid) | InactHead | ScanMarker

  /**
    The fields of a page that matter here; mapDirty is what the mappings know
    of modifications, refd and dead say that its object is mapped or being destroyed.
   */
  datatype Page = Page(queue: Option<Queue>, wire: nat, unmanaged: bool, hasObject: bool, domain: nat, actCount: nat,
                       held: bool, busy: Busy, valid: bool, dirty: bool, mapDirty: bool, refd: bool, dead: bool)

  datatype ListId = ListId(domain: nat, queue: Queue)

  /** struct vm_pagequeue: pq_pl and pq_cnt. */
  datatype List = List(pl: seq<Entry>, cnt: int)

  datatype State = State(pages: seq<Page>, lists: map<ListId, List>, wireCount: int)

  const ACT_INIT: nat := 5

  // ---- lists without repetitions -----------------------------------------------------

  /** TAILQ_INSERT_BEFORE */
  function InsertBefore<T(==)>(q: seq<T>, at: T, x: T): seq<T>
    requires at in q
  {
    q[..IndexOf(q, at)] + [x] + q[IndexOf(q, at)..]
  }

  /** A new entry put in anywhere. */
  lemma InsertProps<T>(a: seq<T>, x: T, b: seq<T>)
    requires NoDup(a + b) && x !in a + b
    ensures NoDup(a + [x] + b) && Without(a + [x] + b, x) == a + b
    ensures forall y :: y in a + [x] + b <==> y in a + b || y == x
  {
    var q, r := a + b, a + [x] + b;
    assert x !in a && x !in b by { assert forall y | y in a || y in b :: y in q; }
    WithoutSplit(a, x, b);
    forall i, j | 0 <= i < j < |r|
      ensures r[i] != r[j]
    {
      assert i < |a| ==> r[i] == q[i];
      assert i > |a| ==> r[i] == q[i - 1];
      assert j < |a| ==> r[j] == q[j];
      assert j > |a| ==> r[j] == q[j - 1];
    }
  }

  /** The number of entries that are pages, not markers. */
  function CountPages(pl: seq<Entry>): nat {
    if pl == [] then 0 else (if pl[0].P? then 1 else 0) + CountPages(pl[1..])
  }

  lemma {:induction false} CountConcat(a: seq<Entry>, b: seq<Entry>)
    ensures CountPages(a + b) == CountPages(a) + CountPages(b)
  {
    if a == [] {
      assert a + b == b;
    } else {
      assert (a + b)[1..] == a[1..] + b;
      CountConcat(a[1..], b);
    }
  }

  lemma CountInsert(a: seq<Entry>, p: Pid, b: seq<Entry>)
    ensures CountPages(a + [P(p)] + b) == CountPages(a + b) + 1
  {
    CountConcat(a, b);
    CountConcat(a + [P(p)], b);
    CountConcat(a, [P(p)]);
    assert CountPages([P(p)]) == 1;
  }

  lemma {:induction false} CountWithout(pl: seq<Entry>, p: Pid)
    requires P(p) in pl
    ensures CountPages(Without(pl, P(p))) == CountPages(pl) - 1
  {
    if pl[0] != P(p) {
      CountWithout(pl[1..], p);
      assert Without(pl, P(p))[1..] == Without(pl[1..], P(p));
    }
  }

  // ---- the invariant -----------------------------------------------------------------

  /** The laundry queue of domain 0 serves all domains. */
  function Home(domain: nat, q: Queue): ListId {
    ListId(if q == Laundry then 0 else domain, q)
  }

  predicate OnList(pages: seq<Page>, p: Pid, id: ListId) {
    p < |pages| && pages[p].queue == Some(id.queue) && Home(pages[p].domain, id.queue) == id
  }

  /**
    A list holds exactly the pages whose queue field names it, once each, and
    its count is the number of its pages; inactive lists also hold their marker.
   */
  ghost predicate ListOk(pages: seq<Page>, id: ListId, l: List) {
    && NoDup(l.pl) && l.cnt == CountPages(l.pl)
    && (forall p :: P(p) in l.pl <==> OnList(pages, p, id))
    && (InactHead in l.pl <==> id.queue == Inactive)
  }

  ghost predicate PageOk(page: Page, lists: map<ListId, List>) {
    && (page.queue.Some? ==> page.wire == 0 && !page.unmanaged)
    && forall q: Queue :: Home(page.domain, q) in lists
  }

  function Wired(pages: seq<Page>): set<Pid> {
    set p | 0 <= p < |pages| && pages[p].wire > 0
  }

  ghost predicate ListsOk(pages: seq<Page>, lists: map<ListId, List>) {
    forall id | id in lists :: ListOk(pages, id, lists[id])
  }

  /** No wired or unmanaged page is queued, and the wire count is the number of wired pages. */
  ghost predicate PagesOk(s: State) {
    && (forall p | 0 <= p < |s.pages| :: PageOk(s.pages[p], s.lists))
    && s.wireCount == |Wired(s.pages)|
  }

  ghost predicate Inv(s: State) {
    ListsOk(s.pages, s.lists) && PagesOk(s)
  }

  // ---- taking a page off its list and putting it on one -----------------------------------

  predicate Queued(s: State, m: Pid) {
    m < |s.pages| && s.pages[m].queue.Some? && Home(s.pages[m].domain, s.pages[m].queue.value) in s.lists
  }

  function Dequeued(s: State, m: Pid): State
    requires Queued(s, m)
  {
    var id := Home(s.pages[m].domain, s.pages[m].queue.value);
    s.(pages := s.pages[m := s.pages[m].(queue := None)],
       lists := s.lists[id := List(Without(s.lists[id].pl, P(m)), s.lists[id].cnt - 1)])
  }

  /** At the tail, or right before the marker near the head of the inactive list. */
  function Put(pl: seq<Entry>, m: Pid, nearHead: bool): seq<Entry>
    requires nearHead ==> InactHead in pl
  {
    if nearHead then InsertBefore(pl, InactHead, P(m)) else pl + [P(m)]
  }

  predicate Accepts(s: State, m: Pid, q: Queue, nearHead: bool) {
    && m < |s.pages| && Home(s.pages[m].domain, q) in s.lists
    && (nearHead ==> InactHead in s.lists[Home(s.pages[m].domain, q)].pl)
  }

  function Enqueued(s: State, m: Pid, q: Queue, nearHead: bool): State
    requires Accepts(s, m, q, nearHead)
  {
    var id := Home(s.pages[m].domain, q);
    s.(pages := s.pages[m := s.pages[m].(queue := Some(q))],
       lists := s.lists[id := List(Put(s.lists[id].pl, m, nearHead), s.lists[id].cnt + 1)])
  }

  lemma ListElsewhere(pages: seq<Page>, id: ListId, l: List, m: Pid, page: Page)
    requires ListOk(pages, id, l) && m < |pages| && page.domain == pages[m].domain
    requires OnList(pages, m, id) <==> (page.queue == Some(id.queue) && Home(page.domain, id.queue) == id)
    ensures ListOk(pages[m := page], id, l)
  {
    forall p
      ensures P(p) in l.pl <==> OnList(pages[m := page], p, id)
    {
      assert p != m ==> OnList(pages[m := page], p, id) == OnList(pages, p, id);
    }
  }

  lemma ListDequeue(pages: seq<Page>, id: ListId, l: List, m: Pid, page: Page)
    requires ListOk(pages, id, l) && OnList(pages, m, id) && page.queue == None
    ensures ListOk(pages[m := page], id, List(Without(l.pl, P(m)), l.cnt - 1))
  {
    WithoutProps(l.pl, P(m));
    CountWithout(l.pl, m);
    hide Without, CountPages, NoDup;
    forall p
      ensures P(p) in Without(l.pl, P(m)) <==> OnList(pages[m := page], p, id)
    {
      assert p != m ==> OnList(pages[m := page], p, id) == OnList(pages, p, id);
    }
  }

  lemma ListEnqueue(pages: seq<Page>, id: ListId, l: List, m: Pid, page: Page, nearHead: bool)
    requires ListOk(pages, id, l) && m < |pages| && pages[m].queue == None
    requires page.queue == Some(id.queue) && Home(page.domain, id.queue) == id && (nearHead ==> InactHead in l.pl)
    ensures ListOk(pages[m := page], id, List(Put(l.pl, m, nearHead), l.cnt + 1))
  {
    var i := if nearHead then IndexOf(l.pl, InactHead) else |l.pl|;
    var a, b := l.pl[..i], l.pl[i..];
    assert l.pl == a + b;
    assert Put(l.pl, m, nearHead) == a + [P(m)] + b;
    InsertProps(a, P(m), b);
    CountInsert(a, m, b);
    hide IndexOf, Put, CountPages, NoDup;
    forall p
      ensures P(p) in a + [P(m)] + b <==> OnList(pages[m := page], p, id)
    {
      assert p != m ==> OnList(pages[m := page], p, id) == OnList(pages, p, id);
    }
  }

  lemma DequeueKeeps(s: State, m: Pid)
    requires Inv(s) && m < |s.pages| && s.pages[m].queue.Some?
    ensures Queued(s, m) && Inv(Dequeued(s, m))
  {
    assert PageOk(s.pages[m], s.lists);
    var id, s' := Home(s.pages[m].domain, s.pages[m].queue.value), Dequeued(s, m);
    ListDequeue(s.pages, id, s.lists[id], m, s'.pages[m]);
    hide ListOk, Without;
    OtherLists(s, s', id, m);
    SameWired(s, s', m);
  }

  lemma OtherLists(s: State, s': State, id: ListId, m: Pid)
    requires ListsOk(s.pages, s.lists) && m < |s.pages| && id in s.lists && id in s'.lists
    requires |s'.pages| == |s.pages| && s'.pages == s.pages[m := s'.pages[m]]
    requires s'.pages[m].domain == s.pages[m].domain
    requires s'.lists == s.lists[id := s'.lists[id]] && ListOk(s'.pages, id, s'.lists[id])
    requires forall x: ListId | x != id :: OnList(s.pages, m, x) <==> OnList(s'.pages, m, x)
    ensures ListsOk(s'.pages, s'.lists)
  {
    forall x | x in s'.lists && x != id
      ensures ListOk(s'.pages, x, s'.lists[x])
    {
      assert ListOk(s.pages, x, s.lists[x]);
      ListElsewhere(s.pages, x, s.lists[x], m, s'.pages[m]);
    }
    hide ListOk;
  }

  /** A change of one page that keeps its wirings. */
  lemma SameWired(s: State, s': State, m: Pid)
    requires PagesOk(s) && m < |s.pages| && s'.wireCount == s.wireCount && s'.lists.Keys == s.lists.Keys
    requires |s'.pages| == |s.pages| && s'.pages == s.pages[m := s'.pages[m]]
    requires s'.pages[m].wire == s.pages[m].wire && s'.pages[m].domain == s.pages[m].domain
    requires s'.pages[m].queue.Some? ==> s'.pages[m].wire == 0 && !s'.pages[m].unmanaged
    ensures PagesOk(s')
  {
    forall p | 0 <= p < |s'.pages|
      ensures PageOk(s'.pages[p], s'.lists)
    {
      assert PageOk(s.pages[p], s.lists);
    }
    assert Wired(s'.pages) == Wired(s.pages);
  }

  lemma EnqueueKeeps(s: State, m: Pid, q: Queue, nearHead: bool)
    requires Inv(s) && m < |s.pages| && s.pages[m].queue == None && s.pages[m].wire == 0 && !s.pages[m].unmanaged
    requires nearHead ==> q == Inactive
    ensures Accepts(s, m, q, nearHead) && Inv(Enqueued(s, m, q, nearHead))
  {
    assert PageOk(s.pages[m], s.lists);
    var id := Home(s.pages[m].domain, q);
    assert ListOk(s.pages, id, s.lists[id]);
    var s' := Enqueued(s, m, q, nearHead);
    ListEnqueue(s.pages, id, s.lists[id], m, s'.pages[m], nearHead);
    hide ListOk, Put;
    OtherLists(s, s', id, m);
    SameWired(s, s', m);
  }

  /** A change of the fields that the queues do not look at. */
  lemma PlainKeeps(s: State, m: Pid, page: Page)
    requires Inv(s) && m < |s.pages|
    requires page.queue == s.pages[m].queue && page.domain == s.pages[m].domain
    requires page.wire == s.pages[m].wire && page.unmanaged == s.pages[m].unmanaged
    ensures Inv(s.(pages := s.pages[m := page]))
  {
    var s' := s.(pages := s.pages[m := page]);
    assert PageOk(s.pages[m], s.lists);
    SameWired(s, s', m);
    forall x | x in s.lists
      ensures ListOk(s'.pages, x, s.lists[x])
    {
      assert ListOk(s.pages, x, s.lists[x]);
      ListElsewhere(s.pages, x, s.lists[x], m, page);
    }
    hide ListOk, PagesOk;
  }

  /** A page changes from unwired to wired or back, while on no queue. */
  lemma WireKeeps(s: State, m: Pid, page: Page)
    requires Inv(s) && m < |s.pages| && s.pages[m].queue == None
    requires page.queue == None && page.domain == s.pages[m].domain
    ensures Inv(s.(pages := s.pages[m := page],
                   wireCount := s.wireCount + (if page.wire > 0 then 1 else 0) - if s.pages[m].wire > 0 then 1 else 0))
  {
    var pages' := s.pages[m := page];
    forall p | 0 <= p < |pages'|
      ensures PageOk(pages'[p], s.lists)
    {
      assert PageOk(s.pages[p], s.lists);
    }
    forall x | x in s.lists
      ensures ListOk(pages', x, s.lists[x])
    {
      assert ListOk(s.pages, x, s.lists[x]);
      ListElsewhere(s.pages, x, s.lists[x], m, page);
    }
    hide ListOk, PageOk;
    WiredChange(s.pages, m, page);
  }

  lemma WiredChange(pages: seq<Page>, m: Pid, page: Page)
    requires m < |pages|
    ensures |Wired(pages[m := page])| == |Wired(pages)| + (if page.wire > 0 then 1 else 0) - if pages[m].wire > 0 then 1 else 0
  {
    var a, b := Wired(pages), Wired(pages[m := page]);
    assert b == if page.wire > 0 then a + {m} else a - {m};
    assert m in a ==> a == (a - {m}) + {m};
    assert m !in a ==> a == a - {m};
  }

  // ---- moving a page to another list --------------------------------------------------------

  /** Off its list, if it is on one. */
  function Off(s: State, m: Pid): State {
    if Queued(s, m) then Dequeued(s, m) else s
  }

  function Moved(s: State, m: Pid, q: Queue, nearHead: bool): State
    requires Accepts(Off(s, m), m, q, nearHead)
  {
    Enqueued(Off(s, m), m, q, nearHead)
  }

  lemma OffKeeps(s: State, m: Pid)
    requires Inv(s) && m < |s.pages|
    ensures Inv(Off(s, m)) && Off(s, m).pages == s.pages[m := s.pages[m].(queue := None)]
    ensures Queued(s, m) <==> s.pages[m].queue.Some?
  {
    if s.pages[m].queue.Some? {
      DequeueKeeps(s, m);
    }
  }

  lemma MoveKeeps(s: State, m: Pid, q: Queue, nearHead: bool)
    requires Inv(s) && m < |s.pages| && s.pages[m].wire == 0 && !s.pages[m].unmanaged
    requires nearHead ==> q == Inactive
    ensures Accepts(Off(s, m), m, q, nearHead) && Inv(Moved(s, m, q, nearHead))
  {
    OffKeeps(s, m);
    hide Inv, Off;
    EnqueueKeeps(Off(s, m), m, q, nearHead);
  }

  /** No page other than m changes its place among the others, on any list. */
  ghost predicate OrderKept(s: State, s': State, m: Pid) {
    && s'.lists.Keys == s.lists.Keys
    && forall id | id in s.lists :: Without(s'.lists[id].pl, P(m)) == Without(s.lists[id].pl, P(m))
  }

  /** The page is the last entry, or the one right before the marker. */
  ghost predicate PlacedAt(pl: seq<Entry>, m: Pid, nearHead: bool) {
    if nearHead then exists i :: 0 <= i < |pl| - 1 && pl[i] == P(m) && pl[i + 1] == InactHead
    else |pl| > 0 && pl[|pl| - 1] == P(m)
  }

  lemma OrderKeptTwice(s: State, t: State, s': State, m: Pid)
    requires OrderKept(s, t, m) && OrderKept(t, s', m)
    ensures OrderKept(s, s', m)
  {
    hide Without;
  }

  /**
    What a move is: the page ends up at the tail of its new list, or right before the
    marker; no other page changes its queue or its place among the others.
   */
  lemma MoveMeans(s: State, m: Pid, q: Queue, nearHead: bool)
    requires Inv(s) && m < |s.pages| && Accepts(Off(s, m), m, q, nearHead)
    ensures var s' := Moved(s, m, q, nearHead);
      && s'.pages == s.pages[m := s.pages[m].(queue := Some(q))]
      && OrderKept(s, s', m)
      && Home(s.pages[m].domain, q) in s'.lists && PlacedAt(s'.lists[Home(s.pages[m].domain, q)].pl, m, nearHead)
  {
    OffKeeps(s, m);
    OffMeans(s, m);
    var t := Off(s, m);
    assert t.pages[m] == s.pages[m].(queue := None);
    SetTwice(s.pages, m, t.pages[m], s.pages[m].(queue := Some(q)));
    hide *;
    EnqueueMeans(t, m, q, nearHead);
    OrderKeptTwice(s, t, Enqueued(t, m, q, nearHead), m);
    assert Moved(s, m, q, nearHead) == Enqueued(t, m, q, nearHead) by { MovedIs(s, m, q, nearHead); }
  }

  lemma MovedIs(s: State, m: Pid, q: Queue, nearHead: bool)
    requires Accepts(Off(s, m), m, q, nearHead)
    ensures Moved(s, m, q, nearHead) == Enqueued(Off(s, m), m, q, nearHead)
  {
  }

  lemma SetTwice(pages: seq<Page>, m: Pid, a: Page, b: Page)
    requires m < |pages|
    ensures pages[m := a][m := b] == pages[m := b]
  {
  }

  lemma EnqueueMeans(t: State, m: Pid, q: Queue, nearHead: bool)
    requires m < |t.pages| && Accepts(t, m, q, nearHead)
    requires P(m) !in t.lists[Home(t.pages[m].domain, q)].pl
    ensures var s' := Enqueued(t, m, q, nearHead);
      && s'.pages == t.pages[m := t.pages[m].(queue := Some(q))]
      && OrderKept(t, s', m)
      && Home(t.pages[m].domain, q) in s'.lists && PlacedAt(s'.lists[Home(t.pages[m].domain, q)].pl, m, nearHead)
  {
    hide Without, Put, PlacedAt, OrderKept;
    var id := Home(t.pages[m].domain, q);
    var pl := t.lists[id].pl;
    PutMeans(pl, m, nearHead);
    WithoutAbsent(pl, P(m));
    OneListOrder(t, Enqueued(t, m, q, nearHead), id, m);
  }

  lemma OneListOrder(s: State, s': State, id: ListId, m: Pid)
    requires id in s.lists && id in s'.lists && s'.lists == s.lists[id := s'.lists[id]]
    requires Without(s'.lists[id].pl, P(m)) == Without(s.lists[id].pl, P(m))
    ensures OrderKept(s, s', m)
  {
    hide Without;
  }

  lemma OffMeans(s: State, m: Pid)
    requires Inv(s) && m < |s.pages|
    ensures OrderKept(s, Off(s, m), m) && forall id | id in s.lists :: P(m) !in Off(s, m).lists[id].pl
  {
    OffKeeps(s, m);
    var t := Off(s, m);
    forall id | id in s.lists
      ensures P(m) !in t.lists[id].pl && Without(t.lists[id].pl, P(m)) == Without(s.lists[id].pl, P(m))
    {
      assert ListOk(t.pages, id, t.lists[id]) && ListOk(s.pages, id, s.lists[id]);
      WithoutAbsent(t.lists[id].pl, P(m));
      hide Without;
    }
  }

  lemma PutMeans(pl: seq<Entry>, m: Pid, nearHead: bool)
    requires P(m) !in pl && (nearHead ==> InactHead in pl)
    ensures Without(Put(pl, m, nearHead), P(m)) == pl && PlacedAt(Put(pl, m, nearHead), m, nearHead)
  {
    var i := if nearHead then IndexOf(pl, InactHead) else |pl|;
    assert forall y | y in pl[..i] :: y in pl;
    WithoutSplit(pl[..i], P(m), pl[i..]);
    assert pl[..i] + pl[i..] == pl;
    hide IndexOf, Without;
    var pl' := Put(pl, m, nearHead);
    assert pl' == pl[..i] + [P(m)] + pl[i..];
    if nearHead {
      assert pl'[i] == P(m) && pl'[i + 1] == InactHead;
    }
  }

  // ---- the operations ---------------------------------------------------------------------

  class Vm {
    var pages: seq<Page>
    var lists: map<ListId, List>
    var wireCount: int

    ghost function S(): State
      reads this
    {
      State(pages, lists, wireCount)
    }

    ghost predicate Valid()
      reads this
    {
      Inv(S())
    }

    /**
      vm_page_domain_init (vm_page.c:394-423) for every domain, with the marker near the
      head of each inactive list (vm_pageout.c:1801-1803): no page is on a queue or wired.
     */
    constructor (pages: seq<Page>, domains: nat)
      requires domains > 0
      requires forall p | 0 <= p < |pages| ::
        pages[p].queue == None && pages[p].wire == 0 && pages[p].domain < domains
      ensures Valid() && this.pages == pages && wireCount == 0
      ensures forall d: nat, q: Queue | d < domains :: ListId(d, q) in lists
      ensures forall id | id in lists ::
        id.domain < domains && lists[id] == List(if id.queue == Inactive then [InactHead] else [], 0)
    {
      this.pages := pages;
      lists := map d: nat, q: Queue | d < domains :: ListId(d, q) := List(if q == Inactive then [InactHead] else [], 0);
      wireCount := 0;
      new;
      assert Wired(pages) == {};
      assert CountPages([InactHead]) == 0;
    }

    /** vm_page_dequeue and vm_page_dequeue_locked (vm_page.c:2685-2719) */
    method Dequeue(m: Pid)
      requires Valid() && m < |pages| && pages[m].queue.Some?
      modifies this
      ensures Valid() && Queued(old(S()), m) && S() == Dequeued(old(S()), m)
    {
      DequeueKeeps(S(), m);
      hide Inv, Without;
      var id := Home(pages[m].domain, pages[m].queue.value);
      pages := pages[m := pages[m].(queue := None)];
      var l := lists[id];
      l := l.(pl := Without(l.pl, P(m)));
      l := l.(cnt := l.cnt - 1);
      lists := lists[id := l];
    }

    /** vm_page_enqueue (vm_page.c:2728-2746) */
    method Enqueue(q: Queue, m: Pid)
      requires Valid() && m < |pages| && pages[m].queue == None && pages[m].wire == 0 && !pages[m].unmanaged
      modifies this
      ensures Valid() && Accepts(old(S()), m, q, false) && S() == Enqueued(old(S()), m, q, false)
    {
      EnqueueKeeps(S(), m, q, false);
      hide Inv;
      var id := if q == Laundry then ListId(0, q) else ListId(pages[m].domain, q);
      pages := pages[m := pages[m].(queue := Some(q))];
      var l := lists[id];
      l := l.(pl := l.pl + [P(m)]);
      l := l.(cnt := l.cnt + 1);
      lists := lists[id := l];
    }

    /** vm_page_requeue and vm_page_requeue_locked (vm_page.c:2755-2788) */
    method Requeue(m: Pid)
      requires Valid() && m < |pages| && pages[m].queue.Some?
      modifies `lists
      ensures Valid() && Accepts(Off(old(S()), m), m, old(pages[m].queue.value), false)
      ensures S() == Moved(old(S()), m, old(pages[m].queue.value), false)
    {
      RequeueMeans(S(), m);
      hide Inv, Without, Moved, Off;
      ghost var s' := Moved(S(), m, pages[m].queue.value, false);
      var id := Home(pages[m].domain, pages[m].queue.value);
      var l := lists[id];
      l := l.(pl := Without(l.pl, P(m)));
      l := l.(pl := l.pl + [P(m)]);
      lists := lists[id := l];
      assert s' == S();
    }

    /** vm_page_activate (vm_page.c:2799-2824) */
    method Activate(m: Pid)
      requires Valid() && m < |pages|
      modifies this
      ensures Valid()
      ensures old(pages[m].queue) != Some(Active) && (old(pages[m].wire) > 0 || old(pages[m].unmanaged)) ==> S() == old(S())
      ensures old(pages[m].queue) == Some(Active) ==> S() == Warmed(old(S()), m)
      ensures old(pages[m].queue) != Some(Active) && old(pages[m].wire) == 0 && !old(pages[m].unmanaged) ==>
        && Accepts(Off(Warmed(old(S()), m), m), m, Active, false)
        && S() == Moved(Warmed(old(S()), m), m, Active, false)
    {
      hide Inv, Enqueued, Dequeued;
      var queue := pages[m].queue;
      if queue != Some(Active) {
        if pages[m].wire == 0 && !pages[m].unmanaged {
          Warm(m);
          OffKeeps(S(), m);
          if queue.Some? {
            Dequeue(m);
          }
          Enqueue(Active, m);
        }
      } else {
        Warm(m);
      }
    }

    method Warm(m: Pid)
      requires Valid() && m < |pages|
      modifies `pages
      ensures Valid() && S() == Warmed(old(S()), m)
    {
      PlainKeeps(S(), m, Warmed(S(), m).pages[m]);
      hide Inv;
      if pages[m].actCount < ACT_INIT {
        pages := pages[m := pages[m].(actCount := ACT_INIT)];
      }
      assert pages == old(pages)[m := Warmed(old(S()), m).pages[m]];
    }

    /** _vm_page_deactivate (vm_page.c:3088-3122) */
    method Deactivate(m: Pid, noreuse: bool)
      requires Valid() && m < |pages|
      modifies this
      ensures Valid()
      ensures var stays := (old(pages[m].queue) == Some(Inactive) && !noreuse) ||
        old(pages[m].wire) > 0 || old(pages[m].unmanaged);
        && (stays ==> S() == old(S()))
        && (!stays ==>
            && Accepts(Off(old(S()), m), m, Inactive, noreuse)
            && S() == Moved(old(S()), m, Inactive, noreuse))
    {
      var queue := pages[m].queue;
      if queue == Some(Inactive) && !noreuse {
        return;
      }
      if pages[m].wire == 0 && !pages[m].unmanaged {
        OffKeeps(S(), m);
        hide Inv, Enqueued, Dequeued;
        if queue.Some? {
          Dequeue(m);
        }
        EnterInactive(m, noreuse);
      }
    }

    /** The insertion into the inactive list (vm_page.c:3113-3120). */
    method EnterInactive(m: Pid, noreuse: bool)
      requires Valid() && m < |pages| && pages[m].queue == None && pages[m].wire == 0 && !pages[m].unmanaged
      modifies this
      ensures Valid() && Accepts(old(S()), m, Inactive, noreuse) && S() == Enqueued(old(S()), m, Inactive, noreuse)
    {
      EnqueueKeeps(S(), m, Inactive, noreuse);
      hide Inv, InsertBefore;
      pages := pages[m := pages[m].(queue := Some(Inactive))];
      var id := ListId(pages[m].domain, Inactive);
      var l := lists[id];
      if noreuse {
        l := l.(pl := InsertBefore(l.pl, InactHead, P(m)));
      } else {
        l := l.(pl := l.pl + [P(m)]);
      }
      l := l.(cnt := l.cnt + 1);
      lists := lists[id := l];
    }

    /** vm_page_launder (vm_page.c:3154-3169) */
    method Launder(m: Pid)
      requires Valid() && m < |pages|
      modifies this
      ensures Valid()
      ensures var stays := old(pages[m].queue) == Some(Laundry) || old(pages[m].wire) > 0 || old(pages[m].unmanaged);
        && (stays ==> S() == old(S()))
        && (!stays ==>
            && Accepts(Off(old(S()), m), m, Laundry, false)
            && S() == Moved(old(S()), m, Laundry, false))
    {
      var queue := pages[m].queue;
      if queue != Some(Laundry) && pages[m].wire == 0 && !pages[m].unmanaged {
        OffKeeps(S(), m);
        hide Inv;
        if queue.Some? {
          Dequeue(m);
        }
        Enqueue(Laundry, m);
      }
    }

    /** vm_page_wire (vm_page.c:3006-3031), for pages that are not fictitious. */
    method Wire(m: Pid)
      requires Valid() && m < |pages|
      modifies this
      ensures Valid()
      ensures var s := Off(old(S()), m);
        S() == if old(pages[m].wire) == 0 then s.(pages := s.pages[m := s.pages[m].(wire := 1)], wireCount := s.wireCount + 1)
               else old(S()).(pages := old(pages)[m := old(pages[m]).(wire := old(pages[m].wire) + 1)])
    {
      assert PageOk(pages[m], lists);
      OffKeeps(S(), m);
      hide Inv, PageOk;
      if pages[m].wire == 0 {
        if pages[m].queue.Some? {
          Dequeue(m);
        }
        wireCount := wireCount + 1;
        WireKeeps(Off(old(S()), m), m, pages[m].(wire := 1));
      } else {
        WireKeeps(S(), m, pages[m].(wire := pages[m].wire + 1));
      }
      pages := pages[m := pages[m].(wire := pages[m].wire + 1)];
    }

    /** vm_page_unwire (vm_page.c:3049-3075); unwiring a page that is not wired is a panic. */
    method Unwire(m: Pid, q: Option<Queue>) returns (last: bool)
      requires Valid() && m < |pages| && pages[m].wire > 0
      modifies this
      ensures Valid() && (last <==> old(pages[m].wire) == 1)
      ensures var page := old(pages[m]);
        var s := old(S()).(pages := old(pages)[m := page.(wire := page.wire - 1)],
                              wireCount := old(wireCount) - if last then 1 else 0);
        if last && !page.unmanaged && page.hasObject && q.Some?
        then Accepts(s, m, q.value, false) && S() == Enqueued(s, m, q.value, false) else S() == s
    {
      assert PageOk(pages[m], lists);
      WireKeeps(S(), m, pages[m].(wire := pages[m].wire - 1));
      hide Inv, PageOk;
      pages := pages[m := pages[m].(wire := pages[m].wire - 1)];
      last := false;
      if pages[m].wire == 0 {
        wireCount := wireCount - 1;
        if !pages[m].unmanaged && pages[m].hasObject && q.Some? {
          Enqueue(q.value, m);
        }
        last := true;
      }
    }

    /** vm_page_free_prep (vm_page.c:2870-2937); freeing a shared busy or wired page is a panic. */
    method FreePrep(m: Pid) returns (ok: bool)
      requires Valid() && m < |pages| && !pages[m].busy.Shared? && pages[m].wire == 0
      modifies this
      ensures Valid() && ok == !old(pages[m].held)
      ensures var s := Off(old(S()), m);
        S() == s.(pages := s.pages[m := Freed(s.pages[m])])
      ensures |pages| == |old(pages)|
      ensures pages[m].queue == None && !pages[m].hasObject && !pages[m].valid && !pages[m].dirty
      ensures pages[m].busy == if old(pages[m]).hasObject then Unbusied else old(pages[m]).busy
    {
      OffKeeps(S(), m);
      PlainKeeps(Off(S(), m), m, Freed(Off(S(), m).pages[m]));
      hide Inv;
      if pages[m].queue.Some? {
        Dequeue(m);
      }
      pages := pages[m := Freed(pages[m])];
      ok := !pages[m].held;
    }
  }

  /** Dequeueing and enqueueing on the same list is moving the page to the tail. */
  lemma RequeueMeans(s: State, m: Pid)
    requires Inv(s) && m < |s.pages| && s.pages[m].queue.Some?
    ensures var q := s.pages[m].queue.value;
      var id := Home(s.pages[m].domain, q);
      && id in s.lists && Accepts(Off(s, m), m, q, false) && Inv(Moved(s, m, q, false))
      && Moved(s, m, q, false) == s.(lists := s.lists[id := List(Without(s.lists[id].pl, P(m)) + [P(m)], s.lists[id].cnt)])
  {
    assert PageOk(s.pages[m], s.lists);
    OffKeeps(s, m);
    MoveKeeps(s, m, s.pages[m].queue.value, false);
    hide Inv, Without;
    assert Moved(s, m, s.pages[m].queue.value, false).pages == s.pages;
  }

  /** Activation raises the activity count to at least ACT_INIT. */
  function Warmed(s: State, m: Pid): State
    requires m < |s.pages|
  {
    var page := s.pages[m];
    s.(pages := s.pages[m := page.(actCount := if page.actCount < ACT_INIT then ACT_INIT else page.actCount)])
  }

  /** It never lowers it, and changes nothing else. */
  lemma WarmthRises(s: State, m: Pid)
    requires m < |s.pages|
    ensures Warmed(s, m) == s.(pages := s.pages[m := s.pages[m].(actCount := Warmed(s, m).pages[m].actCount)])
    ensures Warmed(s, m).pages[m].actCount >= 5 && Warmed(s, m).pages[m].actCount >= s.pages[m].actCount
    ensures s.pages[m].actCount >= 5 ==> Warmed(s, m) == s
  {
    assert s.pages[m := s.pages[m]] == s.pages;
  }

  /** A page without object and contents; vm_page_remove drops an exclusive busy lock. */
  function Freed(page: Page): Page {
    page.(hasObject := false, valid := false, dirty := false,
          busy := if page.hasObject && page.busy == Exclusive then Unbusied else page.busy)
  }
}
