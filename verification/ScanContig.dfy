/**
  Looking for a run of physically contiguous pages that are free or can be
  relocated (asgn3/vm_page.c:2087-2263), with the page and object locks taken as
  held throughout.  Page frames are numbered, so frame m has address m * 4096.
 */
module ScanContig {
  import opened Arith
  import opened Wrappers
  import opened Bits

  const PAGE: nat := 4096
  const PAGE_SHIFT: nat := 12
  const VM_NFREEORDER: nat := 13

  /** Of an object: whether it is of type DEFAULT, SWAP or VNODE, and has the default memory attribute. */
  datatype Object = Object(pageable: bool, defaultMemattr: bool)

  /** `level` is vm_reserv_level (-1 for none), `fullLevel` vm_reserv_level_iffullpop. */
  datatype Page = Page(wireCount: nat, holdCount: nat, level: int, fullLevel: int,
                       obj: Option<Object>, queued: bool, busied: bool, order: nat)

  /** The bits of the options argument. */
  datatype Options = Options(noReserv: bool, noSuper: bool)

  /** The request: how many pages, and powers of two for alignment, boundary (if any) and reservation size. */
  datatype Request = Request(npages: nat, align: nat, boundary: Option<nat>, reserv: nat, options: Options)

  function Addr(m: nat): nat { m * PAGE }

  function Length(r: Request): nat { r.npages * PAGE }

  function BoundaryWord(r: Request): nat {
    if r.boundary.Some? then P(r.boundary.value) else 0
  }

  lemma BoundaryWordFits(r: Request)
    requires r.boundary.Some? ==> r.boundary.value <= WORD
    ensures BoundaryWord(r) <= P(WORD)
  {
    if r.boundary.Some? {
      PMonotone(r.boundary.value, WORD);
    }
  }

  // ---- the tests of the scan -----------------------------------------------------

  /** Pages from m to the end of its reservation: atop(roundup2(pa + 1, vm_reserv_size(level)) - pa). */
  function ToReservEnd(m: nat, r: Request): int
    requires r.reserv <= WORD
  {
    PMonotone(r.reserv, WORD);
    (RoundUp2(Addr(m) + 1, P(r.reserv)) - Addr(m)) / PAGE
  }

  /** By how many pages the run grows (run_ext) and the scan advances (m_inc) at page m. */
  function Extent(mem: seq<Page>, m: nat, r: Request): (nat, int)
    requires m < |mem| && r.reserv <= WORD
  {
    var p := mem[m];
    if p.wireCount != 0 || p.holdCount != 0 then (0, 1)
    else if p.level >= 0 && r.options.noReserv then (0, ToReservEnd(m, r))
    else if p.obj.Some? then
      if !p.obj.value.pageable then (0, 1)
      else if r.options.noSuper && p.fullLevel >= 0 then (0, ToReservEnd(m, r))
      else if p.obj.value.defaultMemattr && p.queued && !p.busied then (1, 1)
      else (0, 1)
    else if p.level >= 0 then (1, 1)
    else if p.order < VM_NFREEORDER then (P(p.order), P(p.order))
    else (0, 1)
  }

  /** (pa & (alignment - 1)) == 0 */
  predicate AlignedTest(m: nat, r: Request) {
    And(Addr(m), P(r.align) - 1) == 0
  }

  /** rounddown2(pa ^ (pa + ptoa(npages) - 1), boundary) == 0 */
  predicate BoundaryTest(m: nat, r: Request)
    requires r.npages > 0 && (r.boundary.Some? ==> r.boundary.value <= WORD)
  {
    BoundaryWordFits(r);
    RoundDown2(Xor(Addr(m), Addr(m) + Length(r) - 1), BoundaryWord(r)) == 0
  }

  /** From an unaligned page to the next aligned one: atop(roundup2(pa, alignment) - pa). */
  function AlignInc(m: nat, r: Request): int
    requires r.align <= WORD
  {
    PMonotone(r.align, WORD);
    (RoundUp2(Addr(m), P(r.align)) - Addr(m)) / PAGE
  }

  /** From a page whose run would cross a boundary to that boundary: atop(roundup2(pa, boundary) - pa). */
  function BoundaryInc(m: nat, r: Request): int
    requires r.boundary.Some? ==> r.boundary.value <= WORD
  {
    BoundaryWordFits(r);
    (RoundUp2(Addr(m), BoundaryWord(r)) - Addr(m)) / PAGE
  }

  // ---- what they mean --------------------------------------------------------------

  predicate Aligned(m: nat, r: Request) {
    Mod(Addr(m), P(r.align)) == 0
  }

  /** The run's first and last byte lie between the same two multiples of the boundary. */
  predicate WithinBoundary(m: nat, r: Request)
    requires r.npages > 0
  {
    r.boundary.Some? ==>
      Div(Addr(m), P(r.boundary.value)) == Div(Addr(m) + Length(r) - 1, P(r.boundary.value))
  }

  /** Powers of two within the word, a reservation of whole pages, and addresses that leave room for rounding. */
  predicate RequestOk(r: Request, mEnd: nat) {
    && r.npages > 0 && r.align < WORD && PAGE_SHIFT <= r.reserv < WORD
    && (r.boundary.Some? ==> r.boundary.value < WORD)
    && Addr(mEnd) + Length(r) + P(r.align) + P(r.reserv) + BoundaryWord(r) < P(WORD)
  }

  lemma AlignedTestOk(m: nat, r: Request)
    ensures AlignedTest(m, r) == Aligned(m, r)
  {
    AndLowMask(Addr(m), r.align);
  }

  lemma BoundaryTestOk(m: nat, mEnd: nat, r: Request)
    requires RequestOk(r, mEnd) && m <= mEnd
    ensures BoundaryTest(m, r) == WithinBoundary(m, r)
  {
    hide P, Xor, And, Div, Mod, RoundDown2;
    if r.boundary.Some? {
      SameBlock(Addr(m), Addr(m) + Length(r) - 1, r.boundary.value);
    } else {
      RoundDown2Zero(Xor(Addr(m), Addr(m) + Length(r) - 1));
    }
  }

  // ---- skipping ahead --------------------------------------------------------------

  lemma NoMultipleBetween(top: nat, p: nat, y: nat)
    requires p > 0 && Mod(top, p) == 0 && y < top < y + p
    ensures Mod(y, p) != 0
  {
    var q := top / p;
    assert top == q * p;
    assert top > 0 && q >= 1;
    assert q * p == (q - 1) * p + p;
    DivModUnique(y, p, q - 1, y - (q - 1) * p);
  }

  lemma SameBlockBelow(top: nat, p: nat, x: nat, y: nat)
    requires p > 0 && Mod(top, p) == 0 && top <= x + p && x <= y < top
    ensures Div(x, p) == Div(y, p)
  {
    var q := top / p;
    assert top == q * p;
    assert q * p == (q - 1) * p + p;
    DivModUnique(x, p, q - 1, x - (q - 1) * p);
    DivModUnique(y, p, q - 1, y - (q - 1) * p);
  }

  lemma OtherBlockAbove(top: nat, p: nat, x: nat, y: nat)
    requires p > 0 && Mod(top, p) == 0 && x < top <= y
    ensures Div(x, p) < Div(y, p)
  {
    var q := top / p;
    assert top == q * p;
    assert (y / p + 1) * p == y / p * p + p;
    if x / p >= q {
      MulLe(q, x / p, p);
    }
    if y / p <= q - 1 {
      MulLe(y / p + 1, q, p);
    }
  }

  /** A multiple of 2^k is one of 2^j for every j <= k. */
  lemma {:induction false} CoarserMultiple(x: nat, j: nat, k: nat)
    requires j <= k && Mod(x, P(k)) == 0
    ensures Mod(x, P(j)) == 0
  {
    if j < k {
      PDouble(k);
      var p := P(k - 1);
      var q := x / (2 * p);
      assert x == q * (2 * p) == (q * 2) * p;
      DivModUnique(x, p, q * 2, 0);
      CoarserMultiple(x, j, k - 1);
    }
  }

  lemma PageMultiple(m: nat)
    ensures P(PAGE_SHIFT) == PAGE && Mod(Addr(m), P(PAGE_SHIFT)) == 0
  {
    assert P(4) == 16 && P(8) == 256 && P(12) == 4096;
    DivModUnique(Addr(m), PAGE, m, 0);
  }

  /** Rounding an address up to a coarser power of two moves on by whole pages, and by at least one. */
  lemma RoundUpPages(m: nat, x: nat, k: nat)
    requires PAGE_SHIFT <= k < WORD && x + P(k) - 1 < P(WORD)
    requires Addr(m) < x <= Addr(m) + 1 || (x == Addr(m) && Mod(x, P(k)) != 0)
    ensures P(k) <= P(WORD)
    ensures var top := RoundUp2(x, P(k));
            && Addr(m) < top <= Addr(m) + P(k) && top < x + P(k) && Mod(top, P(k)) == 0
            && (top - Addr(m)) / PAGE >= 1
            && Addr(m + (top - Addr(m)) / PAGE) == top
  {
    hide P, Mod, RoundUp2;
    RoundUp2Power(x, k);
    var top := RoundUp2(x, P(k));
    CoarserMultiple(top, PAGE_SHIFT, k);
    PageMultiple(m);
    TopPages(m, top);
    PagesApart(m, top, k);
  }

  lemma TopPages(m: nat, top: nat)
    requires Addr(m) < top && Mod(top, PAGE) == 0
    ensures (top - Addr(m)) / PAGE >= 1 && Addr(m + (top - Addr(m)) / PAGE) == top
  {
  }

  lemma PagesApart(m: nat, top: nat, k: nat)
    requires PAGE_SHIFT <= k && Mod(top, P(k)) == 0
    ensures top != Addr(m) + P(k) + 1
  {
    CoarserMultiple(top, PAGE_SHIFT, k);
    PageMultiple(m);
    PowerPages(k);
    hide P;
    OneOff(m, top, P(k));
  }

  lemma OneOff(m: nat, top: nat, p: nat)
    requires Mod(top, PAGE) == 0 && p % PAGE == 0
    ensures top != Addr(m) + p + 1
  {
  }

  lemma {:induction false} PowerPages(k: nat)
    requires PAGE_SHIFT <= k
    ensures P(k) % PAGE == 0
  {
    if k > PAGE_SHIFT {
      PowerPages(k - 1);
    } else {
      PageMultiple(0);
    }
  }

  /** From an unaligned page the scan goes to the next aligned one, past unaligned ones only. */
  lemma AlignSkip(m: nat, mEnd: nat, r: Request)
    requires RequestOk(r, mEnd) && m <= mEnd && !Aligned(m, r)
    ensures AlignInc(m, r) >= 1 && forall c: nat | m <= c < m + AlignInc(m, r) :: !Aligned(c, r)
  {
    hide P, Mod, RoundUp2;
    PageMultiple(m);
    if r.align < PAGE_SHIFT {
      CoarserMultiple(Addr(m), r.align, PAGE_SHIFT);
    }
    RoundUpPages(m, Addr(m), r.align);
    var top := RoundUp2(Addr(m), P(r.align));
    forall c: nat | m <= c < m + AlignInc(m, r)
      ensures !Aligned(c, r)
    {
      NoMultipleBetween(top, P(r.align), Addr(c));
    }
  }

  /** Off the multiples of the boundary the scan goes to the next multiple. */
  lemma ToBoundary(m: nat, mEnd: nat, r: Request)
    requires RequestOk(r, mEnd) && m <= mEnd && r.boundary.Some? && Mod(Addr(m), BoundaryWord(r)) != 0
    ensures BoundaryInc(m, r) >= 1
    ensures var top := Addr(m + BoundaryInc(m, r));
            Mod(top, BoundaryWord(r)) == 0 && Addr(m) < top < Addr(m) + BoundaryWord(r)
  {
    hide P, Mod, Div, RoundUp2;
    if r.boundary.value < PAGE_SHIFT {
      PageMultiple(m);
      CoarserMultiple(Addr(m), r.boundary.value, PAGE_SHIFT);
    }
    RoundUpPages(m, Addr(m), r.boundary.value);
  }

  /** From a page whose run would cross a boundary it goes to that boundary, past runs that cross it too. */
  lemma BoundarySkip(m: nat, mEnd: nat, r: Request)
    requires RequestOk(r, mEnd) && m <= mEnd && r.boundary.Some? && !WithinBoundary(m, r)
    requires Length(r) <= BoundaryWord(r) || Mod(Addr(m), BoundaryWord(r)) != 0
    ensures BoundaryInc(m, r) >= 1 && forall c: nat | m <= c < m + BoundaryInc(m, r) :: !WithinBoundary(c, r)
  {
    hide P, Mod, Div, RoundUp2, BoundaryInc;
    var b := P(r.boundary.value);
    if Mod(Addr(m), b) == 0 {
      MultipleWithin(Addr(m), Length(r), b);
    }
    ToBoundary(m, mEnd, r);
    var top := Addr(m + BoundaryInc(m, r));
    if Addr(m) + Length(r) - 1 < top {
      SameBlockBelow(top, b, Addr(m), Addr(m) + Length(r) - 1);
    }
    forall c: nat | m <= c < m + BoundaryInc(m, r)
      ensures !WithinBoundary(c, r)
    {
      OtherBlockAbove(top, b, Addr(c), Addr(c) + Length(r) - 1);
    }
  }

  lemma MultipleWithin(x: nat, length: nat, b: nat)
    requires b > 0 && Mod(x, b) == 0 && 0 < length <= b
    ensures Div(x, b) == Div(x + length - 1, b)
  {
    var q := x / b;
    assert x == q * b;
    DivModUnique(x, b, q, 0);
    DivModUnique(x + length - 1, b, q, length - 1);
  }

  // ---- requests longer than their boundary -------------------------------------------

  /** At a multiple of the boundary the scan advances by nothing. */
  lemma BoundaryStop(m: nat, mEnd: nat, r: Request)
    requires RequestOk(r, mEnd) && m <= mEnd && r.boundary.Some? && Mod(Addr(m), BoundaryWord(r)) == 0
    ensures BoundaryInc(m, r) == 0
  {
    hide P, Mod, RoundUp2;
    var b := P(r.boundary.value);
    RoundUp2Power(Addr(m), r.boundary.value);
    var top := RoundUp2(Addr(m), b);
    if Addr(m) < top {
      NoMultipleBetween(top, b, Addr(m));
    }
  }

  /** No run longer than the boundary lies within one. */
  lemma LongerThanBoundary(m: nat, r: Request)
    requires r.npages > 0 && r.boundary.Some? && Length(r) > BoundaryWord(r)
    ensures !WithinBoundary(m, r)
  {
    var x, b := Addr(m), P(r.boundary.value);
    hide P, Mod;
    var q := x / b;
    assert (q + 1) * b == q * b + b;
    assert Mod((q + 1) * b, b) == 0 by {
      DivModUnique((q + 1) * b, b, q + 1, 0);
    }
    OtherBlockAbove((q + 1) * b, b, x, x + Length(r) - 1);
  }

  /**
    The request is longer than its nonzero boundary, and some page from which it
    would still fit into the range is aligned and a multiple of the boundary.
   */
  ghost predicate Endless(mStart: nat, mEnd: nat, r: Request) {
    r.boundary.Some? && Length(r) > BoundaryWord(r) && exists c: nat :: Trap(mStart, mEnd, r, c)
  }

  ghost predicate Trap(mStart: nat, mEnd: nat, r: Request, c: nat)
    requires r.boundary.Some?
  {
    mStart <= c && c + r.npages <= mEnd && Aligned(c, r) && Mod(Addr(c), BoundaryWord(r)) == 0
  }

  /** The scan looks for the start of a run at page m and has to go on to another page. */
  predicate Skips(m: nat, mEnd: nat, r: Request)
    requires RequestOk(r, mEnd)
  {
    m + r.npages <= mEnd && !(AlignedTest(m, r) && BoundaryTest(m, r))
  }

  /** Where the loop is after n turns, if no run has started by then. */
  function Position(mStart: nat, mEnd: nat, r: Request, n: nat): int
    requires RequestOk(r, mEnd)
  {
    if n == 0 then mStart
    else
      var m := Position(mStart, mEnd, r, n - 1);
      if m < 0 || !Skips(m, mEnd, r) then m
      else if !AlignedTest(m, r) then m + AlignInc(m, r)
      else m + BoundaryInc(m, r)
  }

  /** A skip never leads past a page that is aligned and a multiple of the boundary. */
  lemma SkipStopsAtTrap(m: nat, mEnd: nat, r: Request, c: nat)
    requires RequestOk(r, mEnd) && r.boundary.Some? && Trap(m, mEnd, r, c)
    ensures !Aligned(m, r) ==> 1 <= AlignInc(m, r) <= c - m
    ensures 0 <= BoundaryInc(m, r) <= c - m
  {
    hide P, Mod, AlignInc, BoundaryInc;
    if !Aligned(m, r) {
      AlignSkip(m, mEnd, r);
    }
    if Mod(Addr(m), BoundaryWord(r)) == 0 {
      BoundaryStop(m, mEnd, r);
    } else {
      ToBoundary(m, mEnd, r);
      var top := Addr(m + BoundaryInc(m, r));
      if Addr(c) < top {
        NoMultipleBetween(top, BoundaryWord(r), Addr(c));
      }
    }
  }

  /**
    The scan of an endless request never returns: after any number of turns it is
    still at a page in range where no run may start.  Scan proves the converse:
    it returns for every other request.
   */
  lemma {:induction false} ScanNeverReturns(mStart: nat, mEnd: nat, r: Request, n: nat)
    requires RequestOk(r, mEnd) && Endless(mStart, mEnd, r)
    ensures var m := Position(mStart, mEnd, r, n); m >= mStart && Skips(m, mEnd, r)
    ensures exists c: nat :: Trap(Position(mStart, mEnd, r, n), mEnd, r, c)
  {
    var c: nat :| Trap(mStart, mEnd, r, c);
    if n > 0 {
      ScanNeverReturns(mStart, mEnd, r, n - 1);
      var m := Position(mStart, mEnd, r, n - 1);
      c :| Trap(m, mEnd, r, c);
      AlignedTestOk(m, r);
      SkipStopsAtTrap(m, mEnd, r, c);
    }
    var m := Position(mStart, mEnd, r, n);
    assert Trap(m, mEnd, r, c);
    BoundaryTestOk(m, mEnd, r);
    LongerThanBoundary(m, r);
  }

  /**
    Such requests exist: three pages within a boundary of two, in a range of a hundred
    pages; page 0 is aligned and a multiple of every boundary.
   */
  lemma EndlessRequest() returns (r: Request)
    ensures RequestOk(r, 100) && Endless(0, 100, r)
    ensures forall n: nat :: Position(0, 100, r, n) == 0
  {
    r := Request(3, 12, Some(13), 21, Options(false, false));
    SmallPowers();
    DivModUnique(0, P(12), 0, 0);
    DivModUnique(0, P(13), 0, 0);
    assert Trap(0, 100, r, 0);
    forall n: nat
      ensures Position(0, 100, r, n) == 0
    {
      StaysAtTrap(100, r, n);
    }
  }

  lemma SmallPowers()
    ensures P(12) == 0x1000 && P(13) == 0x2000 && P(21) == 0x20_0000 && 0x1000_0000 <= P(WORD)
  {
    assert P(4) == 0x10 && P(8) == 0x100 && P(16) == 0x1_0000 && P(20) == 0x10_0000 && P(24) == 0x100_0000;
    PMonotone(28, WORD);
  }

  lemma {:induction false} StaysAtTrap(mEnd: nat, r: Request, n: nat)
    requires RequestOk(r, mEnd) && r.boundary.Some? && Trap(0, mEnd, r, 0)
    ensures Position(0, mEnd, r, n) == 0
  {
    if n > 0 {
      StaysAtTrap(mEnd, r, n - 1);
      hide P, Mod, AlignedTest, BoundaryTest, AlignInc, BoundaryInc;
      AlignedTestOk(0, r);
      BoundaryStop(0, mEnd, r);
    }
  }

  // ---- runs ------------------------------------------------------------------------

  predicate Available(p: Page) {
    p.wireCount == 0 && p.holdCount == 0 && p.obj.None? && p.level < 0
  }

  predicate FreeHead(p: Page) { Available(p) && p.order < VM_NFREEORDER }

  ghost predicate SameReserv(i: nat, j: nat, r: Request) {
    Div(Addr(i), P(r.reserv)) == Div(Addr(j), P(r.reserv))
  }

  /**
    What the allocators keep: a free block of order k consists of 2^k free pages
    of which only the first records an order; the pages of a reservation agree on
    being reserved and on being fully populated, and then all belong to an object.
   */
  ghost predicate Sane(mem: seq<Page>, r: Request) {
    && (forall h: nat, c: nat | h < c < |mem| && FreeHead(mem[h]) && c < h + P(mem[h].order) ::
          Available(mem[c]) && mem[c].order >= VM_NFREEORDER)
    && (forall i: nat, j: nat | i < |mem| && j < |mem| && SameReserv(i, j, r) ::
          && (mem[i].level >= 0 <==> mem[j].level >= 0)
          && (mem[i].fullLevel >= 0 <==> mem[j].fullLevel >= 0))
    && (forall i | 0 <= i < |mem| && mem[i].fullLevel >= 0 :: mem[i].obj.Some?)
  }

  /** A page that the request may take: free, or relocatable under its options. */
  ghost predicate Usable(mem: seq<Page>, i: nat, r: Request)
    requires i < |mem|
  {
    var p := mem[i];
    && p.wireCount == 0 && p.holdCount == 0
    && !(p.level >= 0 && r.options.noReserv)
    && if p.obj.Some? then
         && p.obj.value.pageable && p.obj.value.defaultMemattr && p.queued && !p.busied
         && !(r.options.noSuper && p.fullLevel >= 0)
       else
         p.level >= 0
         || exists h: nat | h <= i :: FreeHead(mem[h]) && i < h + P(mem[h].order)
  }

  /** From page m on, the scan's own steps collect `need` pages without a gap. */
  ghost predicate RunAt(mem: seq<Page>, m: nat, need: int, r: Request)
    requires r.reserv <= WORD
    decreases |mem| - m
  {
    need <= 0
    || (m < |mem| && var ext := Extent(mem, m, r).0; ext > 0 && RunAt(mem, m + ext, need - ext, r))
  }

  ghost predicate Qualifies(mem: seq<Page>, m: nat, mEnd: nat, r: Request)
    requires r.reserv <= WORD && r.npages > 0
  {
    m + r.npages <= mEnd && Aligned(m, r) && WithinBoundary(m, r) && RunAt(mem, m, r.npages, r)
  }

  lemma ReservSkip(m: nat, mEnd: nat, r: Request)
    requires RequestOk(r, mEnd) && m < mEnd
    ensures ToReservEnd(m, r) >= 1
    ensures forall c: nat | m < c < m + ToReservEnd(m, r) :: SameReserv(m, c, r)
  {
    hide P, Mod, Div, RoundUp2;
    RoundUpPages(m, Addr(m) + 1, r.reserv);
    var top := RoundUp2(Addr(m) + 1, P(r.reserv));
    forall c: nat | m < c < m + ToReservEnd(m, r)
      ensures SameReserv(m, c, r)
    {
      SameBlockBelow(top, P(r.reserv), Addr(m), Addr(c));
    }
  }

  /**
    A step of the scan advances; when it extends the run it does so by exactly
    the pages it passes, and the pages it passes over could not start a run.
   */
  lemma ExtentSkips(mem: seq<Page>, m: nat, mEnd: nat, r: Request)
    requires RequestOk(r, mEnd) && mEnd <= |mem| && m < mEnd && Sane(mem, r)
    ensures var (ext, inc) := Extent(mem, m, r);
            && inc >= 1 && (ext > 0 ==> ext == inc)
            && forall c: nat | m < c < m + inc && c < |mem| :: Extent(mem, c, r).0 == 0
  {
    hide P, RoundUp2, ToReservEnd, SameReserv;
    ReservSkip(m, mEnd, r);
  }

  /** Every page of a collected run is usable. */
  lemma {:induction false} RunUsable(mem: seq<Page>, m: nat, need: int, r: Request, i: nat)
    requires r.reserv <= WORD && Sane(mem, r) && RunAt(mem, m, need, r)
    requires m <= i < |mem| && i < m + need
    ensures Usable(mem, i, r)
    decreases |mem| - m
  {
    var ext := Extent(mem, m, r).0;
    if i < m + ext {
      HeadUsable(mem, m, r, i);
    } else {
      RunUsable(mem, m + ext, need - ext, r, i);
    }
  }

  lemma HeadUsable(mem: seq<Page>, m: nat, r: Request, i: nat)
    requires r.reserv <= WORD && Sane(mem, r)
    requires m <= i < |mem| && i < m + Extent(mem, m, r).0
    ensures Usable(mem, i, r)
  {
    hide P, RoundUp2, ToReservEnd;
    if i > m {
      assert FreeHead(mem[m]) && i < m + P(mem[m].order);
    }
  }

  /** Page m is not inside a free block that begins before it. */
  ghost predicate Uncovered(mem: seq<Page>, m: nat) {
    forall h: nat | h < m && h < |mem| && FreeHead(mem[h]) :: h + P(mem[h].order) <= m
  }

  ghost predicate AllUsable(mem: seq<Page>, m: nat, need: int, r: Request) {
    m + need <= |mem| && forall i: nat | m <= i < m + need :: Usable(mem, i, r)
  }

  lemma NoHeadInside(mem: seq<Page>, m: nat, h: nat, r: Request)
    requires Sane(mem, r) && m < h < |mem| && FreeHead(mem[m]) && h < m + P(mem[m].order)
    ensures !FreeHead(mem[h])
  {
  }

  /** What the scan does at a usable page at which a free block may begin. */
  lemma UsableExtends(mem: seq<Page>, m: nat, r: Request)
    requires r.reserv <= WORD && Sane(mem, r) && m < |mem| && Usable(mem, m, r) && Uncovered(mem, m)
    ensures Extent(mem, m, r).0 > 0 && Uncovered(mem, m + Extent(mem, m, r).0)
  {
    hide P, RoundUp2, ToReservEnd, SameReserv, Sane;
    var p := mem[m];
    var ext := Extent(mem, m, r).0;
    if p.obj.None? && p.level < 0 {
      var h: nat :| h <= m && FreeHead(mem[h]) && m < h + P(mem[h].order);
      assert h == m && ext == P(p.order);
    } else {
      assert ext == 1 && !FreeHead(p);
    }
    forall h: nat | h < m + ext && h < |mem| && FreeHead(mem[h])
      ensures h + P(mem[h].order) <= m + ext
    {
      if h > m {
        NoHeadInside(mem, m, h, r);
      }
    }
  }

  /** The converse of RunUsable: a run of usable pages is collected, unless it begins inside a free block. */
  lemma {:induction false} UsableRun(mem: seq<Page>, m: nat, need: int, r: Request)
    requires r.reserv <= WORD && Sane(mem, r) && AllUsable(mem, m, need, r) && Uncovered(mem, m)
    ensures RunAt(mem, m, need, r)
    decreases |mem| - m
  {
    if need > 0 {
      UsableExtends(mem, m, r);
      hide Usable, Extent, Uncovered, Sane;
      var ext := Extent(mem, m, r).0;
      if need > ext {
        UsableRun(mem, m + ext, need - ext, r);
      }
    }
  }

  /** Inside a free block nothing can be collected. */
  lemma CoveredFails(mem: seq<Page>, m: nat, need: int, r: Request)
    requires r.reserv <= WORD && Sane(mem, r) && need > 0 && RunAt(mem, m, need, r)
    ensures Uncovered(mem, m)
  {
    hide P, RoundUp2, ToReservEnd, SameReserv;
  }

  /** A run that begins at page c fits into the range and is what the request asks for, page by page. */
  ghost predicate Suits(mem: seq<Page>, c: nat, mEnd: nat, r: Request)
    requires r.npages > 0
  {
    && c + r.npages <= mEnd && Aligned(c, r) && WithinBoundary(c, r)
    && AllUsable(mem, c, r.npages, r) && Uncovered(mem, c)
  }

  lemma QualifiesIffSuits(mem: seq<Page>, c: nat, mEnd: nat, r: Request)
    requires RequestOk(r, mEnd) && mEnd <= |mem| && Sane(mem, r)
    ensures Qualifies(mem, c, mEnd, r) <==> Suits(mem, c, mEnd, r)
  {
    hide P, Sane, RunAt, Usable, Uncovered, Aligned, WithinBoundary;
    if Qualifies(mem, c, mEnd, r) {
      CoveredFails(mem, c, r.npages, r);
      forall i: nat | c <= i < c + r.npages
        ensures Usable(mem, i, r)
      {
        RunUsable(mem, c, r.npages, r, i);
      }
    } else if Suits(mem, c, mEnd, r) {
      UsableRun(mem, c, r.npages, r);
    }
  }

  /** A run from c needs what a start at `m` would still need. */
  ghost predicate Needs(mem: seq<Page>, c: nat, m: nat, r: Request)
    requires r.reserv <= WORD
  {
    RunAt(mem, c, r.npages, r) ==> RunAt(mem, m, r.npages - (m - c), r)
  }

  ghost predicate Behind(mem: seq<Page>, run: nat, m: nat, r: Request)
    requires r.reserv <= WORD
  {
    forall c: nat | run <= c < m :: Needs(mem, c, m, r)
  }

  lemma NeedsStep(mem: seq<Page>, c: nat, m: nat, r: Request)
    requires r.reserv <= WORD && c <= m < c + r.npages && m < |mem| && Needs(mem, c, m, r)
    ensures var ext := Extent(mem, m, r).0;
            if ext > 0 then Needs(mem, c, m + ext, r) else !RunAt(mem, c, r.npages, r)
  {
    if RunAt(mem, c, r.npages, r) {
      RunNext(mem, m, r.npages - (m - c), r);
    }
  }

  lemma NoStart(mem: seq<Page>, c: nat, r: Request)
    requires r.reserv <= WORD && r.npages > 0
    requires c < |mem| ==> Extent(mem, c, r).0 == 0
    ensures !RunAt(mem, c, r.npages, r)
  {
  }

  lemma BehindStep(mem: seq<Page>, run: nat, m: nat, mEnd: nat, r: Request)
    requires RequestOk(r, mEnd) && mEnd <= |mem| && m < mEnd && Sane(mem, r)
    requires run <= m < run + r.npages && Behind(mem, run, m, r)
    ensures var (ext, inc) := Extent(mem, m, r);
            && inc >= 1
            && (ext > 0 ==> ext == inc && Behind(mem, run, m + ext, r))
            && (ext == 0 ==> forall c: nat | run <= c < m + inc :: !RunAt(mem, c, r.npages, r))
  {
    ExtentSkips(mem, m, mEnd, r);
    hide P, RoundUp2, Sane, Extent, RunAt, Needs;
    var (ext, inc) := Extent(mem, m, r);
    forall c: nat | run <= c < m + inc
      ensures if ext > 0 then Needs(mem, c, m + ext, r) else !RunAt(mem, c, r.npages, r)
    {
      if c <= m {
        NeedsSelf(mem, m, r);
        NeedsStep(mem, c, m, r);
      } else {
        NoStart(mem, c, r);
        NeedsNothing(mem, c, m + ext, r);
      }
    }
  }

  lemma NeedsSelf(mem: seq<Page>, m: nat, r: Request)
    requires r.reserv <= WORD
    ensures Needs(mem, m, m, r)
  {
  }

  lemma NeedsNothing(mem: seq<Page>, c: nat, m: nat, r: Request)
    requires r.reserv <= WORD && !RunAt(mem, c, r.npages, r)
    ensures Needs(mem, c, m, r)
  {
  }

  lemma RunNext(mem: seq<Page>, m: nat, need: int, r: Request)
    requires r.reserv <= WORD && need > 0 && RunAt(mem, m, need, r)
    ensures m < |mem| && Extent(mem, m, r).0 > 0
    ensures RunAt(mem, m + Extent(mem, m, r).0, need - Extent(mem, m, r).0, r)
  {
  }

  /** vm_page_scan_contig: the lowest run that meets the request, if there is one. */
  method Scan(mem: seq<Page>, mStart: nat, mEnd: nat, r: Request) returns (found: Option<nat>)
    requires RequestOk(r, mEnd) && mEnd <= |mem| && Sane(mem, r)
    requires !Endless(mStart, mEnd, r)
    ensures found.Some? ==> mStart <= found.value && Suits(mem, found.value, mEnd, r)
    ensures found.Some? ==> forall c: nat | mStart <= c < found.value :: !Suits(mem, c, mEnd, r)
    ensures found.None? ==> forall c: nat | mStart <= c :: !Suits(mem, c, mEnd, r)
  {
    hide P, Mod, Div, And, Xor, RoundUp2, RoundDown2, Sane, Behind, Extent, AlignInc, BoundaryInc, AllUsable, Uncovered;
    var m, run, runLen := mStart, mStart, 0;
    BehindNothing(mem, m, r);
    while m < mEnd && runLen < r.npages
      invariant runLen == 0 ==> run == m
      invariant m == run + runLen && mStart <= run
      invariant forall c: nat | mStart <= c < run :: !Qualifies(mem, c, mEnd, r)
      invariant Behind(mem, run, m, r)
      invariant runLen > 0 ==> run + r.npages <= mEnd && Aligned(run, r) && WithinBoundary(run, r)
      invariant RunAt(mem, m, r.npages - runLen, r) ==> RunAt(mem, run, r.npages, r)
      decreases mEnd - m
    {
      if runLen == 0 {
        if m + r.npages > mEnd {
          break;
        }
        AlignedTestOk(m, r);
        if !AlignedTest(m, r) {
          AlignSkip(m, mEnd, r);
          m := m + AlignInc(m, r);
          run := m;
          BehindNothing(mem, m, r);
          continue;
        }
        BoundaryTestOk(m, mEnd, r);
        if !BoundaryTest(m, r) {
          assert !Trap(mStart, mEnd, r, m) || Length(r) <= BoundaryWord(r);
          BoundarySkip(m, mEnd, r);
          m := m + BoundaryInc(m, r);
          run := m;
          BehindNothing(mem, m, r);
          continue;
        }
      }
      BehindStep(mem, run, m, mEnd, r);
      var (ext, inc) := Extent(mem, m, r);
      if ext > 0 {
        runLen := runLen + ext;
        m := m + inc;
      } else {
        m := m + inc;
        run, runLen := m, 0;
        BehindNothing(mem, m, r);
      }
    }
    found := if runLen >= r.npages then Some(run) else None;
    forall c: nat
      ensures Qualifies(mem, c, mEnd, r) <==> Suits(mem, c, mEnd, r)
    {
      QualifiesIffSuits(mem, c, mEnd, r);
    }
  }

  lemma BehindNothing(mem: seq<Page>, m: nat, r: Request)
    requires r.reserv <= WORD
    ensures Behind(mem, m, m, r)
  {
  }
}
