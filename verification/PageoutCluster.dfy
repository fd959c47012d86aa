/**
  Forming a cluster of dirty pages around a page that is to be laundered
  (asgn3/vm_pageout.c:351-456).  The object is locked throughout, so its
  resident pages are a fixed map from page index to page.
 */
module PageoutCluster {
  import opened Arith
  import Bits

  datatype Queue = NoQueue | Inactive | Active | Laundry

  /** `modified` is what the pmap layer would report to vm_page_test_dirty. */
  datatype Page = Page(pindex: nat, busied: bool, dirty: bool, modified: bool, queue: Queue, holdCount: nat)

  type Resident = map<int, Page>

  /** Neither busy nor clean nor held, and queued for laundering. */
  predicate Eligible(p: Page) {
    !p.busied && (p.dirty || p.modified) && p.queue == Laundry && p.holdCount == 0
  }

  // ---- specification -----------------------------------------------------------

  /** How many eligible pages directly precede index `i`. */
  function LeftRun(pages: Resident, i: nat): nat {
    if i > 0 && i - 1 in pages && Eligible(pages[i - 1]) then 1 + LeftRun(pages, i - 1) else 0
  }

  /** How many eligible pages below the object's size directly follow index `i`. */
  function RightRun(pages: Resident, size: nat, i: nat): nat
    decreases size - i
  {
    if i + 1 < size && i + 1 in pages && Eligible(pages[i + 1]) then 1 + RightRun(pages, size, i + 1) else 0
  }

  predicate AtBoundary(i: nat, max: nat)
    requires max > 0
  {
    i % max == 0
  }

  /** The distance from `pindex` down to the alignment boundary before it. */
  function ToBoundary(pindex: nat, max: nat): (d: int)
    requires max > 0
    ensures 1 <= d <= max
  {
    if pindex % max == 0 then max else pindex % max
  }

  /** The first backward scan stops at an alignment boundary. */
  function FirstLeft(left: nat, pindex: nat, max: nat): int
    requires max > 0
  {
    Min(left, Min(max - 1, ToBoundary(pindex, max)))
  }

  /** How far the cluster reaches forward: as far as the first backward scan leaves room. */
  function Forward(left: nat, right: nat, pindex: nat, max: nat): int
    requires max > 0
  {
    Min(right, max - 1 - FirstLeft(left, pindex, max))
  }

  /** How far it reaches backward in the end: into all the room that is then left. */
  function Backward(left: nat, right: nat, pindex: nat, max: nat): int
    requires max > 0
  {
    Min(left, max - 1 - Forward(left, right, pindex, max))
  }

  lemma {:induction false} LeftRunPages(pages: Resident, i: nat, k: nat)
    requires k <= LeftRun(pages, i)
    ensures k <= i
    ensures forall j | i - k <= j < i :: j in pages && Eligible(pages[j])
    ensures LeftRun(pages, i) == k + LeftRun(pages, i - k)
  {
    if k > 0 {
      LeftRunPages(pages, i - 1, k - 1);
    }
  }

  lemma {:induction false} RightRunPages(pages: Resident, size: nat, i: nat, k: nat)
    requires k <= RightRun(pages, size, i)
    ensures forall j | i < j <= i + k :: j < size && j in pages && Eligible(pages[j])
    ensures RightRun(pages, size, i) == k + RightRun(pages, size, i + k)
    decreases k
  {
    if k > 0 {
      RightRunPages(pages, size, i + 1, k - 1);
    }
  }

  lemma ModOf(q: nat, m: nat, r: nat)
    requires r < m
    ensures (q * m + r) % m == r
  {
    Bits.DivModUnique(q * m + r, m, q, r);
  }

  /** Below index p, the first boundary is p % m steps away, or m steps if p is on one. */
  lemma BoundaryDistance(p: nat, m: nat, k: nat)
    requires 1 <= k < m && k <= p
    requires p % m == 0 || k <= p % m
    ensures (p - k) % m == 0 <==> k == p % m
  {
    var q, r := p / m, p % m;
    assert p == q * m + r;
    if k <= r {
      ModOf(q, m, r - k);
    } else {
      assert q * m == (q - 1) * m + m;
      assert q > 0;
      ModOf(q - 1, m, m - k);
    }
  }

  /** The cluster is maximal: if it is not full, it cannot be extended on either side. */
  lemma ClusterMaximal(pages: Resident, size: nat, pindex: nat, max: nat)
    requires max > 0
    ensures var left, right := LeftRun(pages, pindex), RightRun(pages, size, pindex);
            var l, r := Backward(left, right, pindex, max), Forward(left, right, pindex, max);
            && 0 <= l <= left && 0 <= r <= right && l + 1 + r <= max
            && (l + 1 + r < max ==> l == left && r == right)
  {
  }

  /** When the pages before `pindex` reach a boundary and there is enough behind, the cluster starts aligned. */
  lemma ClusterAligned(pages: Resident, size: nat, pindex: nat, max: nat)
    requires max > 0
    requires pindex % max <= LeftRun(pages, pindex)
    requires pindex % max > 0 && RightRun(pages, size, pindex) >= max - 1 - pindex % max
    ensures var left, right := LeftRun(pages, pindex), RightRun(pages, size, pindex);
            var l, r := Backward(left, right, pindex, max), Forward(left, right, pindex, max);
            && l + 1 + r == max && l <= pindex && (pindex - l) % max == 0
  {
    LeftRunPages(pages, pindex, pindex % max);
    BoundaryDistance(pindex, max, pindex % max);
  }

  /** The pages at consecutive indices from the first to the last of the cluster; all but the start are eligible. */
  ghost predicate IsCluster(s: seq<Page>, pages: Resident, size: nat, pindex: nat, max: nat)
    requires max > 0
  {
    var left, right := LeftRun(pages, pindex), RightRun(pages, size, pindex);
    var l, r := Backward(left, right, pindex, max), Forward(left, right, pindex, max);
    && |s| == l + 1 + r
    && forall i | 0 <= i < |s| :: ClusterAt(s, pages, pindex, l, i)
  }

  /** Element i is the page at its index, the start page `pindex` being at position l. */
  ghost predicate ClusterAt(s: seq<Page>, pages: Resident, pindex: int, l: int, i: int)
    requires 0 <= i < |s|
  {
    && pindex - l + i in pages && s[i] == pages[pindex - l + i]
    && (i != l ==> Eligible(s[i]))
  }

  /** A page that may be laundered along with another one. */
  predicate Joins(pages: Resident, size: int, j: int) {
    && j in pages && j < size && !pages[j].busied && (pages[j].dirty || pages[j].modified)
    && pages[j].queue == Laundry && pages[j].holdCount == 0
  }

  /**
    The pages at consecutive indices around the start page, which is number l of them;
    they may all be laundered along with it, and if there is room for more then the
    pages next to them may not.
   */
  ghost predicate GoodCluster(s: seq<Page>, pages: Resident, size: nat, pindex: nat, max: nat, l: nat) {
    && l < |s| <= max && l <= pindex && pindex in pages && s[l] == pages[pindex]
    && (forall i | 0 <= i < |s| :: pindex - l + i in pages && s[i] == pages[pindex - l + i])
    && (forall j | pindex - l <= j < pindex :: Joins(pages, pindex, j))
    && (forall j | pindex < j < pindex - l + |s| :: Joins(pages, size, j))
    && (|s| < max ==> !(pindex - l > 0 && Joins(pages, pindex, pindex - l - 1)) && !Joins(pages, size, pindex - l + |s|))
  }

  lemma ClusterIsGood(s: seq<Page>, pages: Resident, size: nat, pindex: nat, max: nat)
    requires max > 0 && pindex in pages && IsCluster(s, pages, size, pindex, max)
    ensures exists l: nat :: GoodCluster(s, pages, size, pindex, max, l)
  {
    var left, right := LeftRun(pages, pindex), RightRun(pages, size, pindex);
    var l, r := Backward(left, right, pindex, max), Forward(left, right, pindex, max);
    ClusterMaximal(pages, size, pindex, max);
    LeftRunPages(pages, pindex, l);
    RightRunPages(pages, size, pindex, r);
    LeftEdge(pages, pindex, l);
    RightEdge(pages, size, pindex, r);
    hide LeftRun, RightRun, Forward, Backward;
    assert ClusterAt(s, pages, pindex, l, l);
    forall i | 0 <= i < |s|
      ensures pindex - l + i in pages && s[i] == pages[pindex - l + i]
    {
      assert ClusterAt(s, pages, pindex, l, i);
    }
    assert s[l] == pages[pindex];
    assert forall j | pindex - l <= j < pindex :: Joins(pages, pindex, j);
    forall j | pindex < j < pindex - l + |s|
      ensures Joins(pages, size, j)
    {
      assert pindex < j <= pindex + r && j in pages && Eligible(pages[j]);
    }
    assert |s| < max ==> !(pindex - l > 0 && Joins(pages, pindex, pindex - l - 1));
    assert |s| < max ==> !Joins(pages, size, pindex - l + |s|);
    assert GoodCluster(s, pages, size, pindex, max, l);
  }

  // ---- the algorithm -------------------------------------------------------------

  ghost predicate HoldsAt(mc: seq<Page>, pages: Resident, pindex: nat, max: nat, j: int)
    requires 0 <= j < |mc|
  {
    pindex + j - max in pages && mc[j] == pages[pindex + j - max]
  }

  /** mc[base..base + count] holds the pages around `pindex`, `lc` of them before it. */
  ghost predicate Holds(mc: seq<Page>, pages: Resident, pindex: nat, max: nat, lc: nat, rc: nat) {
    && |mc| == 2 * max && lc + 1 + rc <= max
    && forall j | max - lc <= j <= max + rc :: HoldsAt(mc, pages, pindex, max, j)
  }

  lemma HoldsStart(mc: seq<Page>, pages: Resident, pindex: nat, max: nat)
    requires |mc| == 2 * max && max > 0 && pindex in pages && mc[max] == pages[pindex]
    ensures Holds(mc, pages, pindex, max, 0, 0)
  {
  }

  lemma HoldsLeft(mc: seq<Page>, pages: Resident, pindex: nat, max: nat, lc: nat, rc: nat)
    requires Holds(mc, pages, pindex, max, lc, rc) && lc + 1 + rc < max && pindex - lc - 1 in pages
    ensures Holds(mc[max - lc - 1 := pages[pindex - lc - 1]], pages, pindex, max, lc + 1, rc)
  {
    var mc' := mc[max - lc - 1 := pages[pindex - lc - 1]];
    forall j | max - (lc + 1) <= j <= max + rc
      ensures HoldsAt(mc', pages, pindex, max, j)
    {
      if j != max - lc - 1 {
        assert HoldsAt(mc, pages, pindex, max, j);
      } else {
        assert pindex + j - max == pindex - lc - 1;
      }
    }
  }

  lemma HoldsRight(mc: seq<Page>, pages: Resident, pindex: nat, max: nat, lc: nat, rc: nat)
    requires Holds(mc, pages, pindex, max, lc, rc) && lc + 1 + rc < max && pindex + rc + 1 in pages
    ensures Holds(mc[max + rc + 1 := pages[pindex + rc + 1]], pages, pindex, max, lc, rc + 1)
  {
    var mc' := mc[max + rc + 1 := pages[pindex + rc + 1]];
    forall j | max - lc <= j <= max + (rc + 1)
      ensures HoldsAt(mc', pages, pindex, max, j)
    {
      if j != max + rc + 1 {
        assert HoldsAt(mc, pages, pindex, max, j);
      } else {
        assert pindex + j - max == pindex + rc + 1;
      }
    }
  }

  /** The run to the left goes past its first k pages just when the next test succeeds. */
  lemma LeftEdge(pages: Resident, i: nat, k: nat)
    requires k <= LeftRun(pages, i)
    ensures k <= i
    ensures k < LeftRun(pages, i) <==> i - k > 0 && i - k - 1 in pages && Eligible(pages[i - k - 1])
  {
    LeftRunPages(pages, i, k);
  }

  lemma RightEdge(pages: Resident, size: nat, i: nat, k: nat)
    requires k <= RightRun(pages, size, i)
    ensures k < RightRun(pages, size, i) <==> i + k + 1 < size && i + k + 1 in pages && Eligible(pages[i + k + 1])
  {
    RightRunPages(pages, size, i, k);
  }

  /** vm_pageout_cluster; the result is what vm_pageout_flush is given. */
  method Cluster(pages: Resident, size: nat, m: Page, max: nat) returns (flushed: seq<Page>)
    requires max > 0
    requires m.pindex in pages && pages[m.pindex] == m
    requires forall i | i in pages :: i >= 0 && pages[i].pindex == i
    ensures IsCluster(flushed, pages, size, m.pindex, max)
    ensures exists l: nat :: GoodCluster(flushed, pages, size, m.pindex, max, l)
  {
    hide Holds, IsCluster, GoodCluster, Eligible, LeftRun, RightRun, Forward, Backward, ToBoundary, AtBoundary;
    var pindex := m.pindex;
    ghost var left, right := LeftRun(pages, pindex), RightRun(pages, size, pindex);
    ghost var l1 := FirstLeft(left, pindex, max);
    var mc := new Page[2 * max](_ => m);
    var pb, ps := m, m;
    mc[max] := m;
    var count, base, ib, next := 1, max, 1, 1;
    ghost var first := true;
    ghost var lc: nat, rc: nat := 0, 0;
    HoldsStart(mc[..], pages, pindex, max);
    var more := true;
    while more
      invariant lc <= left && rc <= right && Holds(mc[..], pages, pindex, max, lc, rc)
      invariant count == lc + 1 + rc <= max && base == max - lc && next == rc + 1
      invariant lc <= pindex && pb.pindex == pindex - lc && ps.pindex == pindex + rc
      invariant ib == 0 || ib == lc + 1
      invariant ib == 0 ==> lc == left
      invariant more ==> ib != 0
      invariant first ==> lc == 0 && rc == 0 && more
      invariant !first ==> lc >= l1 && rc == Min(right, max - 1 - l1)
      invariant !first && more ==> count < max && rc == right
      invariant !more ==> !first && (ib == 0 || count == max)
      decreases more, max - count, ib
    {
      // the backward scan
      while ib != 0 && count < max
        invariant lc <= left && Holds(mc[..], pages, pindex, max, lc, rc)
        invariant count == lc + 1 + rc <= max && base == max - lc
        invariant lc <= pindex && pb.pindex == pindex - lc
        invariant ib == 0 || ib == lc + 1
        invariant ib == 0 ==> lc == left
        invariant first ==> lc <= l1
        invariant !first ==> lc >= l1
        invariant first && ib != 0 && count < max ==> lc < ToBoundary(pindex, max)
        decreases max - count, ib
      {
        LeftEdge(pages, pindex, lc);
        if ib > pindex {
          ib := 0;
          break;
        }
        if pb.pindex - 1 !in pages {
          ib := 0;
          break;
        }
        var p := pages[pb.pindex - 1];
        if !Eligible(p) {
          ib := 0;
          break;
        }
        HoldsLeft(mc[..], pages, pindex, max, lc, rc);
        base := base - 1;
        mc[base] := p;
        pb := p;
        count := count + 1;
        ib := ib + 1;
        lc := lc + 1;
        if first && lc < max {
          FirstScanEdge(pindex, max, lc);
        }
        if AtBoundary(pindex - (ib - 1), max) {
          break;
        }
      }
      assert first ==> lc == l1;
      // the forward scan
      while count < max && pindex + next < size
        invariant rc <= right && Holds(mc[..], pages, pindex, max, lc, rc)
        invariant count == lc + 1 + rc <= max && next == rc + 1
        invariant ps.pindex == pindex + rc
        decreases max - count
      {
        RightEdge(pages, size, pindex, rc);
        if ps.pindex + 1 !in pages {
          break;
        }
        var p := pages[ps.pindex + 1];
        if !Eligible(p) {
          break;
        }
        HoldsRight(mc[..], pages, pindex, max, lc, rc);
        mc[base + count] := p;
        ps := p;
        count := count + 1;
        next := next + 1;
        rc := rc + 1;
      }
      RightEdge(pages, size, pindex, rc);
      assert count == max || rc == right;
      first := false;
      more := ib != 0 && count < max;
    }
    Sizes(left, right, pindex, max, lc, rc);
    flushed := mc[base..base + count];
    assert flushed == mc[..][max - lc..max + rc + 1];
    Flushed(mc[..], pages, size, pindex, max, lc, rc);
    ClusterIsGood(flushed, pages, size, pindex, max);
  }

  /** While the first backward scan runs, it stands on a boundary just when it has come to the first one. */
  lemma FirstScanEdge(p: nat, m: nat, k: nat)
    requires 1 <= k < m && k <= p && k <= ToBoundary(p, m)
    ensures AtBoundary(p - k, m) <==> k == ToBoundary(p, m)
  {
    BoundaryDistance(p, m, k);
  }

  lemma Sizes(left: nat, right: nat, pindex: nat, max: nat, lc: nat, rc: nat)
    requires max > 0 && lc <= left && rc <= right && lc + 1 + rc <= max
    requires rc == Min(right, max - 1 - FirstLeft(left, pindex, max))
    requires lc == left || lc + 1 + rc == max
    ensures rc == Forward(left, right, pindex, max) && lc == Backward(left, right, pindex, max)
  {
  }

  lemma Flushed(mc: seq<Page>, pages: Resident, size: nat, pindex: nat, max: nat, lc: nat, rc: nat)
    requires Holds(mc, pages, pindex, max, lc, rc)
    requires lc <= LeftRun(pages, pindex) && rc <= RightRun(pages, size, pindex) && max > 0
    requires rc == Forward(LeftRun(pages, pindex), RightRun(pages, size, pindex), pindex, max)
    requires lc == Backward(LeftRun(pages, pindex), RightRun(pages, size, pindex), pindex, max)
    ensures IsCluster(mc[max - lc..max + rc + 1], pages, size, pindex, max)
  {
    hide Forward, Backward, LeftRun, RightRun, Holds, ClusterAt, Eligible;
    assert |mc| == 2 * max && lc + 1 + rc <= max by { HoldsSize(mc, pages, pindex, max, lc, rc); }
    var s := mc[max - lc..max + rc + 1];
    forall i | 0 <= i < |s|
      ensures ClusterAt(s, pages, pindex, lc, i)
    {
      FlushedAt(mc, pages, size, pindex, max, lc, rc, i);
    }
  }

  lemma HoldsSize(mc: seq<Page>, pages: Resident, pindex: nat, max: nat, lc: nat, rc: nat)
    requires Holds(mc, pages, pindex, max, lc, rc)
    ensures |mc| == 2 * max && lc + 1 + rc <= max
  {
  }

  lemma FlushedAt(mc: seq<Page>, pages: Resident, size: nat, pindex: nat, max: nat, lc: nat, rc: nat, i: nat)
    requires Holds(mc, pages, pindex, max, lc, rc) && i < lc + 1 + rc
    requires lc <= LeftRun(pages, pindex) && rc <= RightRun(pages, size, pindex)
    ensures |mc| == 2 * max && lc + 1 + rc <= max
    ensures ClusterAt(mc[max - lc..max + rc + 1], pages, pindex, lc, i)
  {
    assert HoldsAt(mc, pages, pindex, max, max - lc + i);
    LeftRunPages(pages, pindex, lc);
    RightRunPages(pages, size, pindex, rc);
    hide LeftRun, RightRun, Eligible;
  }
}
