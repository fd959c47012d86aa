/**
  The page daemon's integer square root (asgn3/vm_pageout.c:909-928).

  The 32-bit unsigned type makes every sum below a checked one: the proof that
  the method verifies is also the proof that `root + bit` never wraps around.
 */
module Isqrt {
  import opened Bits

  newtype u32 = x: int | 0 <= x < 0x1_0000_0000

  /** The trial bit once k binary digits of the root are still to be decided. */
  function TrialBit(k: nat): (b: int) {
    if k == 0 then 0 else P(k - 1) * P(k - 1)
  }

  lemma {:induction false} TrialBitQuarter(k: nat)
    requires 0 < k
    ensures TrialBit(k) / 4 == TrialBit(k - 1)
    ensures 4 * TrialBit(k) == P(k) * P(k)
  {
    if k > 1 {
      var q := P(k - 2);
      assert P(k - 1) == 2 * q;
      assert P(k - 1) * P(k - 1) == 4 * (q * q);
    }
    assert P(k) * P(k) == 4 * (P(k - 1) * P(k - 1));
  }

  /** One digit decided: `s` is the root found so far, `q` the digit on trial. */
  lemma DigitStep(n: int, num: int, root: int, s: int, q: int)
    requires 0 <= s && 0 < q && root == s * (2 * q) && num == n - s * s
    requires n < (s + 2 * q) * (s + 2 * q)
    ensures root >= 0 && root / 2 == s * q
    ensures root + q * q == (s + q) * (s + q) - s * s
    ensures num >= root + q * q ==>
      num - (root + q * q) == n - (s + q) * (s + q) && root / 2 + q * q == (s + q) * q
    ensures num < root + q * q ==> n < (s + q) * (s + q)
    ensures n < ((s + q) + q) * ((s + q) + q)
  {
    assert s * (2 * q) == 2 * (s * q) && 0 <= s * q;
    assert (s + q) * (s + q) == s * s + 2 * (s * q) + q * q;
    assert (s + q) * q == s * q + q * q;
    assert (s + q) + q == s + 2 * q;
  }

  lemma SquareMonotone(a: int, b: int)
    requires 0 <= a <= b
    ensures a * a <= b * b
  {
    assert a * a <= a * b;
    assert a * b <= b * b;
  }

  /** The returned root is the only one: the contract of IntegerSqrt decides its result. */
  lemma RootUnique(n: int, r: int, r': int)
    requires 0 <= r && 0 <= r'
    requires r * r <= n < (r + 1) * (r + 1)
    requires r' * r' <= n < (r' + 1) * (r' + 1)
    ensures r == r'
  {
    if r < r' {
      SquareMonotone(r + 1, r');
    } else if r' < r {
      SquareMonotone(r' + 1, r);
    }
  }

  /**
    The loop invariant with `k` digits left: `s` is the root so far, a multiple
    of 2^k as far as the loop can tell, and `root` holds s * 2^k.
   */
  predicate RootInv(n: int, num: int, root: int, bit: int, s: int, k: nat) {
    && k <= 16 && 0 <= s && bit == TrialBit(k)
    && s + P(k) <= 65536
    && root == s * P(k)
    && num == n - s * s && 0 <= num
    && n < (s + P(k)) * (s + P(k))
  }

  /** One iteration: the sum on trial fits in 32 bits, and either outcome keeps the invariant. */
  lemma RootStep(n: int, num: int, root: int, bit: int, s: int, k: nat)
    requires RootInv(n, num, root, bit, s, k) && 0 < k
    ensures 0 <= root + bit < 0x1_0000_0000
    ensures if num >= root + bit
            then RootInv(n, num - (root + bit), root / 2 + bit, bit / 4, s + P(k - 1), k - 1)
            else RootInv(n, num, root / 2, bit / 4, s, k - 1)
  {
    var q := P(k - 1);
    assert P(k) == 2 * q && bit == q * q;
    TrialBitQuarter(k);
    hide P, TrialBit;
    assert root == s * (2 * q);
    DigitStep(n, num, root, s, q);
    SquareMonotone(s + q, 65535);
    SquareMonotone(0, s);
  }

  lemma RootStart(n: int, bit: int, k: nat)
    requires 0 <= n < P(k) * P(k) && k <= 16 && bit == TrialBit(k)
    ensures RootInv(n, n, 0, bit, 0, k)
  {
    PMonotone(k, 16);
    PowerSixteen();
    hide P, TrialBit;
    var p := P(k);
    assert n < p * p && (0 + p) * (0 + p) == p * p && 0 * p == 0;
  }

  lemma PowerSixteen()
    ensures P(16) == 65536
  {
    assert P(4) == 16 && P(8) == 256 && P(12) == 4096;
  }

  method IntegerSqrt(n: u32) returns (root: u32)
    ensures root as int * root as int <= n as int < (root as int + 1) * (root as int + 1)
  {
    var num := n;
    var bit: u32 := 0x4000_0000;
    ghost var k: nat := 16;
    assert P(15) == 0x8000;
    while bit > num
      invariant 0 <= k <= 16
      invariant bit as int == TrialBit(k)
      invariant num as int < P(k) * P(k)
    {
      TrialBitQuarter(k);
      if k > 1 {
        TrialBitQuarter(k - 1);
      }
      bit := bit / 4;
      k := k - 1;
    }
    root := 0;
    ghost var s := 0;
    RootStart(n as int, bit as int, k);
    while bit != 0
      invariant RootInv(n as int, num as int, root as int, bit as int, s, k)
      decreases k
    {
      assert k > 0;
      hide RootInv, TrialBit;
      RootStep(n as int, num as int, root as int, bit as int, s, k);
      var tmp := root + bit;
      root := root / 2;
      if num >= tmp {
        num := num - tmp;
        assert root as int + bit as int < 0x1_0000_0000;
        root := root + bit;
        s := s + P(k - 1);
      }
      bit := bit / 4;
      k := k - 1;
    }
    LastDigit(n as int, num as int, root as int, s, k);
  }

  lemma LastDigit(n: int, num: int, root: int, s: int, k: nat)
    requires RootInv(n, num, root, 0, s, k)
    ensures root * root <= n < (root + 1) * (root + 1)
  {
    assert k == 0;
  }
}
