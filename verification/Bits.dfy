/**
  Bitwise operations on unsigned machine words, as functions on natural numbers,
  and what the kernel's power-of-two macros (rounddown2, roundup2 and masking with
  a power of two less one) compute.
 */
module Bits {
  import opened Arith

  /** 2 to the power k. */
  function P(k: nat): (p: nat)
    ensures p >= 1
  {
    if k == 0 then 1 else 2 * P(k - 1)
  }

  function And(a: nat, b: nat): nat
    decreases a
  {
    if a == 0 then 0 else 2 * And(a / 2, b / 2) + (a % 2) * (b % 2)
  }

  function Xor(a: nat, b: nat): nat
    decreases a + b
  {
    if a == 0 && b == 0 then 0
    else 2 * Xor(a / 2, b / 2) + (if a % 2 == b % 2 then 0 else 1)
  }

  const WORD: nat := 64

  function Not(a: nat): int { P(WORD) - 1 - a }

  /** y - 1 in unsigned arithmetic: all ones when y is 0. */
  function Pred(y: nat): nat { if y == 0 then P(WORD) - 1 else y - 1 }

  /** rounddown2(x, y): x & ~(y - 1) */
  function RoundDown2(x: nat, y: nat): nat
    requires y <= P(WORD)
  {
    And(x, Not(Pred(y)))
  }

  /** roundup2(x, y): (x + (y - 1)) & ~(y - 1) */
  function RoundUp2(x: nat, y: nat): nat
    requires y <= P(WORD)
  {
    And(x + Pred(y), Not(Pred(y)))
  }

  lemma {:induction false} PMonotone(j: nat, k: nat)
    requires j <= k
    ensures P(j) <= P(k)
  {
    if j < k {
      PMonotone(j, k - 1);
    }
  }

  /** Named, so that a proof can use their laws without the solver's own theory of division. */
  function Mod(x: nat, m: nat): nat
    requires m > 0
  {
    x % m
  }

  function Div(x: nat, m: nat): nat
    requires m > 0
  {
    x / m
  }

  /** Halving x and the modulus: a step of all the inductions below. */
  lemma Halve(x: nat, p: nat)
    requires p >= 1
    ensures Mod(x, 2 * p) == 2 * Mod(x / 2, p) + x % 2
    ensures Div(x, 2 * p) == Div(x / 2, p)
  {
    var h := x / 2;
    var q, r := h / p, h % p;
    assert h == q * p + r;
    assert x == q * (2 * p) + (2 * r + x % 2) by {
      assert q * (2 * p) == 2 * (q * p);
    }
    DivModUnique(x, 2 * p, q, 2 * r + x % 2);
  }

  lemma DivModUnique(x: nat, m: nat, q: int, r: int)
    requires 0 <= r < m && x == q * m + r
    ensures Div(x, m) == q && Mod(x, m) == r
  {
    var q', r' := x / m, x % m;
    assert x == q' * m + r' && 0 <= r' < m;
    assert (q - q') * m == q * m - q' * m;
    assert (q' - q) * m == q' * m - q * m;
    if q > q' {
      MulAtLeast(q - q', m);
    } else if q < q' {
      MulAtLeast(q' - q, m);
    }
  }

  lemma PDouble(k: nat)
    requires k > 0
    ensures P(k) == 2 * P(k - 1)
  {
  }

  /** Masking works digit by digit. */
  lemma AndDigit(x: nat, b: nat, c: nat, d: nat)
    requires b == 2 * c + d && d < 2
    ensures And(x, b) == 2 * And(x / 2, c) + (x % 2) * d
  {
    assert b / 2 == c && b % 2 == d;
  }

  /** x & (2^k - 1) is x mod 2^k. */
  lemma {:induction false} AndLowMask(x: nat, k: nat)
    ensures And(x, P(k) - 1) == Mod(x, P(k))
    decreases x, k, 1
  {
    if k == 0 {
      AndZero(x);
      DivModUnique(x, 1, x, 0);
    } else {
      PDouble(k);
      hide P, And, Mod, Div;
      LowMaskStep(x, k);
    }
  }

  lemma {:induction false} LowMaskStep(x: nat, k: nat)
    requires k > 0
    ensures And(x, 2 * P(k - 1) - 1) == Mod(x, 2 * P(k - 1))
    decreases x, k, 0
  {
    hide P, And, Mod, Div;
    AndLowMask(x / 2, k - 1);
    AndDigit(x, 2 * P(k - 1) - 1, P(k - 1) - 1, 1);
    Halve(x, P(k - 1));
  }

  lemma {:induction false} AndZero(x: nat)
    ensures And(x, 0) == 0
  {
    if x > 0 {
      AndZero(x / 2);
    }
  }

  lemma HighMaskStep(x: nat, p: nat, v: nat)
    requires 1 <= p <= v && And(x / 2, v - p) == x / 2 - Mod(x / 2, p)
    ensures And(x, 2 * v - 2 * p) == x - Mod(x, 2 * p)
  {
    AndDigit(x, 2 * v - 2 * p, v - p, 0);
    hide And, Mod, Div;
    Halve(x, p);
  }

  /** x & (2^w - 2^k) clears the low k bits of a w-bit number. */
  lemma {:induction false} AndHighMask(x: nat, k: nat, w: nat)
    requires k <= w && x < P(w)
    ensures P(k) <= P(w)
    ensures And(x, P(w) - P(k)) == x - Mod(x, P(k))
    decreases w
  {
    hide P, And, Mod, Div;
    PMonotone(k, w);
    if k == 0 {
      AndAllOnes(x, w);
    } else {
      PDouble(k);
      PDouble(w);
      PMonotone(k - 1, w - 1);
      AndHighMask(x / 2, k - 1, w - 1);
      HighMaskStep(x, P(k - 1), P(w - 1));
    }
  }

  lemma AndAllOnes(x: nat, w: nat)
    requires x < P(w)
    ensures P(0) == 1 && And(x, P(w) - P(0)) == x && Mod(x, P(0)) == 0
  {
    hide And, Mod, Div;
    assert P(0) == 1;
    AndLowMask(x, w);
    DivModUnique(x, P(w), 0, x);
    DivModUnique(x, 1, x, 0);
  }

  /** rounddown2 to a power of two. */
  lemma RoundDown2Power(x: nat, k: nat)
    requires k <= WORD && x < P(WORD)
    ensures P(k) <= P(WORD) && RoundDown2(x, P(k)) == x - Mod(x, P(k))
  {
    hide P, And;
    AndHighMask(x, k, WORD);
    assert Not(Pred(P(k))) == P(WORD) - P(k);
  }

  /** rounddown2 to 0 is 0, so a zero boundary never fails a test. */
  lemma RoundDown2Zero(x: nat)
    ensures RoundDown2(x, 0) == 0
  {
    AndZero(x);
  }

  /** roundup2 to a power of two is the least multiple that is not below x. */
  lemma RoundUp2Power(x: nat, k: nat)
    requires k <= WORD && x + P(k) - 1 < P(WORD)
    ensures P(k) <= P(WORD)
    ensures x <= RoundUp2(x, P(k)) < x + P(k)
    ensures Mod(RoundUp2(x, P(k)), P(k)) == 0
  {
    hide P, And;
    var p, y := P(k), x + P(k) - 1;
    AndHighMask(y, k, WORD);
    assert Not(Pred(p)) == P(WORD) - p;
    LowestDigits(y, p);
    var r := y - Mod(y, p);
    assert RoundUp2(x, p) == r;
  }

  lemma LowestDigits(y: nat, p: nat)
    requires p >= 1
    ensures Mod(y, p) < p && Mod(y, p) <= y && Mod(y - Mod(y, p), p) == 0
  {
    assert y - y % p == (y / p) * p;
    DivModUnique(y - y % p, p, y / p, 0);
  }

  lemma {:induction false} XorZero(a: nat, b: nat)
    ensures Xor(a, b) == 0 <==> a == b
    decreases a + b
  {
    if a != 0 || b != 0 {
      XorZero(a / 2, b / 2);
    }
  }

  lemma XorDigit(a: nat, b: nat)
    ensures Xor(a, b) == 2 * Xor(a / 2, b / 2) + (if a % 2 == b % 2 then 0 else 1)
  {
  }

  lemma {:induction false} XorSmall(a: nat, b: nat, k: nat)
    ensures Xor(a, b) < P(k) <==> Div(a, P(k)) == Div(b, P(k))
    decreases k
  {
    if k == 0 {
      XorZero(a, b);
    } else {
      XorSmall(a / 2, b / 2, k - 1);
      PDouble(k);
      XorDigit(a, b);
      hide P, Xor, Mod, Div;
      var p := P(k - 1);
      Halve(a, p);
      Halve(b, p);
    }
  }

  lemma {:induction false} XorBound(a: nat, b: nat, w: nat)
    requires a < P(w) && b < P(w)
    ensures Xor(a, b) < P(w)
    decreases w
  {
    if w > 0 && (a != 0 || b != 0) {
      XorBound(a / 2, b / 2, w - 1);
    }
  }

  /**
    The kernel's test that two addresses lie in the same block of 2^k bytes:
    their exclusive or has no bit at or above position k.
   */
  lemma SameBlock(a: nat, b: nat, k: nat)
    requires k <= WORD && a < P(WORD) && b < P(WORD)
    ensures P(k) <= P(WORD)
    ensures RoundDown2(Xor(a, b), P(k)) == 0 <==> Div(a, P(k)) == Div(b, P(k))
  {
    hide P, And, Xor;
    XorBound(a, b, WORD);
    var x := Xor(a, b);
    RoundDown2Power(x, k);
    XorSmall(a, b, k);
    if x < P(k) {
      DivModUnique(x, P(k), 0, x);
    }
  }
}
