/** Tail queues as sequences: lists that hold no entry twice. */
module Lists {

  ghost predicate NoDup<T>(q: seq<T>) {
    forall i, j | 0 <= i < j < |q| :: q[i] != q[j]
  }

  /** TAILQ_REMOVE: the list without the (single) occurrence of x. */
  function Without<T(==)>(q: seq<T>, x: T): seq<T> {
    if q == [] then [] else if q[0] == x then q[1..] else [q[0]] + Without(q[1..], x)
  }

  lemma {:induction false} WithoutProps<T>(q: seq<T>, x: T)
    requires NoDup(q)
    ensures NoDup(Without(q, x)) && forall y :: y in Without(q, x) <==> y in q && y != x
  {
    if q != [] {
      WithoutProps(q[1..], x);
      assert q == [q[0]] + q[1..];
      assert forall y :: y in q <==> y == q[0] || y in q[1..];
      assert q[0] !in q[1..];
    }
  }

  lemma {:induction false} WithoutSplit<T>(a: seq<T>, x: T, b: seq<T>)
    requires x !in a
    ensures Without(a + [x] + b, x) == a + b
  {
    if a == [] {
      assert a + [x] + b == [x] + b && a + b == b;
    } else {
      assert (a + [x] + b)[1..] == a[1..] + [x] + b;
      assert (a + b)[1..] == a[1..] + b;
      WithoutSplit(a[1..], x, b);
    }
  }

  lemma {:induction false} WithoutAbsent<T>(q: seq<T>, x: T)
    requires x !in q
    ensures Without(q, x) == q
  {
    if q != [] {
      assert forall y | y in q[1..] :: y in q;
      WithoutAbsent(q[1..], x);
    }
  }

  /** Adding an entry at either end and removing it again restores the list. */
  lemma AddRemove<T>(q: seq<T>, x: T)
    requires x !in q
    ensures Without([x] + q, x) == q && Without(q + [x], x) == q
  {
    assert [] + [x] + q == [x] + q && [] + q == q;
    WithoutSplit([], x, q);
    assert q + [x] + [] == q + [x] && q + [] == q;
    WithoutSplit(q, x, []);
  }

  /** The place of an entry. */
  function IndexOf<T(==)>(q: seq<T>, x: T): (i: nat)
    requires x in q
    ensures i < |q| && q[i] == x
  {
    if q[0] == x then 0 else 1 + IndexOf(q[1..], x)
  }
}
