/** Index sets and remainders, shared by the byte-level protocols. */
module Indexing {

  ghost predicate AreIndices(r: set<nat>, n: nat) {
    && |r| == n
    && forall j: nat :: j in r <==> j < n
  }

  lemma IndicesExist(n: nat)
    ensures exists r :: AreIndices(r, n)
  {
    var r: set<nat> := {};
    for k := 0 to n
      invariant AreIndices(r, k)
    {
      r := r + {k};
    }
  }

  /** The indices below `n`: the pieces a copy of `n` pieces still has to do. */
  ghost function Indices(n: nat): (r: set<nat>)
    ensures |r| == n
    ensures forall j: nat :: j in r <==> j < n
  {
    IndicesExist(n);
    var r :| AreIndices(r, n);
    r
  }

  lemma OneLess(todo: set<nat>, j: nat)
    requires j in todo
    ensures |todo - {j}| == |todo| - 1
  {
  }

  lemma {:induction false} ProductsAreApart(n: nat, q: nat, q': nat)
    ensures q' < q ==> n * q >= n * q' + n
    decreases q
  {
    if q <= q' {
    } else {
      assert n * q == n * (q - 1) + n;
      ProductsAreApart(n, q - 1, q');
    }
  }

  lemma DivisionIsUnique(n: nat, q: nat, r: nat, q': nat, r': nat)
    requires r < n && r' < n && n * q + r == n * q' + r'
    ensures r == r'
  {
    ProductsAreApart(n, q, q');
    ProductsAreApart(n, q', q);
  }

  /** Stepping a remainder around the ring is the remainder of the next count. */
  lemma RemainderSteps(a: nat, n: nat)
    requires n >= 2
    ensures (a + 1) % n == if a % n + 1 == n then 0 else a % n + 1
  {
    var q, r := a / n, a % n;
    assert a == n * q + r;
    var b := a + 1;
    assert b == n * (b / n) + b % n;
    if r + 1 == n {
      assert n * (q + 1) == n * q + n;
      DivisionIsUnique(n, b / n, b % n, q + 1, 0);
    } else {
      DivisionIsUnique(n, b / n, b % n, q, r + 1);
    }
  }
}
