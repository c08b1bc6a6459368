// Finite sums over an index range.
module Sums {
  function SumTo(f: nat -> int, n: nat): int {
    if n == 0 then 0 else SumTo(f, n - 1) + f(n - 1)
  }

  lemma {:induction false} SumSame(f: nat -> int, g: nat -> int, n: nat)
    requires forall k :: 0 <= k < n ==> f(k) == g(k)
    ensures SumTo(f, n) == SumTo(g, n)
  {
    if n > 0 {
      SumSame(f, g, n - 1);
    }
  }

  // Two families that differ at one index.
  lemma {:induction false} SumChange(f: nat -> int, g: nat -> int, n: nat, j: nat)
    requires j < n && forall k :: 0 <= k < n && k != j ==> f(k) == g(k)
    ensures SumTo(g, n) == SumTo(f, n) - f(j) + g(j)
  {
    if j == n - 1 {
      SumSame(f, g, n - 1);
    } else {
      SumChange(f, g, n - 1, j);
    }
  }

  lemma {:induction false} SumZero(f: nat -> int, n: nat)
    requires forall k :: 0 <= k < n ==> f(k) == 0
    ensures SumTo(f, n) == 0
  {
    if n > 0 {
      SumZero(f, n - 1);
    }
  }

  // A sum of non-negative terms is at least any one of them.
  lemma {:induction false} SumAtLeast(f: nat -> int, n: nat, j: nat)
    requires j < n && forall k :: 0 <= k < n ==> f(k) >= 0
    ensures SumTo(f, n) >= f(j)
  {
    if j == n - 1 {
      SumNonNegative(f, n - 1);
    } else {
      SumAtLeast(f, n - 1, j);
    }
  }

  lemma {:induction false} SumNonNegative(f: nat -> int, n: nat)
    requires forall k :: 0 <= k < n ==> f(k) >= 0
    ensures SumTo(f, n) >= 0
  {
    if n > 0 {
      SumNonNegative(f, n - 1);
    }
  }

  lemma {:induction false} SumAdd(f: nat -> int, g: nat -> int, h: nat -> int, n: nat)
    requires forall k :: 0 <= k < n ==> h(k) == f(k) + g(k)
    ensures SumTo(h, n) == SumTo(f, n) + SumTo(g, n)
  {
    if n > 0 {
      SumAdd(f, g, h, n - 1);
    }
  }

  lemma {:induction false} SumAtMost(f: nat -> int, g: nat -> int, n: nat)
    requires forall k :: 0 <= k < n ==> f(k) <= g(k)
    ensures SumTo(f, n) <= SumTo(g, n)
  {
    if n > 0 {
      SumAtMost(f, g, n - 1);
    }
  }

  // A sum of non-negative terms grows with its range.
  lemma {:induction false} SumGrows(f: nat -> int, m: nat, n: nat)
    requires m <= n && forall k :: 0 <= k < n ==> f(k) >= 0
    ensures SumTo(f, m) <= SumTo(f, n)
  {
    if m < n {
      SumGrows(f, m, n - 1);
    }
  }

  // A family that is zero but for one index.
  function Spot(i: nat, v: int): nat -> int {
    (k: nat) => if k == i then v else 0
  }

  lemma {:induction false} SumSpot(i: nat, v: int, n: nat)
    ensures SumTo(Spot(i, v), n) == if i < n then v else 0
  {
    if n > 0 {
      SumSpot(i, v, n - 1);
    }
  }

  lemma SumTwo(f: nat -> int, n: nat)
    ensures SumTo(f, n + 2) == SumTo(f, n) + f(n) + f(n + 1)
  {
    assert SumTo(f, n + 1) == SumTo(f, n) + f(n);
  }
}
