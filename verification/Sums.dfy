/** Finite sums in an abelian group.

    Functions that are summed are related pointwise (`h(i) == ...` on the range) rather than by writing
    one lambda inside another, so that a lemma applies to whichever function a caller has at hand. */
module Sums {
  import opened Algebra
  import opened Arith

  function Sum<T>(A: Group<T>, n: nat, f: int -> T): T {
    if n == 0 then A.zero else A.Plus(Sum(A, n - 1, f), f(n - 1))
  }

  lemma {:induction false} SumCong<T>(A: Group<T>, n: nat, f: int -> T, g: int -> T)
    requires forall i | 0 <= i < n :: f(i) == g(i)
    ensures Sum(A, n, f) == Sum(A, n, g)
  {
    if n > 0 {
      SumCong(A, n - 1, f, g);
    }
  }

  lemma {:induction false} SumZero<T(!new)>(A: Group<T>, n: nat, f: int -> T)
    requires IsGroup(A)
    requires forall i | 0 <= i < n :: f(i) == A.zero
    ensures Sum(A, n, f) == A.zero
  {
    if n > 0 {
      SumZero(A, n - 1, f);
      PlusZero(A, A.zero);
    }
  }

  lemma {:induction false} SumPlus<T(!new)>(A: Group<T>, n: nat, f: int -> T, g: int -> T, h: int -> T)
    requires IsGroup(A)
    requires forall i | 0 <= i < n :: h(i) == A.Plus(f(i), g(i))
    ensures Sum(A, n, h) == A.Plus(Sum(A, n, f), Sum(A, n, g))
  {
    if n == 0 {
      PlusZero(A, A.zero);
    } else {
      SumPlus(A, n - 1, f, g, h);
      PlusSwap4(A, Sum(A, n - 1, f), Sum(A, n - 1, g), f(n - 1), g(n - 1));
    }
  }

  lemma {:induction false} SumConcat<T(!new)>(A: Group<T>, m: nat, n: nat, f: int -> T, g: int -> T)
    requires IsGroup(A)
    requires forall i | 0 <= i < n :: g(i) == f(m + i)
    ensures Sum(A, m + n, f) == A.Plus(Sum(A, m, f), Sum(A, n, g))
  {
    if n == 0 {
      PlusZero(A, Sum(A, m, f));
    } else {
      SumConcat(A, m, n - 1, f, g);
      PlusAssoc(A, Sum(A, m, f), Sum(A, n - 1, g), g(n - 1));
    }
  }

  lemma {:induction false} SumEvenOdd<T(!new)>(A: Group<T>, n: nat, f: int -> T, even: int -> T, odd: int -> T)
    requires IsGroup(A)
    requires forall i | 0 <= i < n :: even(i) == f(2 * i) && odd(i) == f(2 * i + 1)
    ensures Sum(A, 2 * n, f) == A.Plus(Sum(A, n, even), Sum(A, n, odd))
  {
    if n == 0 {
      PlusZero(A, A.zero);
    } else {
      SumEvenOdd(A, n - 1, f, even, odd);
      var a, b, x, y := Sum(A, n - 1, even), Sum(A, n - 1, odd), even(n - 1), odd(n - 1);
      assert Sum(A, 2 * n - 1, f) == A.Plus(Sum(A, 2 * (n - 1), f), f(2 * (n - 1)));
      PlusAssoc(A, A.Plus(a, b), x, y);
      PlusSwap4(A, a, b, x, y);
    }
  }

  /** A sum with one non-zero term. */
  lemma {:induction false} SumSingle<T(!new)>(A: Group<T>, n: nat, f: int -> T, k: nat)
    requires IsGroup(A)
    requires k < n
    requires forall i | 0 <= i < n && i != k :: f(i) == A.zero
    ensures Sum(A, n, f) == f(k)
  {
    if k == n - 1 {
      SumZero(A, n - 1, f);
    } else {
      SumSingle(A, n - 1, f, k);
    }
    PlusZero(A, f(k));
  }

  /** The order of a double sum does not matter. */
  lemma {:induction false} SumSwap<T(!new)>(
      A: Group<T>, m: nat, n: nat, F: (int, int) -> T, rows: int -> T, columns: int -> T)
    requires IsGroup(A)
    requires forall i | 0 <= i < m :: rows(i) == Sum(A, n, j => F(i, j))
    requires forall j | 0 <= j < n :: columns(j) == Sum(A, m, i => F(i, j))
    ensures Sum(A, m, rows) == Sum(A, n, columns)
  {
    if m == 0 {
      SumZero(A, n, columns);
    } else {
      var shorter: int -> T := j => Sum(A, m - 1, i => F(i, j));
      SumSwap(A, m - 1, n, F, rows, shorter);
      var last: int -> T := j => F(m - 1, j);
      forall j | 0 <= j < n
        ensures columns(j) == A.Plus(shorter(j), last(j))
      {
        var column: int -> T := i => F(i, j);
        assert columns(j) == Sum(A, m, column);
        assert column(m - 1) == last(j);
      }
      SumPlus(A, n, shorter, last, columns);
      SumCong(A, n, last, j => F(m - 1, j));
    }
  }

  lemma {:induction false} LastRow<T(!new)>(
      A: Group<T>, m: nat, k: nat, n: nat, start: nat, end: nat, f: int -> T, rows: int -> T)
    requires IsGroup(A) && m == k + 1 && start == k * n && end == start + n
    requires rows(k) == Sum(A, n, j => f(k * n + j)) && Sum(A, start, f) == Sum(A, k, rows)
    ensures Sum(A, end, f) == Sum(A, m, rows)
  {
    var last: int -> T := j => f(start + j);
    SumConcat(A, start, n, f, last);
    SumCong(A, n, last, j => f(k * n + j));
  }

  /** A sum over an interval, cut into `m` rows of `n` terms. */
  lemma {:induction false} SumRows<T(!new)>(A: Group<T>, m: nat, n: nat, f: int -> T, rows: int -> T)
    requires IsGroup(A)
    requires forall i | 0 <= i < m :: rows(i) == Sum(A, n, j => f(i * n + j))
    ensures Sum(A, m * n, f) == Sum(A, m, rows)
  {
    if m == 0 {
      assert m * n == 0;
    } else {
      SumRows(A, m - 1, n, f, rows);
      NatProduct(m - 1, n);
      assert (m - 1) * n + n == m * n;
      LastRow(A, m, m - 1, n, (m - 1) * n, m * n, f, rows);
    }
  }

  /** Terms may be summed in any order: `p` and `q` are inverse permutations of the index range. */
  lemma {:induction false} SumReindex<T(!new)>(
      A: Group<T>, n: nat, f: int -> T, g: int -> T, p: int -> int, q: int -> int)
    requires IsGroup(A)
    requires forall i | 0 <= i < n :: 0 <= p(i) < n && q(p(i)) == i && g(i) == f(p(i))
    requires forall j | 0 <= j < n :: 0 <= q(j) < n && p(q(j)) == j
    ensures Sum(A, n, g) == Sum(A, n, f)
  {
    var F: (int, int) -> T := (i, j) => if p(i) == j then f(j) else A.zero;
    forall i | 0 <= i < n
      ensures g(i) == Sum(A, n, j => F(i, j))
    {
      SumSingle(A, n, j => F(i, j), p(i));
    }
    forall j | 0 <= j < n
      ensures f(j) == Sum(A, n, i => F(i, j))
    {
      SumSingle(A, n, i => F(i, j), q(j));
    }
    SumSwap(A, n, n, F, g, f);
  }

  // ----- sums and scaling -----

  lemma {:induction false} ScaleOfSum<S(!new), G(!new)>(V: Space<S, G>, s: S, n: nat, f: int -> G, h: int -> G)
    requires IsSpace(V)
    requires forall i | 0 <= i < n :: h(i) == V.Scale(s, f(i))
    ensures V.Scale(s, Sum(V.group, n, f)) == Sum(V.group, n, h)
  {
    if n == 0 {
      ScaleZero(V, s, V.group.zero);
    } else {
      ScaleOfSum(V, s, n - 1, f, h);
      ScalePlus(V, s, Sum(V.group, n - 1, f), f(n - 1));
    }
  }

  lemma {:induction false} SumOfScalars<S(!new), G(!new)>(V: Space<S, G>, n: nat, f: int -> S, x: G, h: int -> G)
    requires IsSpace(V)
    requires forall i | 0 <= i < n :: h(i) == V.Scale(f(i), x)
    ensures V.Scale(Sum(V.ring.additive, n, f), x) == Sum(V.group, n, h)
  {
    if n == 0 {
      ScaleZero(V, V.ring.one, x);
    } else {
      SumOfScalars(V, n - 1, f, x, h);
      ScaleSum(V, Sum(V.ring.additive, n - 1, f), f(n - 1), x);
    }
  }

  lemma {:induction false} SumOfOnes<T>(R: Ring<T>, n: nat, f: int -> T)
    requires forall i | 0 <= i < n :: f(i) == R.one
    ensures Sum(R.additive, n, f) == OfNat(R, n)
  {
    if n > 0 {
      SumOfOnes(R, n - 1, f);
    }
  }
}
