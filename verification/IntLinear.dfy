/** Linear layers with integer coefficients, and their inverses by adjugate matrices. */
module IntLinear {
  import opened Algebra

  /** The image of an integer. */
  function OfInt<T>(R: Ring<T>, k: int): T {
    if k >= 0 then OfNat(R, k) else R.Neg(OfNat(R, -k))
  }

  lemma {:induction false} OfIntNext<T(!new)>(R: Ring<T>, k: int)
    requires IsRing(R)
    ensures OfInt(R, k + 1) == R.Plus(OfInt(R, k), R.one)
  {
    if k < 0 {
      // -(m + 1) + 1 = -m
      var m, A := -k - 1, R.additive;
      var x := OfNat(R, m);
      assert OfNat(R, -k) == R.Plus(x, R.one);
      NegSum(A, x, R.one);
      PlusAssoc(A, R.Neg(x), R.Neg(R.one), R.one);
      PlusComm(A, R.Neg(R.one), R.one);
      PlusNeg(A, R.one);
      PlusZero(A, R.Neg(x));
      if m == 0 { NegZero(A); }
    }
  }

  lemma {:induction false} NegZero<T(!new)>(A: Group<T>)
    requires IsGroup(A)
    ensures A.Neg(A.zero) == A.zero
  {
    PlusZero(A, A.zero);
    NegUnique(A, A.zero, A.zero);
  }

  lemma {:induction false} NegSum<T(!new)>(A: Group<T>, a: T, b: T)
    requires IsGroup(A)
    ensures A.Neg(A.Plus(a, b)) == A.Plus(A.Neg(a), A.Neg(b))
  {
    PlusSwap4(A, a, b, A.Neg(a), A.Neg(b));
    PlusNeg(A, a);
    PlusNeg(A, b);
    PlusZero(A, A.zero);
    NegUnique(A, A.Plus(a, b), A.Plus(A.Neg(a), A.Neg(b)));
  }

  lemma {:induction false} OfIntAdd<T(!new)>(R: Ring<T>, j: int, k: int)
    requires IsRing(R)
    ensures OfInt(R, j + k) == R.Plus(OfInt(R, j), OfInt(R, k))
    decreases if k < 0 then -k else k
  {
    var A := R.additive;
    if k == 0 {
      PlusZero(A, OfInt(R, j));
    } else if k > 0 {
      OfIntAdd(R, j, k - 1);
      OfIntNext(R, j + k - 1);
      OfIntNext(R, k - 1);
      PlusAssoc(A, OfInt(R, j), OfInt(R, k - 1), R.one);
    } else {
      OfIntAdd(R, j, k + 1);
      OfIntNext(R, j + k);
      OfIntNext(R, k);
      PlusAssoc(A, OfInt(R, j), OfInt(R, k), R.one);
      PlusCancel(A, OfInt(R, j + k), R.Plus(OfInt(R, j), OfInt(R, k)), R.one);
    }
  }

  lemma {:induction false} OfIntMul<T(!new)>(R: Ring<T>, j: int, k: int)
    requires IsRing(R)
    ensures OfInt(R, j * k) == R.Mul(OfInt(R, j), OfInt(R, k))
    decreases if k < 0 then -k else k
  {
    var x := OfInt(R, j);
    if k == 0 {
      MulZero(R, x);
      assert j * k == 0;
    } else if k > 0 {
      OfIntMul(R, j, k - 1);
      OfIntNext(R, k - 1);
      Distrib(R, x, OfInt(R, k - 1), R.one);
      OneMul(R, x);
      OfIntAdd(R, j * (k - 1), j);
      assert j * k == j * (k - 1) + j;
    } else {
      OfIntMul(R, j, k + 1);
      OfIntNext(R, k);
      Distrib(R, x, OfInt(R, k), R.one);
      OneMul(R, x);
      OfIntAdd(R, j * k, j);
      assert j * (k + 1) == j * k + j;
      PlusCancel(R.additive, OfInt(R, j * k), R.Mul(x, OfInt(R, k)), x);
    }
  }

  // ---- integer combinations ----

  function IntDot<T>(R: Ring<T>, c: seq<int>, s: seq<T>, n: nat): T
    requires n <= |c| && n <= |s|
  {
    if n == 0 then R.Zero() else R.Plus(IntDot(R, c, s, n - 1), R.Mul(OfInt(R, c[n - 1]), s[n - 1]))
  }

  lemma {:induction false} IntDotAdd<T(!new)>(R: Ring<T>, c: seq<int>, d: seq<int>, e: seq<int>, s: seq<T>, n: nat)
    requires IsRing(R) && n <= |c| && n <= |d| && n <= |e| && n <= |s|
    requires forall j :: 0 <= j < n ==> e[j] == c[j] + d[j]
    ensures IntDot(R, e, s, n) == R.Plus(IntDot(R, c, s, n), IntDot(R, d, s, n))
  {
    if n == 0 {
      PlusZero(R.additive, R.Zero());
    } else {
      var m := n - 1;
      IntDotAdd(R, c, d, e, s, m);
      var x, y, z := OfInt(R, c[m]), OfInt(R, d[m]), s[m];
      OfIntAdd(R, c[m], d[m]);
      Distrib(R, z, x, y);
      MulComm(R, z, x);
      MulComm(R, z, y);
      MulComm(R, z, R.Plus(x, y));
      PlusSwap4(R.additive, IntDot(R, c, s, m), IntDot(R, d, s, m), R.Mul(x, z), R.Mul(y, z));
    }
  }

  lemma {:induction false} IntDotScale<T(!new)>(R: Ring<T>, k: int, c: seq<int>, d: seq<int>, s: seq<T>, n: nat)
    requires IsRing(R) && n <= |c| && n <= |d| && n <= |s|
    requires forall j :: 0 <= j < n ==> d[j] == k * c[j]
    ensures IntDot(R, d, s, n) == R.Mul(OfInt(R, k), IntDot(R, c, s, n))
  {
    var f := OfInt(R, k);
    if n == 0 {
      MulZero(R, f);
    } else {
      var m := n - 1;
      IntDotScale(R, k, c, d, s, m);
      OfIntMul(R, k, c[m]);
      MulAssoc(R, f, OfInt(R, c[m]), s[m]);
      Distrib(R, f, IntDot(R, c, s, m), R.Mul(OfInt(R, c[m]), s[m]));
    }
  }

  /** Scaling the vector instead of the coefficients. */
  lemma {:induction false} IntDotVector<T(!new)>(R: Ring<T>, c: seq<int>, s: seq<T>, t: seq<T>, u: T, n: nat)
    requires IsRing(R) && n <= |c| && n <= |s| && n <= |t|
    requires forall j :: 0 <= j < n ==> t[j] == R.Mul(u, s[j])
    ensures IntDot(R, c, t, n) == R.Mul(u, IntDot(R, c, s, n))
  {
    if n == 0 {
      MulZero(R, u);
    } else {
      var m := n - 1;
      IntDotVector(R, c, s, t, u, m);
      var x := OfInt(R, c[m]);
      // x (u s) = u (x s)
      MulAssoc(R, x, u, s[m]);
      MulComm(R, x, u);
      MulAssoc(R, u, x, s[m]);
      Distrib(R, u, IntDot(R, c, s, m), R.Mul(x, s[m]));
    }
  }

  /** A combination with one coefficient that is not zero. */
  lemma {:induction false} IntDotUnit<T(!new)>(R: Ring<T>, c: seq<int>, s: seq<T>, i: nat, d: int, n: nat)
    requires IsRing(R) && n <= |c| && n <= |s| && i < |s|
    requires forall j :: 0 <= j < n ==> c[j] == if j == i then d else 0
    ensures IntDot(R, c, s, n) == if i < n then R.Mul(OfInt(R, d), s[i]) else R.Zero()
  {
    if n > 0 {
      var m := n - 1;
      IntDotUnit(R, c, s, i, d, m);
      var x := R.Mul(OfInt(R, d), s[i]);
      MulZero(R, s[m]);
      PlusZero(R.additive, x);
      PlusZero(R.additive, R.Zero());
      PlusComm(R.additive, R.Zero(), x);
    }
  }

  // ---- integer matrices ----

  ghost predicate IntSquare(M: seq<seq<int>>, w: nat) {
    |M| == w && forall i :: 0 <= i < w ==> |M[i]| == w
  }

  function IntMat<T>(R: Ring<T>, M: seq<seq<int>>, s: seq<T>): (t: seq<T>)
    requires IntSquare(M, |s|)
    ensures |t| == |s| && forall i :: 0 <= i < |s| ==> t[i] == IntDot(R, M[i], s, |s|)
  {
    seq(|s|, i requires 0 <= i < |s| => IntDot(R, M[i], s, |s|))
  }

  /** Entry j of the combination of the first n rows. */
  function Entry(c: seq<int>, M: seq<seq<int>>, j: nat, n: nat): int
    requires n <= |c| && n <= |M| && forall i :: 0 <= i < n ==> j < |M[i]|
  {
    if n == 0 then 0 else Entry(c, M, j, n - 1) + c[n - 1] * M[n - 1][j]
  }

  function RowTimes(c: seq<int>, M: seq<seq<int>>, n: nat, w: nat): (r: seq<int>)
    requires n <= |c| && n <= w && IntSquare(M, w)
    ensures |r| == w && forall j :: 0 <= j < w ==> r[j] == Entry(c, M, j, n)
  {
    seq(w, j requires 0 <= j < w => Entry(c, M, j, n))
  }

  lemma {:induction false} EntryNext(c: seq<int>, M: seq<seq<int>>, j: nat, m: nat, n: nat)
    requires n == m + 1 && n <= |c| && n <= |M| && forall i :: 0 <= i < n ==> j < |M[i]|
    ensures Entry(c, M, j, n) == Entry(c, M, j, m) + c[m] * M[m][j]
  {
  }

  /** One more row in a combination of rows. */
  lemma {:induction false} RowTimesNext<T(!new)>(
      R: Ring<T>, c: seq<int>, M: seq<seq<int>>, s: seq<T>, m: nat, n: nat, w: nat)
    requires IsRing(R) && w == |s| && IntSquare(M, w) && n == m + 1 && n <= |c| && n <= w
    ensures IntDot(R, RowTimes(c, M, n, w), s, w)
            == R.Plus(IntDot(R, RowTimes(c, M, m, w), s, w), R.Mul(OfInt(R, c[m]), IntDot(R, M[m], s, w)))
  {
    var scaled := seq(w, j requires 0 <= j < w => c[m] * M[m][j]);
    var before, after := RowTimes(c, M, m, w), RowTimes(c, M, n, w);
    forall j | 0 <= j < w ensures after[j] == before[j] + scaled[j] {
      EntryNext(c, M, j, m, n);
    }
    IntDotScale(R, c[m], M[m], scaled, s, w);
    IntDotAdd(R, before, scaled, after, s, w);
  }

  lemma {:induction false} Compose<T(!new)>(R: Ring<T>, c: seq<int>, M: seq<seq<int>>, s: seq<T>, n: nat, w: nat)
    requires IsRing(R) && w == |s| && IntSquare(M, w) && n <= |c| && n <= w
    ensures IntDot(R, c, IntMat(R, M, s), n) == IntDot(R, RowTimes(c, M, n, w), s, w)
  {
    if n == 0 {
      ZeroRow(R, RowTimes(c, M, 0, w), s, w);
    } else {
      Compose(R, c, M, s, n - 1, w);
      RowTimesNext(R, c, M, s, n - 1, n, w);
    }
  }

  lemma {:induction false} ZeroRow<T(!new)>(R: Ring<T>, c: seq<int>, s: seq<T>, n: nat)
    requires IsRing(R) && n <= |c| && n <= |s| && forall j :: 0 <= j < n ==> c[j] == 0
    ensures IntDot(R, c, s, n) == R.Zero()
  {
    if n > 0 {
      ZeroRow(R, c, s, n - 1);
      MulZero(R, s[n - 1]);
      PlusZero(R.additive, R.Zero());
    }
  }

  /** N times M is d times the identity. */
  ghost predicate Adjugate(N: seq<seq<int>>, M: seq<seq<int>>, w: nat, d: int) {
    && IntSquare(N, w) && IntSquare(M, w)
    && forall i: nat, j: nat :: i < w && j < w ==> Entry(N[i], M, j, w) == if j == i then d else 0
  }

  lemma {:induction false} AdjugateScales<T(!new)>(
      R: Ring<T>, N: seq<seq<int>>, M: seq<seq<int>>, s: seq<T>, w: nat, d: int, i: nat)
    requires IsRing(R) && w == |s| && i < w && Adjugate(N, M, w, d)
    ensures IntDot(R, N[i], IntMat(R, M, s), w) == R.Mul(OfInt(R, d), s[i])
  {
    Compose(R, N[i], M, s, w, w);
    IntDotUnit(R, RowTimes(N[i], M, w, w), s, i, d, w);
  }

  /** The inverse of a layer with matrix M: the adjugate, divided by the determinant. */
  function Divided<T>(R: Ring<T>, N: seq<seq<int>>, u: T, t: seq<T>): (s: seq<T>)
    requires IntSquare(N, |t|)
    ensures |s| == |t| && forall i :: 0 <= i < |t| ==> s[i] == R.Mul(u, IntDot(R, N[i], t, |t|))
  {
    seq(|t|, i requires 0 <= i < |t| => R.Mul(u, IntDot(R, N[i], t, |t|)))
  }

  lemma {:induction false} UnitCancels<T(!new)>(R: Ring<T>, u: T, f: T, x: T)
    requires IsRing(R) && R.Mul(u, f) == R.one
    ensures R.Mul(u, R.Mul(f, x)) == x
  {
    MulAssoc(R, u, f, x);
    OneMul(R, x);
  }

  /** Where the determinant is a unit, the layer and its inverse undo each other, in both orders. */
  lemma {:induction false} LayerInvertible<T(!new)>(
      R: Ring<T>, N: seq<seq<int>>, M: seq<seq<int>>, s: seq<T>, w: nat, d: int, u: T)
    requires IsRing(R) && w == |s| && Adjugate(N, M, w, d) && Adjugate(M, N, w, d)
    requires R.Mul(u, OfInt(R, d)) == R.one
    ensures Divided(R, N, u, IntMat(R, M, s)) == s
    ensures IntMat(R, M, Divided(R, N, u, s)) == s
  {
    forall i: nat | i < w
      ensures Divided(R, N, u, IntMat(R, M, s))[i] == s[i]
      ensures IntMat(R, M, Divided(R, N, u, s))[i] == s[i]
    {
      AdjugateScales(R, N, M, s, w, d, i);
      UnitCancels(R, u, OfInt(R, d), s[i]);
      AdjugateScales(R, M, N, s, w, d, i);
      IntDotVector(R, M[i], IntMat(R, N, s), Divided(R, N, u, s), u, w);
    }
  }
}
