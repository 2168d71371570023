/** Anemoi's layers as functions of the state, which lists the l elements x before the l elements y. */
module Anemoi {
  import opened Algebra
  import opened AdditionChain
  import opened IntLinear

  /** 7 v by additions. */
  function MulG<T>(R: Ring<T>, v: T): T {
    var t := R.Plus(R.Plus(v, v), v);
    R.Plus(R.Plus(t, t), v)
  }

  function Mat2<T>(R: Ring<T>, s: seq<T>): (t: seq<T>)
    requires |s| == 2
    ensures |t| == 2
  {
    var x := R.Plus(s[0], MulG(R, s[1]));
    [x, R.Plus(s[1], MulG(R, x))]
  }

  function Mat3<T>(R: Ring<T>, s: seq<T>): (t: seq<T>)
    requires |s| == 3
    ensures |t| == 3
  {
    var t := R.Plus(MulG(R, s[2]), s[0]);
    var x2 := R.Plus(R.Plus(s[2], s[1]), MulG(R, s[0]));
    [R.Plus(x2, t), R.Plus(s[1], t), x2]
  }

  function Mat4<T>(R: Ring<T>, s: seq<T>): (t: seq<T>)
    requires |s| == 4
    ensures |t| == 4
  {
    var a0 := R.Plus(s[0], s[1]);
    var a2 := R.Plus(s[2], s[3]);
    var a3 := R.Plus(s[3], MulG(R, a0));
    var a1 := MulG(R, R.Plus(s[1], a2));
    var b0 := R.Plus(a0, a1);
    var b2 := R.Plus(a2, MulG(R, a3));
    [b0, R.Plus(a1, b2), b2, R.Plus(a3, b0)]
  }

  /** The matrix that the parameters give for l, written out with g = 7. */
  function Matrix(l: nat): (M: seq<seq<int>>)
    requires 2 <= l <= 4
    ensures IntSquare(M, l)
  {
    if l == 2 then [[1, 7], [7, 50]]
    else if l == 3 then [[8, 1, 8], [1, 1, 7], [7, 1, 1]]
    else [[1, 8, 7, 7], [49, 56, 8, 15], [49, 49, 1, 8], [8, 15, 7, 8]]
  }

  function Mat<T>(R: Ring<T>, l: nat, s: seq<T>): (t: seq<T>)
    requires 2 <= l <= 4 && |s| == l
    ensures |t| == l
  {
    if l == 2 then Mat2(R, s) else if l == 3 then Mat3(R, s) else Mat4(R, s)
  }

  // ---- the fast layers are the matrices ----

  lemma {:induction false} MulGIsSeven<T(!new)>(R: Ring<T>, v: T)
    requires IsRing(R)
    ensures MulG(R, v) == R.Mul(OfInt(R, 7), v)
  {
    var one := OfInt(R, 1);
    PlusZero(R.additive, R.one);
    PlusComm(R.additive, R.Zero(), R.one);
    assert OfNat(R, 1) == R.Plus(OfNat(R, 0), R.one);
    OneMul(R, v);
    Spread(R, 1, 1, v);
    Spread(R, 2, 1, v);
    Spread(R, 3, 3, v);
    Spread(R, 6, 1, v);
  }

  lemma {:induction false} Spread<T(!new)>(R: Ring<T>, j: int, k: int, v: T)
    requires IsRing(R)
    ensures R.Plus(R.Mul(OfInt(R, j), v), R.Mul(OfInt(R, k), v)) == R.Mul(OfInt(R, j + k), v)
  {
    OfIntAdd(R, j, k);
    var x, y := OfInt(R, j), OfInt(R, k);
    Distrib(R, v, x, y);
    MulComm(R, v, x);
    MulComm(R, v, y);
    MulComm(R, v, R.Plus(x, y));
  }

  /** A combination of the state: the value c gives on s. */
  function Of<T>(R: Ring<T>, c: seq<int>, s: seq<T>): T
    requires |c| == |s|
  {
    IntDot(R, c, s, |s|)
  }

  lemma {:induction false} OfUnit<T(!new)>(R: Ring<T>, c: seq<int>, s: seq<T>, i: nat)
    requires IsRing(R) && |c| == |s| && i < |s|
    requires forall j :: 0 <= j < |s| ==> c[j] == if j == i then 1 else 0
    ensures Of(R, c, s) == s[i]
  {
    IntDotUnit(R, c, s, i, 1, |s|);
    PlusZero(R.additive, R.one);
    PlusComm(R.additive, R.Zero(), R.one);
    assert OfNat(R, 1) == R.Plus(OfNat(R, 0), R.one);
    OneMul(R, s[i]);
  }

  lemma {:induction false} OfSum<T(!new)>(R: Ring<T>, c: seq<int>, d: seq<int>, e: seq<int>, s: seq<T>)
    requires IsRing(R) && |c| == |s| == |d| == |e| && forall j :: 0 <= j < |s| ==> e[j] == c[j] + d[j]
    ensures R.Plus(Of(R, c, s), Of(R, d, s)) == Of(R, e, s)
  {
    IntDotAdd(R, c, d, e, s, |s|);
  }

  lemma {:induction false} OfMulG<T(!new)>(R: Ring<T>, c: seq<int>, d: seq<int>, s: seq<T>)
    requires IsRing(R) && |c| == |s| == |d| && forall j :: 0 <= j < |s| ==> d[j] == 7 * c[j]
    ensures MulG(R, Of(R, c, s)) == Of(R, d, s)
  {
    MulGIsSeven(R, Of(R, c, s));
    IntDotScale(R, 7, c, d, s, |s|);
  }

  lemma {:induction false} Mat2IsMatrix<T(!new)>(R: Ring<T>, s: seq<T>)
    requires IsRing(R) && |s| == 2
    ensures Mat2(R, s)[0] == Of(R, [1, 7], s) && Mat2(R, s)[1] == Of(R, [7, 50], s)
  {
    OfUnit(R, [1, 0], s, 0);
    OfUnit(R, [0, 1], s, 1);
    OfMulG(R, [0, 1], [0, 7], s);
    OfSum(R, [1, 0], [0, 7], [1, 7], s);
    OfMulG(R, [1, 7], [7, 49], s);
    OfSum(R, [0, 1], [7, 49], [7, 50], s);
  }

  lemma {:induction false} Mat3IsMatrix<T(!new)>(R: Ring<T>, s: seq<T>)
    requires IsRing(R) && |s| == 3
    ensures Mat3(R, s)[0] == Of(R, [8, 1, 8], s)
    ensures Mat3(R, s)[1] == Of(R, [1, 1, 7], s)
    ensures Mat3(R, s)[2] == Of(R, [7, 1, 1], s)
  {
    OfUnit(R, [1, 0, 0], s, 0);
    OfUnit(R, [0, 1, 0], s, 1);
    OfUnit(R, [0, 0, 1], s, 2);
    OfMulG(R, [0, 0, 1], [0, 0, 7], s);
    OfSum(R, [0, 0, 7], [1, 0, 0], [1, 0, 7], s);
    OfSum(R, [0, 0, 1], [0, 1, 0], [0, 1, 1], s);
    OfMulG(R, [1, 0, 0], [7, 0, 0], s);
    OfSum(R, [0, 1, 1], [7, 0, 0], [7, 1, 1], s);
    OfSum(R, [7, 1, 1], [1, 0, 7], [8, 1, 8], s);
    OfSum(R, [0, 1, 0], [1, 0, 7], [1, 1, 7], s);
  }

  lemma {:induction false} Mat4IsMatrix<T(!new)>(R: Ring<T>, s: seq<T>)
    requires IsRing(R) && |s| == 4
    ensures Mat4(R, s)[0] == Of(R, [1, 8, 7, 7], s)
    ensures Mat4(R, s)[1] == Of(R, [49, 56, 8, 15], s)
    ensures Mat4(R, s)[2] == Of(R, [49, 49, 1, 8], s)
    ensures Mat4(R, s)[3] == Of(R, [8, 15, 7, 8], s)
  {
    OfUnit(R, [1, 0, 0, 0], s, 0);
    OfUnit(R, [0, 1, 0, 0], s, 1);
    OfUnit(R, [0, 0, 1, 0], s, 2);
    OfUnit(R, [0, 0, 0, 1], s, 3);
    OfSum(R, [1, 0, 0, 0], [0, 1, 0, 0], [1, 1, 0, 0], s);
    OfSum(R, [0, 0, 1, 0], [0, 0, 0, 1], [0, 0, 1, 1], s);
    OfMulG(R, [1, 1, 0, 0], [7, 7, 0, 0], s);
    OfSum(R, [0, 0, 0, 1], [7, 7, 0, 0], [7, 7, 0, 1], s);
    OfSum(R, [0, 1, 0, 0], [0, 0, 1, 1], [0, 1, 1, 1], s);
    OfMulG(R, [0, 1, 1, 1], [0, 7, 7, 7], s);
    OfSum(R, [1, 1, 0, 0], [0, 7, 7, 7], [1, 8, 7, 7], s);
    OfMulG(R, [7, 7, 0, 1], [49, 49, 0, 7], s);
    OfSum(R, [0, 0, 1, 1], [49, 49, 0, 7], [49, 49, 1, 8], s);
    OfSum(R, [0, 7, 7, 7], [49, 49, 1, 8], [49, 56, 8, 15], s);
    OfSum(R, [7, 7, 0, 1], [1, 8, 7, 7], [8, 15, 7, 8], s);
  }

  /** The straight-line layers compute the products with the matrices of the parameters. */
  lemma {:induction false} LayerIsMatrix<T(!new)>(R: Ring<T>, l: nat, s: seq<T>)
    requires IsRing(R) && 2 <= l <= 4 && |s| == l
    ensures Mat(R, l, s) == IntMat(R, Matrix(l), s)
  {
    if l == 2 {
      Mat2IsMatrix(R, s);
    } else if l == 3 {
      Mat3IsMatrix(R, s);
    } else {
      Mat4IsMatrix(R, s);
    }
  }

  // ---- inverses ----

  function Adjoint(l: nat): (N: seq<seq<int>>)
    requires 2 <= l <= 4
    ensures IntSquare(N, l)
  {
    if l == 2 then [[50, -7], [-7, 1]]
    else if l == 3 then [[-6, 7, -1], [48, -48, -48], [-6, -1, 7]]
    else [[56, -8, 15, -49], [-49, 1, -8, 49], [105, -49, 56, -56], [-56, 49, -49, 7]]
  }

  /** The determinant of the matrix for l. */
  function Determinant(l: nat): int
    requires 1 <= l <= 4
  {
    if l == 3 then -48 else if l == 4 then 7 else 1
  }

  lemma {:induction false} EntryAt(c: seq<int>, M: seq<seq<int>>, j: nat, w: nat)
    requires 2 <= w <= 4 && |c| == w && IntSquare(M, w) && j < w
    ensures Entry(c, M, j, w)
            == c[0] * M[0][j] + c[1] * M[1][j]
               + (if w > 2 then c[2] * M[2][j] else 0) + (if w > 3 then c[3] * M[3][j] else 0)
  {
    EntryNext(c, M, j, 0, 1);
    EntryNext(c, M, j, 1, 2);
    if w > 2 { EntryNext(c, M, j, 2, 3); }
    if w > 3 { EntryNext(c, M, j, 3, 4); }
  }

  lemma {:induction false} MatrixAdjugate(l: nat)
    requires 2 <= l <= 4
    ensures Adjugate(Adjoint(l), Matrix(l), l, Determinant(l)) && Adjugate(Matrix(l), Adjoint(l), l, Determinant(l))
  {
    var N, M := Adjoint(l), Matrix(l);
    forall i: nat, j: nat | i < l && j < l
      ensures Entry(N[i], M, j, l) == if j == i then Determinant(l) else 0
      ensures Entry(M[i], N, j, l) == if j == i then Determinant(l) else 0
    {
      MatrixEntries(l, i, j);
    }
  }

  lemma {:induction false} MatrixEntries(l: nat, i: nat, j: nat)
    requires 2 <= l <= 4 && i < l && j < l
    ensures Entry(Adjoint(l)[i], Matrix(l), j, l) == if j == i then Determinant(l) else 0
    ensures Entry(Matrix(l)[i], Adjoint(l), j, l) == if j == i then Determinant(l) else 0
  {
    EntryAt(Adjoint(l)[i], Matrix(l), j, l);
    EntryAt(Matrix(l)[i], Adjoint(l), j, l);
  }

  /** The matrix layer is a bijection where the determinant is a unit. */
  lemma {:induction false} MatInvertible<T(!new)>(R: Ring<T>, l: nat, s: seq<T>, u: T)
    requires IsRing(R) && 2 <= l <= 4 && |s| == l && R.Mul(u, OfInt(R, Determinant(l))) == R.one
    ensures Divided(R, Adjoint(l), u, Mat(R, l, s)) == s
    ensures Mat(R, l, Divided(R, Adjoint(l), u, s)) == s
  {
    MatrixAdjugate(l);
    LayerInvertible(R, Adjoint(l), Matrix(l), s, l, Determinant(l), u);
    LayerIsMatrix(R, l, s);
    LayerIsMatrix(R, l, Divided(R, Adjoint(l), u, s));
  }

  // ---- the linear layer ----

  function Rotated<T>(s: seq<T>): (t: seq<T>)
    requires s != []
    ensures |t| == |s|
  {
    s[1..] + [s[0]]
  }

  function RotatedBack<T>(s: seq<T>): (t: seq<T>)
    requires s != []
    ensures |t| == |s|
  {
    [s[|s| - 1]] + s[..|s| - 1]
  }

  function Linear<T>(R: Ring<T>, l: nat, s: seq<T>): (t: seq<T>)
    requires 1 <= l <= 4 && |s| == 2 * l
    ensures |t| == 2 * l
  {
    if l == 1 then Mat2(R, s) else Mat(R, l, s[..l]) + Mat(R, l, Rotated(s[l..]))
  }

  function Unlinear<T>(R: Ring<T>, l: nat, u: T, t: seq<T>): (s: seq<T>)
    requires 1 <= l <= 4 && |t| == 2 * l
    ensures |s| == 2 * l
  {
    if l == 1 then Divided(R, Adjoint(2), u, t)
    else Divided(R, Adjoint(l), u, t[..l]) + RotatedBack(Divided(R, Adjoint(l), u, t[l..]))
  }

  lemma {:induction false} Halves<T>(a: seq<T>, b: seq<T>, s: seq<T>, l: nat)
    requires s == a + b && |a| == l
    ensures s[..l] == a && s[l..] == b
  {
  }

  lemma {:induction false} RotateInvertible<T>(y: seq<T>)
    requires y != []
    ensures RotatedBack(Rotated(y)) == y && Rotated(RotatedBack(y)) == y
  {
  }

  lemma {:induction false} UnlinearHalves<T>(
      R: Ring<T>, l: nat, u: T, p: seq<T>, q: seq<T>, t: seq<T>, x: seq<T>, y: seq<T>)
    requires 2 <= l <= 4 && |p| == |q| == |y| == l && t == p + q
    requires Divided(R, Adjoint(l), u, p) == x && Divided(R, Adjoint(l), u, q) == Rotated(y)
    ensures Unlinear(R, l, u, t) == x + y
  {
    Halves(p, q, t, l);
    RotateInvertible(y);
  }

  lemma {:induction false} LinearUndone<T(!new)>(R: Ring<T>, l: nat, s: seq<T>, u: T)
    requires IsRing(R) && 2 <= l <= 4 && |s| == 2 * l && R.Mul(u, OfInt(R, Determinant(l))) == R.one
    ensures Unlinear(R, l, u, Linear(R, l, s)) == s
  {
    hide Mat, Divided, Determinant;
    var x, y := s[..l], s[l..];
    MatInvertible(R, l, x, u);
    MatInvertible(R, l, Rotated(y), u);
    UnlinearHalves(R, l, u, Mat(R, l, x), Mat(R, l, Rotated(y)), Linear(R, l, s), x, y);
    assert x + y == s;
  }

  lemma {:induction false} UnlinearUndone<T(!new)>(R: Ring<T>, l: nat, s: seq<T>, u: T)
    requires IsRing(R) && 2 <= l <= 4 && |s| == 2 * l && R.Mul(u, OfInt(R, Determinant(l))) == R.one
    ensures Linear(R, l, Unlinear(R, l, u, s)) == s
  {
    hide Mat, Divided, Determinant;
    var x, y, N := s[..l], s[l..], Adjoint(l);
    MatInvertible(R, l, x, u);
    MatInvertible(R, l, y, u);
    RotateInvertible(Divided(R, N, u, y));
    Halves(Divided(R, N, u, x), RotatedBack(Divided(R, N, u, y)), Unlinear(R, l, u, s), l);
    assert x + y == s;
  }

  lemma {:induction false} LinearInvertible<T(!new)>(R: Ring<T>, l: nat, s: seq<T>, u: T)
    requires IsRing(R) && 1 <= l <= 4 && |s| == 2 * l && R.Mul(u, OfInt(R, Determinant(l))) == R.one
    ensures Unlinear(R, l, u, Linear(R, l, s)) == s && Linear(R, l, Unlinear(R, l, u, s)) == s
  {
    if l == 1 {
      MatInvertible(R, 2, s, u);
    } else {
      LinearUndone(R, l, s, u);
      UnlinearUndone(R, l, s, u);
    }
  }

  // ---- the S-box ----

  function Root<T>(R: Ring<T>, x: T): T { Pow(R, x, ROOT) }

  function Square2<T>(R: Ring<T>, beta: T, y: T): T { R.Mul(R.Mul(y, y), beta) }

  /** The Flystel: x loses a quadratic in y, y the root of x, and x gains a quadratic in y. */
  function Flystel<T>(R: Ring<T>, beta: T, delta: T, x: T, y: T): (T, T) {
    var x1 := R.Minus(x, Square2(R, beta, y));
    var y1 := R.Minus(y, Root(R, x1));
    (R.Plus(x1, R.Plus(Square2(R, beta, y1), delta)), y1)
  }

  function Unflystel<T>(R: Ring<T>, beta: T, delta: T, x: T, y: T): (T, T) {
    var x1 := R.Minus(x, R.Plus(Square2(R, beta, y), delta));
    var y1 := R.Plus(y, Root(R, x1));
    (R.Plus(x1, Square2(R, beta, y1)), y1)
  }

  lemma {:induction false} PlusMinus<T(!new)>(R: Ring<T>, a: T, b: T)
    requires IsRing(R)
    ensures R.Minus(R.Plus(a, b), b) == a && R.Plus(R.Minus(a, b), b) == a
  {
    var A := R.additive;
    PlusAssoc(A, a, b, R.Neg(b));
    PlusNeg(A, b);
    PlusZero(A, a);
    PlusAssoc(A, a, R.Neg(b), b);
    PlusComm(A, R.Neg(b), b);
  }

  /** Whatever the root function is, the S-box is a bijection. */
  lemma {:induction false} FlystelInvertible<T(!new)>(R: Ring<T>, beta: T, delta: T, x: T, y: T)
    requires IsRing(R)
    ensures var p := Flystel(R, beta, delta, x, y); Unflystel(R, beta, delta, p.0, p.1) == (x, y)
    ensures var p := Unflystel(R, beta, delta, x, y); Flystel(R, beta, delta, p.0, p.1) == (x, y)
  {
    var x1 := R.Minus(x, Square2(R, beta, y));
    var y1 := R.Minus(y, Root(R, x1));
    PlusMinus(R, x1, R.Plus(Square2(R, beta, y1), delta));
    PlusMinus(R, y, Root(R, x1));
    PlusMinus(R, x, Square2(R, beta, y));
    var x2 := R.Minus(x, R.Plus(Square2(R, beta, y), delta));
    var y2 := R.Plus(y, Root(R, x2));
    PlusMinus(R, x2, Square2(R, beta, y2));
    PlusMinus(R, y, Root(R, x2));
    PlusMinus(R, x, R.Plus(Square2(R, beta, y), delta));
  }

  function FlystelAll<T>(R: Ring<T>, l: nat, beta: T, delta: T, s: seq<T>): (t: seq<T>)
    requires |s| == 2 * l
    ensures |t| == 2 * l
    ensures forall i :: 0 <= i < l ==> (t[i], t[l..][i]) == Flystel(R, beta, delta, s[i], s[l..][i])
  {
    seq(l, i requires 0 <= i < l => Flystel(R, beta, delta, s[i], s[l..][i]).0)
    + seq(l, i requires 0 <= i < l => Flystel(R, beta, delta, s[i], s[l..][i]).1)
  }

  function UnflystelAll<T>(R: Ring<T>, l: nat, beta: T, delta: T, s: seq<T>): (t: seq<T>)
    requires |s| == 2 * l
    ensures |t| == 2 * l
    ensures forall i :: 0 <= i < l ==> (t[i], t[l..][i]) == Unflystel(R, beta, delta, s[i], s[l..][i])
  {
    seq(l, i requires 0 <= i < l => Unflystel(R, beta, delta, s[i], s[l..][i]).0)
    + seq(l, i requires 0 <= i < l => Unflystel(R, beta, delta, s[i], s[l..][i]).1)
  }

  /** Two states with equal halves are equal. */
  lemma {:induction false} SameHalves<T>(s: seq<T>, t: seq<T>, l: nat)
    requires |s| == |t| == 2 * l && forall i :: 0 <= i < l ==> s[i] == t[i] && s[l..][i] == t[l..][i]
    ensures s == t
  {
    forall k | 0 <= k < 2 * l ensures s[k] == t[k] {
      if k >= l {
        var i := k - l;
        assert s[l..][i] == s[k] && t[l..][i] == t[k];
      }
    }
  }

  lemma {:induction false} FlystelAllInvertible<T(!new)>(R: Ring<T>, l: nat, beta: T, delta: T, s: seq<T>)
    requires IsRing(R) && |s| == 2 * l
    ensures UnflystelAll(R, l, beta, delta, FlystelAll(R, l, beta, delta, s)) == s
    ensures FlystelAll(R, l, beta, delta, UnflystelAll(R, l, beta, delta, s)) == s
  {
    var t := FlystelAll(R, l, beta, delta, s);
    var u := UnflystelAll(R, l, beta, delta, t);
    var v := UnflystelAll(R, l, beta, delta, s);
    var w := FlystelAll(R, l, beta, delta, v);
    forall i | 0 <= i < l
      ensures u[i] == s[i] && u[l..][i] == s[l..][i] && w[i] == s[i] && w[l..][i] == s[l..][i]
    {
      FlystelInvertible(R, beta, delta, s[i], s[l..][i]);
      assert (t[i], t[l..][i]) == Flystel(R, beta, delta, s[i], s[l..][i]);
      assert (u[i], u[l..][i]) == Unflystel(R, beta, delta, t[i], t[l..][i]);
      assert (v[i], v[l..][i]) == Unflystel(R, beta, delta, s[i], s[l..][i]);
      assert (w[i], w[l..][i]) == Flystel(R, beta, delta, v[i], v[l..][i]);
    }
    SameHalves(u, s, l);
    SameHalves(w, s, l);
  }

  // ---- the permutation ----

  function AddAll<T>(R: Ring<T>, s: seq<T>, k: seq<T>): (t: seq<T>)
    requires |s| == |k|
    ensures |t| == |s| && forall i :: 0 <= i < |s| ==> t[i] == R.Plus(s[i], k[i])
  {
    seq(|s|, i requires 0 <= i < |s| => R.Plus(s[i], k[i]))
  }

  function SubAll<T>(R: Ring<T>, s: seq<T>, k: seq<T>): (t: seq<T>)
    requires |s| == |k|
    ensures |t| == |s| && forall i :: 0 <= i < |s| ==> t[i] == R.Minus(s[i], k[i])
  {
    seq(|s|, i requires 0 <= i < |s| => R.Minus(s[i], k[i]))
  }

  lemma {:induction false} AddInvertible<T(!new)>(R: Ring<T>, s: seq<T>, k: seq<T>)
    requires IsRing(R) && |s| == |k|
    ensures SubAll(R, AddAll(R, s, k), k) == s && AddAll(R, SubAll(R, s, k), k) == s
  {
    forall i | 0 <= i < |s|
      ensures SubAll(R, AddAll(R, s, k), k)[i] == s[i] && AddAll(R, SubAll(R, s, k), k)[i] == s[i]
    {
      PlusMinus(R, s[i], k[i]);
    }
  }

  ghost predicate RoundKeys<T>(keys: seq<seq<T>>, n: nat) {
    forall r :: 0 <= r < |keys| ==> |keys[r]| == n
  }

  function Round<T>(R: Ring<T>, l: nat, beta: T, delta: T, s: seq<T>, k: seq<T>): (t: seq<T>)
    requires 1 <= l <= 4 && |s| == 2 * l == |k|
    ensures |t| == 2 * l
  {
    FlystelAll(R, l, beta, delta, Linear(R, l, AddAll(R, s, k)))
  }

  function Unround<T>(R: Ring<T>, l: nat, beta: T, delta: T, u: T, s: seq<T>, k: seq<T>): (t: seq<T>)
    requires 1 <= l <= 4 && |s| == 2 * l == |k|
    ensures |t| == 2 * l
  {
    SubAll(R, Unlinear(R, l, u, UnflystelAll(R, l, beta, delta, s)), k)
  }

  lemma {:induction false} RoundInvertible<T(!new)>(
      R: Ring<T>, l: nat, beta: T, delta: T, u: T, s: seq<T>, k: seq<T>)
    requires IsRing(R) && 1 <= l <= 4 && |s| == 2 * l == |k| && R.Mul(u, OfInt(R, Determinant(l))) == R.one
    ensures Unround(R, l, beta, delta, u, Round(R, l, beta, delta, s, k), k) == s
    ensures Round(R, l, beta, delta, Unround(R, l, beta, delta, u, s, k), k) == s
  {
    var a := AddAll(R, s, k);
    AddInvertible(R, s, k);
    LinearInvertible(R, l, a, u);
    FlystelAllInvertible(R, l, beta, delta, Linear(R, l, a));
    var b := UnflystelAll(R, l, beta, delta, s);
    FlystelAllInvertible(R, l, beta, delta, s);
    LinearInvertible(R, l, b, u);
    AddInvertible(R, Unlinear(R, l, u, b), k);
  }

  function Permutation<T>(R: Ring<T>, l: nat, beta: T, delta: T, s: seq<T>, keys: seq<seq<T>>): (t: seq<T>)
    requires 1 <= l <= 4 && |s| == 2 * l && RoundKeys(keys, |s|)
    ensures |t| == 2 * l
    decreases |keys|
  {
    if keys == [] then Linear(R, l, s)
    else Permutation(R, l, beta, delta, Round(R, l, beta, delta, s, keys[0]), keys[1..])
  }

  /** The rounds undone in the opposite order. */
  function Inverse<T>(R: Ring<T>, l: nat, beta: T, delta: T, u: T, s: seq<T>, keys: seq<seq<T>>): (t: seq<T>)
    requires 1 <= l <= 4 && |s| == 2 * l && RoundKeys(keys, |s|)
    ensures |t| == 2 * l
    decreases |keys|
  {
    if keys == [] then Unlinear(R, l, u, s)
    else Unround(R, l, beta, delta, u, Inverse(R, l, beta, delta, u, s, keys[1..]), keys[0])
  }

  /** For every number of rounds the inverse undoes the permutation, where the determinant is a unit. */
  lemma {:induction false} InverseOfPermutation<T(!new)>(
      R: Ring<T>, l: nat, beta: T, delta: T, u: T, s: seq<T>, keys: seq<seq<T>>)
    requires IsRing(R) && 1 <= l <= 4 && |s| == 2 * l && RoundKeys(keys, |s|)
    requires R.Mul(u, OfInt(R, Determinant(l))) == R.one
    ensures Inverse(R, l, beta, delta, u, Permutation(R, l, beta, delta, s, keys), keys) == s
    decreases |keys|
  {
    hide Round, Unround, Linear, Unlinear;
    if keys == [] {
      LinearInvertible(R, l, s, u);
    } else {
      var k, rest := keys[0], keys[1..];
      var next := Round(R, l, beta, delta, s, k);
      RoundInvertible(R, l, beta, delta, u, s, k);
      InverseOfPermutation(R, l, beta, delta, u, next, rest);
    }
  }

  /** And the permutation undoes the inverse: it is a bijection. */
  lemma {:induction false} PermutationOfInverse<T(!new)>(
      R: Ring<T>, l: nat, beta: T, delta: T, u: T, s: seq<T>, keys: seq<seq<T>>)
    requires IsRing(R) && 1 <= l <= 4 && |s| == 2 * l && RoundKeys(keys, |s|)
    requires R.Mul(u, OfInt(R, Determinant(l))) == R.one
    ensures Permutation(R, l, beta, delta, Inverse(R, l, beta, delta, u, s, keys), keys) == s
    decreases |keys|
  {
    hide Round, Unround, Linear, Unlinear;
    if keys == [] {
      LinearInvertible(R, l, s, u);
    } else {
      var k, rest := keys[0], keys[1..];
      var before := Inverse(R, l, beta, delta, u, s, rest);
      PermutationOfInverse(R, l, beta, delta, u, s, rest);
      RoundInvertible(R, l, beta, delta, u, before, k);
    }
  }
}
