/** The polynomial operations as the C code runs them, writing into result arrays. */
module PolynomialsCode {
  import opened Algebra
  import opened Polynomials

  /** One row of products, added into the result from place i on. */
  method AddRow<T(!new)>(R: Ring<T>, res: array<T>, p: seq<T>, q: seq<T>, i: nat, next: nat)
    requires IsRing(R) && next == i + 1 <= |p| && (q != [] ==> i + |q| <= res.Length)
    requires forall k | 0 <= k < res.Length :: res[k] == Convolution(R, p, q, k, i)
    modifies res
    ensures forall k | 0 <= k < res.Length :: res[k] == Convolution(R, p, q, k, next)
  {
    hide Convolution;
    forall k | 0 <= k < res.Length && (k < i || k >= i + |q|)
      ensures Convolution(R, p, q, k, next) == Convolution(R, p, q, k, i)
    {
      ConvolutionSkips(R, p, q, k, i, next);
    }
    var at := i;
    for j := 0 to |q|
      invariant at == i + j
      invariant forall k | 0 <= k < at && k < res.Length :: res[k] == Convolution(R, p, q, k, next)
      invariant forall k | at <= k < res.Length :: res[k] == Convolution(R, p, q, k, i)
    {
      ConvolutionNext(R, p, q, at, i, next);
      var tmp := R.Mul(p[i], q[j]);
      res[at] := R.Plus(res[at], tmp);
      at := at + 1;
    }
  }

  /** The result array holds zeros at first; products are added in row by row. */
  method Multiply<T(!new)>(R: Ring<T>, res: array<T>, p: seq<T>, q: seq<T>)
    requires IsRing(R) && (p != [] && q != [] ==> |p| + |q| <= res.Length + 1)
    requires forall k | 0 <= k < res.Length :: res[k] == R.Zero()
    modifies res
    ensures res[..] == Product(R, p, q, res.Length)
  {
    for i := 0 to |p|
      invariant forall k | 0 <= k < res.Length :: res[k] == Convolution(R, p, q, k, i)
    {
      AddRow(R, res, p, q, i, i + 1);
    }
  }

  lemma {:induction false} ConvolutionNext<T>(R: Ring<T>, p: seq<T>, q: seq<T>, k: int, i: nat, next: nat)
    requires next == i + 1 <= |p|
    ensures Convolution(R, p, q, k, next) == R.Plus(Convolution(R, p, q, k, i), R.Mul(p[i], Coeff(R, q, k - i)))
  {
  }

  lemma {:induction false} ConvolutionSkips<T(!new)>(R: Ring<T>, p: seq<T>, q: seq<T>, k: int, i: nat, next: nat)
    requires IsRing(R) && next == i + 1 <= |p| && (k < i || k >= i + |q|)
    ensures Convolution(R, p, q, k, next) == Convolution(R, p, q, k, i)
  {
    MulZero(R, p[i]);
    PlusZero(R.additive, Convolution(R, p, q, k, i));
  }

  method Evaluate<T(!new)>(R: Ring<T>, p: seq<T>, x: T) returns (res: T)
    requires IsRing(R) && p != []
    ensures res == Eval(R, p, x)
  {
    var i := |p| - 1;
    res := p[i];
    EvalLast(R, p[i..], x);
    while i > 0
      invariant 0 <= i < |p| && res == Eval(R, p[i..], x)
    {
      i := i - 1;
      assert p[i..][1..] == p[i + 1..];
      res := R.Mul(res, x);
      MulComm(R, x, Eval(R, p[i + 1..], x));
      PlusComm(R.additive, res, p[i]);
      res := R.Plus(res, p[i]);
    }
    assert p[0..] == p;
  }

  lemma {:induction false} EvalLast<T(!new)>(R: Ring<T>, p: seq<T>, x: T)
    requires IsRing(R) && |p| == 1
    ensures Eval(R, p, x) == p[0]
  {
    assert Eval(R, p[1..], x) == R.Zero();
    MulZero(R, x);
    PlusZero(R.additive, p[0]);
  }

  // ---- X^n + c ----

  /** The loops for c = 1, c = -1 and general c differ in this step only: all compute a - c b. */
  method Step<T(!new, ==)>(R: Ring<T>, c: T, a: T, b: T) returns (d: T)
    requires IsRing(R)
    ensures a == R.Plus(R.Mul(c, b), d) && a == R.Plus(d, R.Mul(c, b))
  {
    if c == R.MinusOne() {
      d := R.Plus(a, b);
      OneMul(R, b);
      MulNeg(R, R.one, b);
      PlusMinus(R, a, b);
    } else if c == R.one {
      d := R.Minus(a, b);
      OneMul(R, b);
      PlusMinus(R, a, b);
    } else {
      var tmp := R.Mul(c, b);
      d := R.Minus(a, tmp);
      PlusMinus(R, a, tmp);
    }
    PlusComm(R.additive, d, R.Mul(c, b));
  }

  lemma {:induction false} PlusMinus<T(!new)>(R: Ring<T>, a: T, b: T)
    requires IsRing(R)
    ensures R.Plus(R.Plus(a, b), R.Neg(b)) == a && R.Plus(R.Minus(a, b), b) == a
  {
    var A := R.additive;
    PlusAssoc(A, a, b, R.Neg(b));
    PlusNeg(A, b);
    PlusZero(A, a);
    PlusAssoc(A, a, R.Neg(b), b);
    PlusComm(A, R.Neg(b), b);
  }

  /** Quotient entry i is right: the coefficient above it is that entry plus c times the entry n places up. */
  ghost predicate EntryRight<T>(R: Ring<T>, poly: seq<T>, n: nat, c: T, q: seq<T>, i: nat)
    requires i + n < |poly|
  {
    i < |q| && poly[i + n] == R.Plus(q[i], R.Mul(c, Coeff(R, q, i + n)))
  }

  lemma {:induction false} TopEntry<T(!new)>(R: Ring<T>, c: T, x: T)
    requires IsRing(R)
    ensures x == R.Plus(x, R.Mul(c, R.Zero()))
  {
    MulZero(R, c);
    PlusZero(R.additive, x);
  }

  /** The quotient: its top n entries are copied, the others depend on entries n places up. */
  method QuotientXn<T(!new, ==)>(R: Ring<T>, q: array<T>, poly: seq<T>, n: nat, c: T)
    requires IsRing(R) && 0 < n < |poly| && q.Length == |poly| - n
    modifies q
    ensures forall i | 0 <= i < q.Length :: EntryRight(R, poly, n, c, q[..], i)
  {
    var size, m := |poly|, q.Length;
    var top := if size >= 2 * n then size - 2 * n else 0;
    for i := top to m
      invariant forall k | top <= k < i :: q[k] == poly[k + n]
    {
      q[i] := poly[i + n];
    }
    forall k | top <= k < m ensures EntryRight(R, poly, n, c, q[..], k) {
      TopEntry(R, c, q[k]);
    }
    var i := top;
    while i > 0
      invariant 0 <= i <= top
      invariant forall k | i <= k < m :: EntryRight(R, poly, n, c, q[..], k)
    {
      i := i - 1;
      ghost var before := q[..];
      var x := Step(R, c, poly[i + n], q[i + n]);
      q[i] := x;
      forall k | i <= k < m ensures EntryRight(R, poly, n, c, q[..], k) {
        if k > i {
          assert EntryRight(R, poly, n, c, before, k);
          assert Coeff(R, q[..], k + n) == Coeff(R, before, k + n);
        }
      }
    }
  }

  method RemainderXn<T(!new, ==)>(R: Ring<T>, r: array<T>, q: seq<T>, poly: seq<T>, n: nat, c: T)
    requires IsRing(R) && 0 < n < |poly| && r.Length == n && |q| == |poly| - n
    modifies r
    ensures forall i | 0 <= i < n :: poly[i] == R.Plus(R.Mul(c, Coeff(R, q, i)), r[i])
  {
    var m := if |q| < n then |q| else n;
    for i := 0 to m
      invariant forall k | 0 <= k < i :: poly[k] == R.Plus(R.Mul(c, Coeff(R, q, k)), r[k])
    {
      var x := Step(R, c, poly[i], q[i]);
      r[i] := x;
    }
    for i := m to n
      invariant forall k | 0 <= k < i :: poly[k] == R.Plus(R.Mul(c, Coeff(R, q, k)), r[k])
    {
      r[i] := poly[i];
      MulZero(R, c);
      PlusZero(R.additive, poly[i]);
      PlusComm(R.additive, poly[i], R.Zero());
    }
  }

  /** Division by X^n + c. */
  method DivideXn<T(!new, ==)>(R: Ring<T>, q: array<T>, r: array<T>, poly: seq<T>, n: nat, c: T)
    requires IsRing(R) && 0 < n < |poly| && q.Length == |poly| - n && r.Length == n && q != r
    modifies q, r
    ensures Divides(R, poly, n, c, q[..], r[..])
  {
    QuotientXn(R, q, poly, n, c);
    RemainderXn(R, r, q[..], poly, n, c);
    forall i | 0 <= i < |poly| ensures poly[i] == R.Plus(TimesXn(R, q[..], n, c, i), Coeff(R, r[..], i)) {
      DivisionEntry(R, poly, n, c, q[..], r[..], i);
    }
  }

  lemma {:induction false} DivisionEntry<T(!new)>(
      R: Ring<T>, poly: seq<T>, n: nat, c: T, q: seq<T>, r: seq<T>, i: nat)
    requires IsRing(R) && 0 < n < |poly| && |q| == |poly| - n && |r| == n && i < |poly|
    requires i < n ==> poly[i] == R.Plus(R.Mul(c, Coeff(R, q, i)), r[i])
    requires i >= n ==> EntryRight(R, poly, n, c, q, i - n)
    ensures poly[i] == R.Plus(TimesXn(R, q, n, c, i), Coeff(R, r, i))
  {
    var A, y := R.additive, R.Mul(c, Coeff(R, q, i));
    if i < n {
      PlusZero(A, y);
      PlusComm(A, y, R.Zero());
    } else {
      PlusZero(A, TimesXn(R, q, n, c, i));
    }
  }

  /** c x, without a multiplication for c = 1 and c = -1. */
  method Scale<T(!new, ==)>(R: Ring<T>, c: T, x: T) returns (y: T)
    requires IsRing(R)
    ensures y == R.Mul(c, x)
  {
    OneMul(R, x);
    MulNeg(R, R.one, x);
    if c == R.MinusOne() {
      y := R.Neg(x);
    } else if c == R.one {
      y := x;
    } else {
      y := R.Mul(c, x);
    }
  }

  lemma {:induction false} TimesXnCases<T(!new)>(R: Ring<T>, p: seq<T>, n: nat, c: T, i: nat)
    requires IsRing(R) && i < |p| + n
    ensures i < n && i < |p| ==> TimesXn(R, p, n, c, i) == R.Mul(c, p[i])
    ensures i < n && i >= |p| ==> TimesXn(R, p, n, c, i) == R.Zero()
    ensures i >= n && i < |p| ==> TimesXn(R, p, n, c, i) == R.Plus(p[i - n], R.Mul(c, p[i]))
    ensures i >= n && i >= |p| ==> TimesXn(R, p, n, c, i) == p[i - n]
  {
    var x := R.Mul(c, Coeff(R, p, i));
    MulZero(R, c);
    PlusZero(R.additive, x);
    PlusComm(R.additive, x, R.Zero());
    PlusZero(R.additive, Coeff(R, p, i - n));
  }

  /** The product with X^n + c, into an array of zeros. */
  method MultiplyXn<T(!new, ==)>(R: Ring<T>, res: array<T>, p: seq<T>, n: nat, c: T)
    requires IsRing(R) && res.Length == |p| + n
    requires forall k | 0 <= k < res.Length :: res[k] == R.Zero()
    modifies res
    ensures res[..] == MulXn(R, p, n, c)
  {
    hide TimesXn;
    ghost var out := MulXn(R, p, n, c);
    var size := |p|;
    var low := if size >= n then n else size;
    forall k: nat | low <= k < n ensures out[k] == R.Zero() { TimesXnCases(R, p, n, c, k); }
    for i := 0 to low
      invariant forall k | 0 <= k < i :: res[k] == out[k]
      invariant forall k | i <= k < res.Length :: res[k] == R.Zero()
    {
      var y := Scale(R, c, p[i]);
      res[i] := y;
      TimesXnCases(R, p, n, c, i);
    }
    var from := if size >= n then size else n;
    for i := n to from
      invariant forall k | 0 <= k < i :: res[k] == out[k]
    {
      var y := Scale(R, c, p[i]);
      res[i] := R.Plus(p[i - n], y);
      TimesXnCases(R, p, n, c, i);
    }
    for i := from to size + n
      invariant forall k | 0 <= k < i :: res[k] == out[k]
    {
      res[i] := p[i - n];
      TimesXnCases(R, p, n, c, i);
    }
  }

  // ---- linear combinations with powers ----

  /** Adds c p into the low end of the result. */
  method AddScaled<T(!new)>(R: Ring<T>, res: array<T>, p: seq<T>, c: T)
    requires IsRing(R) && |p| <= res.Length
    modifies res
    ensures forall i | 0 <= i < res.Length :: res[i] == R.Plus(old(res[i]), R.Mul(Coeff(R, p, i), c))
  {
    for i := 0 to |p|
      invariant forall k | 0 <= k < i :: res[k] == R.Plus(old(res[k]), R.Mul(Coeff(R, p, k), c))
      invariant forall k | i <= k < res.Length :: res[k] == old(res[k])
    {
      var tmp := R.Mul(p[i], c);
      res[i] := R.Plus(res[i], tmp);
    }
    forall k | |p| <= k < res.Length ensures res[k] == R.Plus(old(res[k]), R.Mul(Coeff(R, p, k), c)) {
      MulZero(R, c);
      PlusZero(R.additive, res[k]);
    }
  }

  method LinearNaive<T(!new)>(R: Ring<T>, res: array<T>, ps: seq<seq<T>>, s: T)
    requires IsRing(R) && ps != [] && forall j | 0 <= j < |ps| :: |ps[j]| <= res.Length
    requires forall i | 0 <= i < res.Length :: res[i] == R.Zero()
    modifies res
    ensures res[..] == Linear(R, ps, s, res.Length, |ps|)
  {
    for i := 0 to |ps[0]|
      invariant forall k | 0 <= k < res.Length :: res[k] == if k < i then ps[0][k] else R.Zero()
    {
      res[i] := ps[0][i];
    }
    forall k | 0 <= k < res.Length ensures res[k] == PowersAt(R, ps, s, k, 1) {
      FirstPower(R, ps, s, k);
    }
    var coeff := s;
    OneMul(R, s);
    assert Pow(R, s, 1) == R.Mul(Pow(R, s, 0), s);
    for j := 1 to |ps|
      invariant coeff == Pow(R, s, j)
      invariant forall k | 0 <= k < res.Length :: res[k] == PowersAt(R, ps, s, k, j)
    {
      AddScaled(R, res, ps[j], coeff);
      coeff := R.Mul(coeff, s);
    }
  }

  lemma {:induction false} FirstPower<T(!new)>(R: Ring<T>, ps: seq<seq<T>>, s: T, i: int)
    requires IsRing(R) && ps != []
    ensures PowersAt(R, ps, s, i, 1) == Coeff(R, ps[0], i)
  {
    var x := Coeff(R, ps[0], i);
    OneMul(R, x);
    PlusZero(R.additive, x);
    PlusComm(R.additive, x, R.Zero());
    assert PowersAt(R, ps, s, i, 1) == R.Plus(PowersAt(R, ps, s, i, 0), R.Mul(x, Pow(R, s, 0)));
  }

  /** Horner's rule over the polynomials, from the last to the first; only entries in use are scaled. */
  method LinearHorner<T(!new)>(R: Ring<T>, res: array<T>, ps: seq<seq<T>>, s: T)
    requires IsRing(R) && ps != [] && forall j | 0 <= j < |ps| :: |ps[j]| <= res.Length
    requires forall i | 0 <= i < res.Length :: res[i] == R.Zero()
    modifies res
    ensures res[..] == Linear(R, ps, s, res.Length, |ps|)
  {
    var j := |ps| - 1;
    var used: nat := |ps[j]|;
    for i := 0 to used
      invariant forall k | 0 <= k < res.Length :: res[k] == if k < i then ps[j][k] else R.Zero()
    {
      res[i] := ps[j][i];
    }
    forall k | 0 <= k < res.Length ensures res[k] == HornerAt(R, ps[j..], s, k) {
      LastHorner(R, ps[j..], s, k);
    }
    while j > 0
      invariant 0 <= j < |ps| && used <= res.Length
      invariant forall k | 0 <= k < res.Length :: res[k] == HornerAt(R, ps[j..], s, k)
      invariant forall k | used <= k < res.Length :: res[k] == R.Zero()
    {
      j := j - 1;
      assert ps[j..][1..] == ps[j + 1..];
      HornerStep(R, res, ps[j], s, used);
      used := if used < |ps[j]| then |ps[j]| else used;
    }
    assert ps[0..] == ps;
    forall k | 0 <= k < res.Length ensures res[k] == PowersAt(R, ps, s, k, |ps|) {
      HornerIsPowers(R, ps, s, k);
    }
  }

  lemma {:induction false} LastHorner<T(!new)>(R: Ring<T>, ps: seq<seq<T>>, s: T, i: int)
    requires IsRing(R) && |ps| == 1
    ensures HornerAt(R, ps, s, i) == Coeff(R, ps[0], i)
  {
    assert HornerAt(R, ps[1..], s, i) == R.Zero();
    MulZero(R, s);
    PlusZero(R.additive, Coeff(R, ps[0], i));
  }

  /** One step: scale what is in use, then add the next polynomial. */
  method HornerStep<T(!new)>(R: Ring<T>, res: array<T>, p: seq<T>, s: T, used: nat)
    requires IsRing(R) && used <= res.Length && |p| <= res.Length
    requires forall k | used <= k < res.Length :: res[k] == R.Zero()
    modifies res
    ensures forall k | 0 <= k < res.Length :: res[k] == R.Plus(Coeff(R, p, k), R.Mul(s, old(res[k])))
    ensures forall k | used <= k < res.Length && |p| <= k :: res[k] == R.Zero()
  {
    MulZero(R, s);
    PlusZero(R.additive, R.Zero());
    for i := 0 to used
      invariant forall k | 0 <= k < res.Length :: res[k] == if k < i then R.Mul(s, old(res[k])) else old(res[k])
    {
      MulComm(R, s, res[i]);
      res[i] := R.Mul(res[i], s);
    }
    ghost var mid := res[..];
    assert forall k | 0 <= k < res.Length :: mid[k] == R.Mul(s, old(res[k]));
    for i := 0 to |p|
      invariant forall k | 0 <= k < res.Length :: res[k] == if k < i then R.Plus(p[k], mid[k]) else mid[k]
    {
      PlusComm(R.additive, res[i], p[i]);
      res[i] := R.Plus(res[i], p[i]);
    }
    forall k | |p| <= k < res.Length ensures res[k] == R.Plus(Coeff(R, p, k), mid[k]) {
      PlusZero(R.additive, mid[k]);
      PlusComm(R.additive, mid[k], R.Zero());
    }
  }

  /** Horner's rule when all lengths are equal, the running power otherwise. */
  method LinearWithPowers<T(!new)>(R: Ring<T>, res: array<T>, ps: seq<seq<T>>, s: T)
    requires IsRing(R) && ps != [] && forall j | 0 <= j < |ps| :: |ps[j]| <= res.Length
    requires forall i | 0 <= i < res.Length :: res[i] == R.Zero()
    modifies res
    ensures res[..] == Linear(R, ps, s, res.Length, |ps|)
  {
    var max, min := |ps[0]|, |ps[0]|;
    for i := 1 to |ps| {
      max := if max < |ps[i]| then |ps[i]| else max;
      min := if |ps[i]| < min then |ps[i]| else min;
    }
    if max != min {
      LinearNaive(R, res, ps, s);
    } else {
      LinearHorner(R, res, ps, s);
    }
  }
}
