/** Exponentiation by squaring, and arrays of evaluations on roots of unity read with a stride. */
module Evaluations {
  import opened Algebra
  import opened Arith
  import opened Bits
  import opened Sums

  // ---- powers ----

  /** The number with the given bits, lowest first. */
  function BitsValue(bits: seq<bool>): nat {
    if bits == [] then 0 else (if bits[0] then 1 else 0) + 2 * BitsValue(bits[1..])
  }

  lemma {:induction false} TopBit(bits: seq<bool>)
    requires bits != [] && bits[|bits| - 1]
    ensures BitsValue(bits) > 0
  {
    if |bits| > 1 { TopBit(bits[1..]); }
  }

  /** 0 to the power 0, with the exponent given by at least one bit. */
  predicate ZeroToZero<T(==)>(R: Ring<T>, x: T, bits: seq<bool>) {
    x == R.Zero() && bits != [] && BitsValue(bits) == 0
  }

  /**
   * Status 2 is returned exactly for a base other than 0 and 1 and a top bit that is not set.  Otherwise the result
   * is the power if and only if it is not 0 to the power 0 with at least one bit, which gives 0.
   */
  method FrPow<T(!new, ==)>(R: Ring<T>, x: T, bits: seq<bool>) returns (out: T, status: nat)
    requires IsRing(R)
    ensures status == if bits != [] && x != R.Zero() && x != R.one && !bits[|bits| - 1] then 2 else 0
    ensures status == 0 && !ZeroToZero(R, x, bits) ==> out == Pow(R, x, BitsValue(bits))
    ensures ZeroToZero(R, x, bits) ==> out == R.Zero() && Pow(R, x, BitsValue(bits)) == R.one
    ensures status == 0 && R.one != R.Zero() ==> (out == Pow(R, x, BitsValue(bits)) <==> !ZeroToZero(R, x, bits))
  {
    if bits == [] { return R.one, 0; }
    if x == R.Zero() || x == R.one {
      if x == R.one {
        PowOne(R, BitsValue(bits));
      } else if BitsValue(bits) > 0 {
        PowZero(R, BitsValue(bits));
      }
      return x, 0;
    }
    if !bits[|bits| - 1] { return x, 2; }
    out := x;
    OneMul(R, x);
    assert Pow(R, x, 1) == R.Mul(Pow(R, x, 0), x);
    var i := |bits| - 1;
    assert bits[i..][1..] == [] && BitsValue(bits[i..]) == 1;
    while i > 0
      invariant 0 <= i < |bits| && out == Pow(R, x, BitsValue(bits[i..]))
    {
      ghost var e := BitsValue(bits[i..]);
      i := i - 1;
      assert bits[i..][1..] == bits[i + 1..];
      PowAddAs(R, x, e, e, e + e);
      out := R.Mul(out, out);
      if bits[i] { out := R.Mul(out, x); }
    }
    assert bits[0..] == bits;
    status := 0;
  }

  // ---- strided evaluations ----

  /** The array holds the values of f on the powers of w, a root of unity of the array's length. */
  ghost predicate ValuesOn<T>(R: Ring<T>, evals: seq<T>, f: T -> T, w: T) {
    Pow(R, w, |evals|) == R.one && forall k :: 0 <= k < |evals| ==> evals[k] == f(Pow(R, w, k))
  }

  function Strided(i: nat, gx: nat, step: nat, len: nat): (k: nat)
    requires len > 0
    ensures k < len
  {
    ((i + gx) * step) % len
  }

  /** The entry read for place i is the value at place i + gx of the smaller domain. */
  lemma {:induction false} StridedValue<T(!new)>(
      R: Ring<T>, evals: seq<T>, f: T -> T, w: T, v: T, step: nat, i: nat, gx: nat)
    requires IsRing(R) && evals != [] && ValuesOn(R, evals, f, w) && v == Pow(R, w, step)
    ensures evals[Strided(i, gx, step, |evals|)] == f(Pow(R, v, i + gx))
  {
    var n, m := |evals|, i + gx;
    PowMul(R, w, step, m);
    assert step * m == m * step;
    PowMod(R, w, n, m * step);
  }

  /** One evaluated polynomial: its values, the root of its domain, its shift, its coefficient and its exponent. */
  datatype Item<!T> = Item(evals: seq<T>, gx: nat, coeff: T, bits: seq<bool>, ghost f: T -> T, ghost w: T)

  /** The item's domain contains the smaller one: its root to the power of the stride is v. */
  ghost predicate Fits<T>(R: Ring<T>, it: Item<T>, size: nat, v: T) {
    && size > 0 && |it.evals| > 0 && |it.evals| == |it.evals| / size * size
    && ValuesOn(R, it.evals, it.f, it.w) && v == Pow(R, it.w, |it.evals| / size)
    && (it.bits == [] || it.bits[|it.bits| - 1])
  }

  ghost predicate AllFit<T>(R: Ring<T>, items: seq<Item<T>>, size: nat, v: T) {
    forall j :: 0 <= j < |items| ==> Fits(R, items[j], size, v)
  }

  /** The product of f_j(v^(i + gx_j))^e_j over the first n items. */
  ghost function ProductAt<T>(R: Ring<T>, items: seq<Item<T>>, v: T, i: nat, n: nat): T
    requires n <= |items|
  {
    if n == 0 then R.one
    else
      var it := items[n - 1];
      R.Mul(ProductAt(R, items, v, i, n - 1), Pow(R, it.f(Pow(R, v, i + it.gx)), BitsValue(it.bits)))
  }

  /** The constant plus the sum of c_j f_j(v^(i + gx_j)) over the first n items. */
  ghost function SumAt<T>(R: Ring<T>, items: seq<Item<T>>, v: T, c: T, i: nat, n: nat): T
    requires n <= |items|
  {
    if n == 0 then c
    else
      var it := items[n - 1];
      R.Plus(SumAt(R, items, v, c, i, n - 1), R.Mul(it.coeff, it.f(Pow(R, v, i + it.gx))))
  }

  /** The value an item contributes at place i. */
  method ReadAt<T(!new)>(R: Ring<T>, it: Item<T>, size: nat, i: nat, ghost v: T) returns (x: T)
    requires IsRing(R) && Fits(R, it, size, v)
    ensures x == it.f(Pow(R, v, i + it.gx))
  {
    var len := |it.evals|;
    var step := len / size;
    StridedValue(R, it.evals, it.f, it.w, v, step, i, it.gx);
    x := it.evals[Strided(i, it.gx, step, len)];
  }

  method PowerAt<T(!new, ==)>(R: Ring<T>, it: Item<T>, size: nat, i: nat, ghost v: T) returns (y: T)
    requires IsRing(R) && Fits(R, it, size, v)
    ensures y == Pow(R, it.f(Pow(R, v, i + it.gx)), BitsValue(it.bits))
  {
    var x := ReadAt(R, it, size, i, v);
    var status;
    y, status := FrPow(R, x, it.bits);
    if it.bits != [] { TopBit(it.bits); }
  }

  ghost predicate ProductsFrom<T>(R: Ring<T>, s: seq<T>, items: seq<Item<T>>, v: T, lo: nat, hi: nat, n: nat) {
    n <= |items| && hi <= |s| && forall k: nat | lo <= k < hi :: s[k] == ProductAt(R, items, v, k, n)
  }

  /** The first factor is stored rather than multiplied in. */
  method StoreFirst<T(!new, ==)>(R: Ring<T>, res: array<T>, items: seq<Item<T>>, ghost v: T)
    requires IsRing(R) && items != [] && res.Length > 0 && Fits(R, items[0], res.Length, v)
    modifies res
    ensures ProductsFrom(R, res[..], items, v, 0, res.Length, 1)
  {
    hide Fits, BitsValue, Pow;
    var size := res.Length;
    for i := 0 to size
      invariant ProductsFrom(R, res[..], items, v, 0, i, 1)
    {
      var y := PowerAt(R, items[0], size, i, v);
      OneMul(R, y);
      assert ProductAt(R, items, v, i, 1) == R.Mul(ProductAt(R, items, v, i, 0), y);
      res[i] := y;
    }
  }

  lemma {:induction false} ProductsStep<T>(
      R: Ring<T>, s: seq<T>, t: seq<T>, items: seq<Item<T>>, v: T, i: nat, size: nat, j: nat, y: T)
    requires i < size == |s| && j < |items| && t == s[i := R.Mul(s[i], y)]
    requires ProductsFrom(R, s, items, v, 0, i, j + 1) && ProductsFrom(R, s, items, v, i, size, j)
    requires y == Pow(R, items[j].f(Pow(R, v, i + items[j].gx)), BitsValue(items[j].bits))
    ensures ProductsFrom(R, t, items, v, 0, i + 1, j + 1) && ProductsFrom(R, t, items, v, i + 1, size, j)
  {
    hide Pow, BitsValue;
  }

  /** One more factor at every place. */
  method MultiplyIn<T(!new, ==)>(R: Ring<T>, res: array<T>, items: seq<Item<T>>, j: nat, ghost v: T)
    requires IsRing(R) && j < |items| && res.Length > 0 && Fits(R, items[j], res.Length, v)
    requires ProductsFrom(R, res[..], items, v, 0, res.Length, j)
    modifies res
    ensures ProductsFrom(R, res[..], items, v, 0, res.Length, j + 1)
  {
    hide Fits, BitsValue, Pow, ProductAt;
    var size := res.Length;
    for i := 0 to size
      invariant ProductsFrom(R, res[..], items, v, 0, i, j + 1)
      invariant ProductsFrom(R, res[..], items, v, i, size, j)
    {
      var tmp := PowerAt(R, items[j], size, i, v);
      assert res[i] == res[..][i] == ProductAt(R, items, v, i, j);
      ghost var s := res[..];
      res[i] := R.Mul(res[i], tmp);
      ProductsStep(R, s, res[..], items, v, i, size, j, tmp);
    }
  }

  /** The product of powers of shifted polynomials, on the smaller domain. */
  method EvaluationsMul<T(!new, ==)>(R: Ring<T>, res: array<T>, items: seq<Item<T>>, ghost v: T)
    requires IsRing(R) && items != [] && res.Length > 0 && AllFit(R, items, res.Length, v)
    modifies res
    ensures ProductsFrom(R, res[..], items, v, 0, res.Length, |items|)
  {
    hide Fits, ProductsFrom;
    StoreFirst(R, res, items, v);
    for j := 1 to |items|
      invariant ProductsFrom(R, res[..], items, v, 0, res.Length, j)
    {
      MultiplyIn(R, res, items, j, v);
    }
  }

  ghost predicate SumsFrom<T>(R: Ring<T>, s: seq<T>, items: seq<Item<T>>, v: T, c: T, lo: nat, hi: nat, n: nat) {
    n <= |items| && hi <= |s| && forall k: nat | lo <= k < hi :: s[k] == SumAt(R, items, v, c, k, n)
  }

  /** One summand: a plain addition for 1, a subtraction for -1. */
  method AddTerm<T(!new, ==)>(R: Ring<T>, acc: T, c: T, x: T) returns (y: T)
    requires IsRing(R)
    ensures y == R.Plus(acc, R.Mul(c, x))
  {
    OneMul(R, x);
    MulNeg(R, R.one, x);
    if c == R.one {
      y := R.Plus(acc, x);
    } else if c == R.MinusOne() {
      y := R.Minus(acc, x);
    } else {
      var tmp := R.Mul(c, x);
      y := R.Plus(acc, tmp);
    }
  }

  lemma {:induction false} SumsStep<T>(
      R: Ring<T>, s: seq<T>, t: seq<T>, items: seq<Item<T>>, v: T, c: T, i: nat, size: nat, j: nat, y: T)
    requires i < size == |s| && j < |items| && t == s[i := y]
    requires SumsFrom(R, s, items, v, c, 0, i, j + 1) && SumsFrom(R, s, items, v, c, i, size, j)
    requires y == R.Plus(SumAt(R, items, v, c, i, j), R.Mul(items[j].coeff, items[j].f(Pow(R, v, i + items[j].gx))))
    ensures SumsFrom(R, t, items, v, c, 0, i + 1, j + 1) && SumsFrom(R, t, items, v, c, i + 1, size, j)
  {
    hide Pow;
  }

  /** One more summand at every place. */
  method AddIn<T(!new, ==)>(R: Ring<T>, res: array<T>, items: seq<Item<T>>, j: nat, ghost c: T, ghost v: T)
    requires IsRing(R) && j < |items| && res.Length > 0 && Fits(R, items[j], res.Length, v)
    requires SumsFrom(R, res[..], items, v, c, 0, res.Length, j)
    modifies res
    ensures SumsFrom(R, res[..], items, v, c, 0, res.Length, j + 1)
  {
    hide Fits, Pow, SumAt;
    var size := res.Length;
    for i := 0 to size
      invariant SumsFrom(R, res[..], items, v, c, 0, i, j + 1)
      invariant SumsFrom(R, res[..], items, v, c, i, size, j)
    {
      var x := ReadAt(R, items[j], size, i, v);
      assert res[i] == res[..][i] == SumAt(R, items, v, c, i, j);
      ghost var s := res[..];
      var y := AddTerm(R, res[i], items[j].coeff, x);
      res[i] := y;
      SumsStep(R, s, res[..], items, v, c, i, size, j, y);
    }
  }

  /** The linear combination of shifted polynomials, on the smaller domain. */
  method EvaluationsLinear<T(!new, ==)>(R: Ring<T>, res: array<T>, items: seq<Item<T>>, c: T, ghost v: T)
    requires IsRing(R) && res.Length > 0 && AllFit(R, items, res.Length, v)
    modifies res
    ensures SumsFrom(R, res[..], items, v, c, 0, res.Length, |items|)
  {
    hide Fits, Pow;
    var size := res.Length;
    for i := 0 to size
      invariant SumsFrom(R, res[..], items, v, c, 0, i, 0)
    {
      res[i] := c;
    }
    for j := 0 to |items|
      invariant SumsFrom(R, res[..], items, v, c, 0, size, j)
    {
      AddIn(R, res, items, j, c, v);
    }
  }

  // ---- the same as sums and products ----

  /** What the sums hold: the constant plus the sum of the scaled values. */
  lemma {:induction false} SumIsSum<T(!new)>(R: Ring<T>, items: seq<Item<T>>, v: T, c: T, i: nat, n: nat, g: int -> T)
    requires IsRing(R) && n <= |items|
    requires forall j | 0 <= j < n :: g(j) == R.Mul(items[j].coeff, items[j].f(Pow(R, v, i + items[j].gx)))
    ensures SumAt(R, items, v, c, i, n) == R.Plus(c, Sum(R.additive, n, g))
  {
    hide Pow;
    var A := R.additive;
    if n == 0 {
      PlusZero(A, c);
    } else {
      SumIsSum(R, items, v, c, i, n - 1, g);
      PlusAssoc(A, c, Sum(A, n - 1, g), g(n - 1));
    }
  }

  /** What the products hold: the product of the powers, as a sum in the multiplicative structure. */
  lemma {:induction false} ProductIsProduct<T(!new)>(
      R: Ring<T>, items: seq<Item<T>>, v: T, i: nat, n: nat, exps: seq<nat>, g: int -> T)
    requires n <= |items| == |exps| && forall j | 0 <= j < n :: Binary(items[j].bits, exps[j])
    requires forall j | 0 <= j < n :: g(j) == Pow(R, items[j].f(Pow(R, v, i + items[j].gx)), exps[j])
    ensures ProductAt(R, items, v, i, n) == Sum(Group(R.one, R.times, R.recip), n, g)
  {
    hide Pow, Binary, BitsValue;
    if n > 0 {
      ProductIsProduct(R, items, v, i, n - 1, exps, g);
      BinaryIsValue(items[n - 1].bits, exps[n - 1]);
    }
  }

  /** The number whose bits, from the lowest on, these are. */
  ghost predicate Binary(bits: seq<bool>, e: nat) {
    e < Pow2(|bits|) && forall k | 0 <= k < |bits| :: bits[k] == (e / Pow2(k) % 2 == 1)
  }

  lemma {:induction false} BinaryIsValue(bits: seq<bool>, e: nat)
    requires Binary(bits, e)
    ensures BitsValue(bits) == e
    decreases bits
  {
    if bits != [] {
      var rest, h := bits[1..], e / 2;
      assert bits[0] == (e / Pow2(0) % 2 == 1);
      forall k | 0 <= k < |rest| ensures rest[k] == (h / Pow2(k) % 2 == 1) {
        assert rest[k] == bits[k + 1];
        DivTwice(e, 2, Pow2(k));
      }
      BinaryIsValue(rest, h);
    }
  }
}
