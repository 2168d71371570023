/** The naive transform and the prime-factor (Good-Thomas) transform of bls12_381_polynomial_fft.c. */
module PrimeFactor {
  import opened Algebra
  import opened Arith
  import opened Sums
  import opened Bits
  import opened Dft
  import opened Fft
  import opened Crt

  // ----- dft_inplace -----

  /** Reading the root table at i j modulo the length, backwards for the inverse. */
  method DftRoot<S(!new)>(
      R: Ring<S>, domain: seq<S>, length: nat, i: nat, j: nat, inverse: bool, ghost w: S, ghost v: S)
    returns (root: S)
    requires IsRing(R) && length > 0 && RootTable(R, domain, w, length) && Pow(R, w, length) == R.one
    requires v == RootFor(R, w, length, inverse)
    ensures root == Pow(R, v, i * j)
  {
    var idx := (i * j) % length;
    PowMod(R, w, length, i * j);
    if inverse {
      PowMul(R, w, length - 1, length);
      PowMul(R, w, length, length - 1);
      PowOne(R, length - 1);
      assert (length - 1) * length == length * (length - 1);
      PowMod(R, v, length, i * j);
    }
    if inverse && idx != 0 {
      TwiddleIndex(R, w, length, idx);
      idx := length - idx;
    }
    root := domain[idx];
  }

  /** The inner loop: one value of the transform, accumulated in place. */
  method DftEntry<S(!new), G(!new)>(
      V: Space<S, G>, a: array<G>, at: nat, domain: seq<S>, buffer: array<G>, length: nat, i: nat, inverse: bool,
      ghost w: S, ghost v: S, ghost c: seq<G>)
    requires IsSpace(V) && length > 0 && RootTable(V.ring, domain, w, length) && Pow(V.ring, w, length) == V.ring.one
    requires v == RootFor(V.ring, w, length, inverse)
    requires at < a.Length && a != buffer && length <= buffer.Length && c == buffer[..length]
    modifies a
    ensures a[at] == DftAt(V, c, v, length, i)
    ensures forall p | 0 <= p < a.Length && p != at :: a[p] == old(a[p])
  {
    a[at] := V.group.zero;
    for j := 0 to length
      invariant c == buffer[..length]
      invariant a[at] == Sum(V.group, j, Terms(V, c, v, i))
      invariant forall p | 0 <= p < a.Length && p != at :: a[p] == old(a[p])
    {
      var root := DftRoot(V.ring, domain, length, i, j, inverse, w, v);
      var tmp := V.Scale(root, buffer[j]);
      assert buffer[j] == c[j];
      a[at] := V.group.Plus(a[at], tmp);
    }
  }

  /** dft_inplace: the transform by its definition; the coefficients are first copied to a buffer. */
  method DftInplace<S(!new), G(!new)>(
      V: Space<S, G>, a: array<G>, off: nat, domain: seq<S>, buffer: array<G>, length: nat, inverse: bool,
      ghost w: S, ghost end: nat)
    requires IsSpace(V) && length > 0 && RootTable(V.ring, domain, w, length) && Pow(V.ring, w, length) == V.ring.one
    requires a != buffer && length <= buffer.Length && end == off + length <= a.Length
    modifies a, buffer
    ensures a[off..end] == TransformFor(V, old(a[off..end]), w, length, inverse)
    ensures forall p | 0 <= p < off || end <= p < a.Length :: a[p] == old(a[p])
  {
    ghost var c, v := a[off..end], RootFor(V.ring, w, length, inverse);
    forall i | 0 <= i < length {
      buffer[i] := a[off + i];
    }
    assert buffer[..length] == c;
    ghost var X := Transform(V, c, v, length);
    for i := 0 to length
      invariant buffer[..length] == c
      invariant forall p | off <= p < off + i :: a[p] == X[p - off]
      invariant forall p | 0 <= p < off || end <= p < a.Length :: a[p] == old(a[p])
    {
      DftEntry(V, a, off + i, domain, buffer, length, i, inverse, w, v, c);
    }
    assert a[off..end] == X;
    if inverse {
      ScaleAll(V, a, off, length, V.ring.Inv(OfNat(V.ring, length)), end);
    }
  }

  // ----- the Good-Thomas identity -----

  /** The exponents of the two short transforms combine to that of the long one. */
  lemma {:induction false} CombinedRoot<S(!new)>(R: Ring<S>, W: S, n1: nat, n2: nat, i: nat, j: nat, t: nat, k: nat)
    requires IsRing(R) && n1 > 0 && n2 > 0 && Pow(R, W, n1 * n2) == R.one && k == OutIndex(n1, n2, i, j)
    ensures R.Mul(Pow(R, Pow(R, W, n2), i * (t % n1)), Pow(R, Pow(R, W, n1), j * (t % n2))) == Pow(R, W, k * t)
  {
    hide Pow;
    NatProduct(n1, n2);
    NatProduct(n1, j);
    NatProduct(n2, i);
    NatProduct(t, i);
    NatProduct(t, j);
    NatProduct(n2, t * i);
    NatProduct(n1, t * j);
    var n, s, x, y := n1 * n2, n1 * j + n2 * i, n2 * (t * i), n1 * (t * j);
    NatProduct(s, t);
    NatProduct(k, t);
    ShortRoot(R, W, n2, n1, i, t, n);
    ShortRoot(R, W, n1, n2, j, t, n);
    CombinedExponent(n1, n2, i, j, t);
    JoinedExponent(R, W, n, s, t, k, x, y, s * t, k * t);
  }

  lemma {:induction false} JoinedExponent<S(!new)>(
      R: Ring<S>, W: S, n: nat, s: nat, t: nat, k: nat, x: nat, y: nat, st: nat, kt: nat)
    requires IsRing(R) && n > 0 && Pow(R, W, n) == R.one
    requires k == s % n && st == s * t && kt == k * t && x + y == st
    ensures R.Mul(Pow(R, W, x), Pow(R, W, y)) == Pow(R, W, kt)
  {
    hide Pow;
    PowAddAs(R, W, x, y, st);
    PowMulAs(R, W, s, t, st);
    PowMod(R, W, n, s);
    PowMulAs(R, W, k, t, kt);
  }

  lemma {:induction false} CombinedExponent(n1: nat, n2: nat, i: nat, j: nat, t: nat)
    ensures n2 * (t * i) + n1 * (t * j) == (n1 * j + n2 * i) * t
  {
    assert n2 * (t * i) == (n2 * i) * t && n1 * (t * j) == (n1 * j) * t;
  }

  lemma {:induction false} ShortRoot<S(!new)>(R: Ring<S>, W: S, a: nat, b: nat, i: nat, t: nat, n: nat)
    requires IsRing(R) && b > 0 && n == a * b && Pow(R, W, n) == R.one
    ensures Pow(R, Pow(R, W, a), i * (t % b)) == Pow(R, W, a * (t * i))
  {
    MulMono(t, 0, i);
    var w, r, e := Pow(R, W, a), t % b, t * i;
    PowMul(R, W, a, b);
    PowMod(R, w, b, t);
    SwapExponent(R, w, r, i);
    PowMul(R, w, t, i);
    PowMul(R, W, a, e);
  }

  lemma {:induction false} SwapExponent<S(!new)>(R: Ring<S>, w: S, r: nat, i: nat)
    requires IsRing(R)
    ensures Pow(R, Pow(R, w, r), i) == Pow(R, w, i * r)
  {
    PowMul(R, w, r, i);
    assert r * i == i * r;
  }

  ghost function FromRemainders(n1: nat, n2: nat, i: nat, j: nat): (t: nat)
    requires Coprime(n1, n2) && i < n1 && j < n2
    ensures t < n1 * n2 && t % n1 == i && t % n2 == j
  {
    RemaindersExist(n1, n2, i, j);
    var t: nat :| t < n1 * n2 && t % n1 == i && t % n2 == j;
    t
  }

  lemma {:induction false} RemaindersExist(n1: nat, n2: nat, i: nat, j: nat)
    requires Coprime(n1, n2) && i < n1 && j < n2
    ensures exists t: nat :: t < n1 * n2 && t % n1 == i && t % n2 == j
  {
    var t := RemaindersReached(n1, n2, i, j);
  }

  /** Where coefficient `t` goes in the two-dimensional buffer. */
  function InIndex(n1: nat, n2: nat, t: nat): nat
    requires n1 > 0 && n2 > 0
  {
    (t % n1) * n2 + t % n2
  }

  lemma {:induction false} InIndexBound(n1: nat, n2: nat, t: nat)
    requires n1 > 0 && n2 > 0
    ensures InIndex(n1, n2, t) < n1 * n2
    ensures InIndex(n1, n2, t) / n2 == t % n1 && InIndex(n1, n2, t) % n2 == t % n2
  {
    var r := t % n1;
    assert r * n2 + n2 <= n1 * n2 by {
      MulMono(n2, r + 1, n1);
      assert n2 * (r + 1) == r * n2 + n2;
    }
    assert n2 * r == r * n2;
    DivModUnique(InIndex(n1, n2, t), n2, r, t % n2);
  }

  /** Summing over all index pairs is summing over all indices: the input map is a permutation. */
  lemma {:induction false} SumOverPairs<G(!new)>(
      A: Group<G>, n1: nat, n2: nat, F: (int, int) -> G, rows: int -> G, h: int -> G)
    requires IsGroup(A) && n1 > 0 && n2 > 0 && Coprime(n1, n2)
    requires forall i | 0 <= i < n1 :: rows(i) == Sum(A, n2, j => F(i, j))
    requires forall t | 0 <= t < n1 * n2 :: h(t) == F(t % n1, t % n2)
    ensures Sum(A, n1, rows) == Sum(A, n1 * n2, h)
  {
    hide FlatOf;
    var f := FlatOf(F, n2);
    forall i | 0 <= i < n1
      ensures rows(i) == Sum(A, n2, j => f(i * n2 + j))
    {
      FlatRow(A, n2, F, f, i);
    }
    SumRows(A, n1, n2, f, rows);
    NatProduct(n1, n2);
    PairsReindexed(A, n1, n2, n1 * n2, F, f, h);
  }

  /** The index pairs laid out row by row. */
  ghost function FlatOf<G>(F: (int, int) -> G, n2: nat): int -> G
    requires n2 > 0
  {
    u => F(u / n2, u % n2)
  }

  lemma {:induction false} FlatRow<G>(A: Group<G>, n2: nat, F: (int, int) -> G, f: int -> G, i: nat)
    requires n2 > 0 && f == FlatOf(F, n2)
    ensures Sum(A, n2, j => F(i, j)) == Sum(A, n2, j => f(i * n2 + j))
  {
    forall j | 0 <= j < n2
      ensures f(i * n2 + j) == F(i, j)
    {
      assert i * n2 == n2 * i;
      DivModUnique(i * n2 + j, n2, i, j);
    }
    SumCong(A, n2, j => F(i, j), j => f(i * n2 + j));
  }

  lemma {:induction false} PairsReindexed<G(!new)>(
      A: Group<G>, n1: nat, n2: nat, n: nat, F: (int, int) -> G, f: int -> G, h: int -> G)
    requires IsGroup(A) && n1 > 0 && n2 > 0 && Coprime(n1, n2) && n == n1 * n2 && f == FlatOf(F, n2)
    requires forall t | 0 <= t < n :: h(t) == F(t % n1, t % n2)
    ensures Sum(A, n, f) == Sum(A, n, h)
  {
    var p: int -> int := t => if t < 0 then 0 else InIndex(n1, n2, t);
    var q: int -> int := u => if 0 <= u < n then InverseIndex(n1, n2, u) else 0;
    forall t: nat | t < n
      ensures 0 <= p(t) < n && q(p(t)) == t && h(t) == f(p(t))
    {
      ThereAndBack(n1, n2, n, t, InIndex(n1, n2, t));
    }
    forall u: nat | u < n
      ensures 0 <= q(u) < n && p(q(u)) == u
    {
      hide InIndex, InverseIndex;
      InverseIndexFacts(n1, n2, u);
    }
    SumReindex(A, n, f, h, p, q);
  }

  lemma {:induction false} ThereAndBack(n1: nat, n2: nat, n: nat, t: nat, u: nat)
    requires n1 > 0 && n2 > 0 && Coprime(n1, n2) && n == n1 * n2 && t < n && u == InIndex(n1, n2, t)
    ensures u < n && u / n2 == t % n1 && u % n2 == t % n2 && InverseIndex(n1, n2, u) == t
  {
    InIndexBound(n1, n2, t);
    InverseIndexFacts(n1, n2, u);
    SameRemainders(n1, n2, InverseIndex(n1, n2, u), t);
  }

  ghost function InverseIndex(n1: nat, n2: nat, u: nat): nat
    requires n1 > 0 && n2 > 0 && Coprime(n1, n2) && u < n1 * n2
  {
    QuotientBound(n1, n2, u);
    FromRemainders(n1, n2, u / n2, u % n2)
  }

  lemma {:induction false} QuotientBound(n1: nat, n2: nat, u: nat)
    requires n2 > 0 && u < n1 * n2
    ensures u / n2 < n1
  {
    if u / n2 >= n1 {
      MulMono(n2, n1, u / n2);
    }
  }

  lemma {:induction false} InverseIndexFacts(n1: nat, n2: nat, u: nat)
    requires n1 > 0 && n2 > 0 && Coprime(n1, n2) && u < n1 * n2
    ensures var t := InverseIndex(n1, n2, u);
            t < n1 * n2 && t % n1 == u / n2 && t % n2 == u % n2 && InIndex(n1, n2, t) == u
  {
    QuotientBound(n1, n2, u);
    assert (u / n2) * n2 + u % n2 == u;
  }

  /** The short transforms of the columns of the short transforms of the rows: value (i, j). */
  lemma {:induction false} GoodThomas<S(!new), G(!new)>(
      V: Space<S, G>, c: seq<G>, W: S, n1: nat, n2: nat, i: nat, j: nat, k: nat, F: (int, int) -> G, rows: int -> G)
    requires IsSpace(V) && n1 > 0 && n2 > 0 && Coprime(n1, n2) && |c| == n1 * n2
    requires Pow(V.ring, W, n1 * n2) == V.ring.one && k == OutIndex(n1, n2, i, j)
    requires forall t | 0 <= t < n1 * n2 ::
               F(t % n1, t % n2) == V.Scale(Pow(V.ring, Pow(V.ring, W, n2), i * (t % n1)),
                                            V.Scale(Pow(V.ring, Pow(V.ring, W, n1), j * (t % n2)), c[t]))
    requires forall a | 0 <= a < n1 :: rows(a) == Sum(V.group, n2, b => F(a, b))
    ensures Sum(V.group, n1, rows) == DftAt(V, c, W, n1 * n2, k)
  {
    var h := Terms(V, c, W, k);
    forall t | 0 <= t < n1 * n2
      ensures h(t) == F(t % n1, t % n2)
    {
      CombinedRoot(V.ring, W, n1, n2, i, j, t, k);
      ScaleMul(V, Pow(V.ring, Pow(V.ring, W, n2), i * (t % n1)),
               Pow(V.ring, Pow(V.ring, W, n1), j * (t % n2)), c[t]);
    }
    SumOverPairs(V.group, n1, n2, F, rows, h);
  }

  // ----- fft_round -----

  /** A root both transforms accept: the fast one needs a half turn when the length is a power of two. */
  ghost predicate UsableRoot<S>(R: Ring<S>, w: S, n: nat) {
    && n > 0
    && Pow(R, w, n) == R.one
    && forall l: nat | n == Pow2(l) :: HalfTurn(R, w, l)
  }

  /** In a field, a primitive root is usable: a square root of one other than one is minus one. */
  lemma {:induction false} PrimitiveIsUsable<S(!new)>(R: Ring<S>, w: S, n: nat)
    requires IsField(R)
    requires n > 0 && Pow(R, w, n) == R.one
    requires forall d | 0 < d < n :: Pow(R, w, d) != R.one
    ensures UsableRoot(R, w, n)
  {
    forall l: nat | n == Pow2(l)
      ensures HalfTurn(R, w, l)
    {
      if l == 0 {
        OneMul(R, w);
        assert Pow(R, w, 1) == R.Mul(Pow(R, w, 0), w);
      } else {
        var h := Pow2(l - 1);
        PowAdd(R, w, h, h);
        SquareRootOfOne(R, Pow(R, w, h));
      }
    }
  }

  /** Row `i` of `y` is the transform of row `i` of `x`. */
  ghost predicate RowDone<S, G>(
      V: Space<S, G>, x: seq<G>, y: seq<G>, off: nat, i: nat, len: nat, w: S, inverse: bool) {
    RowDoneAt(V, x, y, off + Ix(i, len, 0), len, w, inverse)
  }

  ghost predicate RowDoneAt<S, G>(V: Space<S, G>, x: seq<G>, y: seq<G>, base: nat, len: nat, w: S, inverse: bool) {
    && len > 0
    && base + len <= |x| == |y|
    && y[base..base + len] == TransformFor(V, x[base..base + len], w, len, inverse)
  }

  ghost predicate RowsDone<S, G>(
      V: Space<S, G>, x: seq<G>, y: seq<G>, off: nat, count: nat, len: nat, w: S, inverse: bool) {
    forall i: nat | i < count :: RowDone(V, x, y, off, i, len, w, inverse)
  }

  lemma {:induction false} RowsKept<S, G>(
      V: Space<S, G>, x: seq<G>, y: seq<G>, z: seq<G>, off: nat, count: nat, len: nat, w: S, inverse: bool,
      base: nat, stop: nat)
    requires RowsDone(V, x, y, off, count, len, w, inverse) && len > 0
    requires base == off + Ix(count, len, 0) && stop == base + len <= |x| == |y| == |z|
    requires forall p | 0 <= p < base :: z[p] == y[p]
    requires x[base..stop] == y[base..stop]
    requires z[base..stop] == TransformFor(V, y[base..stop], w, len, inverse)
    ensures RowsDone(V, x, z, off, count + 1, len, w, inverse)
  {
    hide TransformFor;
    forall i: nat | i < count + 1
      ensures RowDone(V, x, z, off, i, len, w, inverse)
    {
      if i < count {
        assert RowDone(V, x, y, off, i, len, w, inverse);
        IxLess(i, len, len - 1, count);
        IxOffset(i, len, len - 1);
        var b := off + Ix(i, len, 0);
        assert z[b..b + len] == y[b..b + len];
      }
    }
  }

  /** One call of the fast or the naive transform, as fft_round chooses. */
  method TransformRow<S(!new), G(!new)>(
      V: Space<S, G>, buffer: array<G>, base: nat, domain: seq<S>, length: nat, bufferDft: array<G>, inverse: bool,
      isPower: bool, log: nat, ghost w: S, ghost end: nat)
    requires IsSpace(V) && UsableRoot(V.ring, w, length) && RootTable(V.ring, domain, w, length)
    requires isPower ==> length == Pow2(log)
    requires !isPower ==> length <= bufferDft.Length
    requires buffer != bufferDft && end == base + length <= buffer.Length
    modifies buffer, bufferDft
    ensures buffer[base..end] == TransformFor(V, old(buffer[base..end]), w, length, inverse)
    ensures forall p | 0 <= p < base || end <= p < buffer.Length :: buffer[p] == old(buffer[p])
  {
    if isPower {
      if inverse {
        IfftInplace(V, buffer, base, domain, log, w, end);
      } else {
        FftInplace(V, buffer, base, domain, log, log, w, end, end);
      }
    } else {
      DftInplace(V, buffer, base, domain, bufferDft, length, inverse, w, end);
    }
  }

  /** The first `count` rows are transformed, and nothing after them is changed. */
  ghost predicate RoundSoFar<S, G>(
      V: Space<S, G>, x: seq<G>, y: seq<G>, off: nat, count: nat, len: nat, w: S, inverse: bool, done: nat) {
    && done == off + Ix(count, len, 0) <= |x| == |y|
    && RowsDone(V, x, y, off, count, len, w, inverse)
    && forall p | 0 <= p < off || done <= p < |x| :: y[p] == x[p]
  }

  /** Row i is transformed in place. */
  method RoundRow<S(!new), G(!new)>(
      V: Space<S, G>, buffer: array<G>, off: nat, domain2: seq<S>, i: nat, length2: nat, bufferDft: array<G>,
      inverse: bool, isPower: bool, log: nat, ghost w: S, ghost x: seq<G>, ghost done: nat, ghost stop: nat)
    requires IsSpace(V) && UsableRoot(V.ring, w, length2) && RootTable(V.ring, domain2, w, length2)
    requires isPower ==> length2 == Pow2(log)
    requires !isPower ==> length2 <= bufferDft.Length
    requires buffer != bufferDft && stop == done + length2 <= buffer.Length
    requires RoundSoFar(V, x, buffer[..], off, i, length2, w, inverse, done)
    modifies buffer, bufferDft
    ensures RoundSoFar(V, x, buffer[..], off, i + 1, length2, w, inverse, stop)
  {
    assert length2 > 0;
    IxSucc(i, length2);
    IxProduct(i, length2, 0);
    hide RowsDone, TransformFor, UsableRoot, RootTable, Pow, Ix, Pow2, IsSpace;
    ghost var y := buffer[..];
    NatProduct(i, length2);
    var base: nat := off + i * length2;
    assert x[base..stop] == y[base..stop] == buffer[base..stop];
    TransformRow(V, buffer, base, domain2, length2, bufferDft, inverse, isPower, log, w, stop);
    ghost var z := buffer[..];
    assert z[base..stop] == buffer[base..stop];
    RowsKept(V, x, y, z, off, i, length2, w, inverse, base, stop);
  }

  /** fft_round: every row of `length2` entries is transformed. */
  method FftRound<S(!new), G(!new)>(
      V: Space<S, G>, buffer: array<G>, off: nat, domain2: seq<S>, length1: nat, length2: nat, bufferDft: array<G>,
      inverse: bool, ghost w: S, ghost end: nat)
    requires IsSpace(V) && UsableRoot(V.ring, w, length2) && RootTable(V.ring, domain2, w, length2)
    requires IsPow2(length2) || length2 <= bufferDft.Length
    requires buffer != bufferDft && end == off + Ix(length1, length2, 0) <= buffer.Length
    modifies buffer, bufferDft
    ensures RowsDone(V, old(buffer[..]), buffer[..], off, length1, length2, w, inverse)
    ensures forall p | 0 <= p < off || end <= p < buffer.Length :: buffer[p] == old(buffer[p])
  {
    var isPower := IsPowerOfTwo(length2);
    var log := Log2(length2);
    if isPower {
      LogOfPower(length2, log);
    }
    ghost var x, done := buffer[..], off;
    assert length2 > 0 && RoundSoFar(V, x, x, off, 0, length2, w, inverse, off);
    for i := 0 to length1
      invariant RoundSoFar(V, x, buffer[..], off, i, length2, w, inverse, done)
    {
      hide RowsDone, UsableRoot, RootTable, Pow, Pow2, IsSpace;
      ghost var stop := RowBounds(off, i, length2, length1);
      RoundRow(V, buffer, off, domain2, i, length2, bufferDft, inverse, isPower, log, w, x, done, stop);
      done := stop;
    }
  }

  /** Where row i ends. */
  lemma {:induction false} RowBounds(off: nat, i: nat, len: nat, count: nat) returns (stop: nat)
    requires i < count && len > 0
    ensures off + i * len == off + Ix(i, len, 0) && stop == off + Ix(i, len, 0) + len == off + Ix(i + 1, len, 0)
    ensures stop <= off + Ix(count, len, 0) && Ix(0, len, 0) == 0
  {
    IxLess(i, len, len - 1, count);
    IxOffset(i, len, len - 1);
    IxProduct(i, len, 0);
    stop := off + Ix(i, len, 0) + len;
    IxSucc(i, len);
  }

  lemma {:induction false} IxSucc(i: nat, len: nat)
    ensures Ix(i + 1, len, 0) == Ix(i, len, 0) + len
  {
  }

  lemma {:induction false} LogOfPower(n: nat, l: nat)
    requires IsPow2(n) && Pow2(l) <= n < Pow2(l + 1)
    ensures n == Pow2(l)
  {
    var k: nat :| n == Pow2(k);
    if k < l {
      Pow2Strict(k, l);
    } else if k > l + 1 {
      Pow2Strict(l + 1, k);
    }
  }

  // ----- two rounds make the long transform -----

  /** The factor a transform multiplies with. */
  function LengthFactor<S>(R: Ring<S>, n: nat, inverse: bool): S {
    if inverse then R.Inv(OfNat(R, n)) else R.one
  }

  lemma {:induction false} TransformEntry<S(!new), G(!new)>(
      V: Space<S, G>, c: seq<G>, w: S, n: nat, inverse: bool, k: nat)
    requires IsSpace(V) && k < n
    ensures TransformFor(V, c, w, n, inverse)[k] ==
            V.Scale(LengthFactor(V.ring, n, inverse), DftAt(V, c, RootFor(V.ring, w, n, inverse), n, k))
  {
    ScaleOne(V, DftAt(V, c, RootFor(V.ring, w, n, inverse), n, k));
  }

  /** The inverse of the short root is the power of the inverse of the long one. */
  lemma {:induction false} RootsMatch<S(!new)>(R: Ring<S>, W: S, a: nat, b: nat, n: nat, inverse: bool)
    requires IsRing(R) && a > 0 && b > 0 && n == a * b && n > 0 && Pow(R, W, n) == R.one
    ensures RootFor(R, Pow(R, W, a), b, inverse) == Pow(R, RootFor(R, W, n, inverse), a)
    ensures Pow(R, RootFor(R, W, n, inverse), n) == R.one
  {
    if inverse {
      PowMul(R, W, a, b - 1);
      assert a * (b - 1) == n - a;
      MulMono(a, 1, b);
      TwiddleIndex(R, W, n, a);
      SwapExponent(R, W, n - 1, n);
      SwapExponent(R, W, n, n - 1);
      PowOne(R, n - 1);
      assert n * (n - 1) == (n - 1) * n;
    }
  }

  lemma {:induction false} OfNatMul<S(!new)>(R: Ring<S>, m: nat, n: nat)
    requires IsRing(R)
    ensures OfNat(R, m * n) == R.Mul(OfNat(R, m), OfNat(R, n))
  {
    if n == 0 {
      MulZero(R, OfNat(R, m));
      assert m * 0 == 0;
    } else {
      OfNatMul(R, m, n - 1);
      Distrib(R, OfNat(R, m), OfNat(R, n - 1), R.one);
      OneMul(R, OfNat(R, m));
      OfNatAdd(R, m * (n - 1), m);
      assert m * (n - 1) + m == m * n;
    }
  }

  lemma {:induction false} OfNatAdd<S(!new)>(R: Ring<S>, m: nat, n: nat)
    requires IsRing(R)
    ensures OfNat(R, m + n) == R.Plus(OfNat(R, m), OfNat(R, n))
  {
    if n == 0 {
      PlusZero(R.additive, OfNat(R, m));
    } else {
      OfNatAdd(R, m, n - 1);
      PlusAssoc(R.additive, OfNat(R, m), OfNat(R, n - 1), R.one);
    }
  }

  /** In a field where the length is not zero, the inverses of the lengths multiply. */
  lemma {:induction false} FactorsMultiply<S(!new)>(R: Ring<S>, n1: nat, n2: nat, inverse: bool)
    requires IsRing(R)
    requires inverse ==> IsField(R) && OfNat(R, n1 * n2) != R.Zero()
    ensures R.Mul(LengthFactor(R, n1, inverse), LengthFactor(R, n2, inverse)) == LengthFactor(R, n1 * n2, inverse)
  {
    OneMul(R, R.one);
    if inverse {
      var x, y := OfNat(R, n1), OfNat(R, n2);
      OfNatMul(R, n1, n2);
      MulZero(R, x);
      MulZero(R, y);
      MulInv(R, x);
      MulInv(R, y);
      MulInv(R, R.Mul(x, y));
      var i, j, k := R.Inv(x), R.Inv(y), R.Inv(R.Mul(x, y));
      // i j == (i j) (x y) k == k
      MulAssoc(R, R.Mul(i, j), R.Mul(x, y), k);
      MulSwap4(R, i, j, x, y);
      OneMul(R, R.Mul(i, j));
      OneMul(R, R.one);
      OneMul(R, k);
    }
  }

  /** Transforming the rows and then column `j` gives the entries OutIndex(i, j) of the long transform. */
  lemma {:induction false} TwoRounds<S(!new), G(!new)>(
      V: Space<S, G>, c: seq<G>, W: S, n1: nat, n2: nat, inverse: bool, x: seq<seq<G>>, z: seq<G>,
      i: nat, j: nat, k: nat, n: nat)
    requires IsSpace(V) && n1 > 0 && n2 > 0 && Coprime(n1, n2) && |c| == n == n1 * n2
    requires Pow(V.ring, W, n) == V.ring.one
    requires inverse ==> IsField(V.ring) && OfNat(V.ring, n) != V.ring.Zero()
    requires |x| == n1 && forall a | 0 <= a < n1 :: |x[a]| == n2
    requires forall t | 0 <= t < n :: c[t] == x[t % n1][t % n2]
    requires i < n1 && j < n2 && k == OutIndex(n1, n2, i, j) && |z| == n1
    requires forall a | 0 <= a < n1 :: z[a] == TransformFor(V, x[a], Pow(V.ring, W, n1), n2, inverse)[j]
    ensures k < n && n > 0
    ensures TransformFor(V, z, Pow(V.ring, W, n2), n1, inverse)[i] == TransformFor(V, c, W, n, inverse)[k]
  {
    MulMono(n1, 1, n2);
    var R, A, v := V.ring, V.group, RootFor(V.ring, W, n, inverse);
    var v1, v2 := Pow(R, v, n2), Pow(R, v, n1);
    assert n == n2 * n1;
    RootsMatch(R, W, n2, n1, n, inverse);
    RootsMatch(R, W, n1, n2, n, inverse);
    var f1, f2 := LengthFactor(R, n1, inverse), LengthFactor(R, n2, inverse);
    FactorsMultiply(R, n1, n2, inverse);
    var F := GridTerms(V, x, v1, v2, i, j);
    var rows: int -> G := a => Sum(A, n2, b => F(a, b));
    forall a | 0 <= a < n1
      ensures Terms(V, z, v1, i)(a) == V.Scale(f2, rows(a))
    {
      TransformEntry(V, x[a], Pow(R, W, n1), n2, inverse, j);
      RowTerm(V, x, v1, v2, i, j, a, f2, n2, b => F(a, b));
    }
    ScaleOfSum(V, f2, n1, rows, Terms(V, z, v1, i));
    GoodThomas(V, c, v, n1, n2, i, j, k, F, rows);
    TransformEntry(V, z, Pow(R, W, n2), n1, inverse, i);
    TransformEntry(V, c, W, n, inverse, k);
    ScaleMul(V, f1, f2, DftAt(V, c, v, n, k));
  }

  function GridTerms<S, G>(V: Space<S, G>, x: seq<seq<G>>, v1: S, v2: S, i: nat, j: nat): (int, int) -> G {
    (a, b) => if 0 <= a < |x| && 0 <= b < |x[a]|
              then V.Scale(Pow(V.ring, v1, i * a), V.Scale(Pow(V.ring, v2, j * b), x[a][b]))
              else V.group.zero
  }

  /** One term of the outer sum, with the factor of the inner transform pulled out. */
  lemma {:induction false} RowTerm<S(!new), G(!new)>(
      V: Space<S, G>, x: seq<seq<G>>, v1: S, v2: S, i: nat, j: nat, a: nat, f: S, n2: nat, row: int -> G)
    requires IsSpace(V) && a < |x| && |x[a]| == n2
    requires forall b | 0 <= b < n2 ::
               row(b) == V.Scale(Pow(V.ring, v1, i * a), V.Scale(Pow(V.ring, v2, j * b), x[a][b]))
    ensures V.Scale(Pow(V.ring, v1, i * a), V.Scale(f, DftAt(V, x[a], v2, n2, j))) == V.Scale(f, Sum(V.group, n2, row))
  {
    var s, d := Pow(V.ring, v1, i * a), DftAt(V, x[a], v2, n2, j);
    ScaleOfSum(V, s, n2, Terms(V, x[a], v2, j), row);
    ScaleMul(V, s, f, d);
    ScaleMul(V, f, s, d);
    MulComm(V.ring, s, f);
  }

  // ----- moving the coefficients -----

  /** Coefficient `t` stands at its place in the two-dimensional buffer. */
  ghost predicate Placed<G>(x: seq<G>, c: seq<G>, n1: nat, n2: nat, t: nat) {
    && n1 > 0 && n2 > 0 && t < |c|
    && InIndex(n1, n2, t) < |x|
    && x[InIndex(n1, n2, t)] == c[t]
  }

  lemma {:induction false} InIndexInjective(n1: nat, n2: nat, s: nat, t: nat)
    requires n1 > 0 && n2 > 0 && Coprime(n1, n2) && s < n1 * n2 && t < n1 * n2
    requires InIndex(n1, n2, s) == InIndex(n1, n2, t)
    ensures s == t
  {
    InIndexBound(n1, n2, s);
    InIndexBound(n1, n2, t);
    SameRemainders(n1, n2, s, t);
  }

  /** The first loop: the coefficients are spread by their remainders. */
  method Scatter<G>(buffer: array<G>, a: array<G>, n1: nat, n2: nat, n: nat, ghost c: seq<G>)
    requires n1 > 0 && n2 > 0 && Coprime(n1, n2) && n == n1 * n2
    requires buffer != a && n <= a.Length && n <= buffer.Length && c == a[..n]
    modifies buffer
    ensures AllPlaced(buffer[..], c, n1, n2)
  {
    for i := 0 to n
      invariant forall t: nat | t < i :: Placed(buffer[..], c, n1, n2, t)
    {
      InIndexBound(n1, n2, i);
      ghost var x := buffer[..];
      var at := (i % n1) * n2 + i % n2;
      buffer[at] := a[i];
      ghost var y := buffer[..];
      forall t: nat | t < i + 1
        ensures Placed(y, c, n1, n2, t)
      {
        if t < i {
          assert Placed(x, c, n1, n2, t);
          if InIndex(n1, n2, t) == at {
            InIndexInjective(n1, n2, t, i);
          }
        }
      }
    }
  }

  /** Entry j of row i of one matrix is entry i of row j of the other. */
  ghost predicate Transposed<G>(x: seq<G>, y: seq<G>, from: nat, to: nat, n1: nat, n2: nat, i: nat, j: nat) {
    TransposedAt(x, y, from + Ix(i, n2, j), to + Ix(j, n1, i))
  }

  ghost predicate TransposedAt<G>(x: seq<G>, y: seq<G>, p: nat, q: nat) {
    p < |x| && q < |y| && y[q] == x[p]
  }

  ghost predicate AllTransposed<G>(x: seq<G>, y: seq<G>, from: nat, to: nat, n1: nat, n2: nat) {
    forall i: nat, j: nat | i < n1 && j < n2 :: Transposed(x, y, from, to, n1, n2, i, j)
  }

  ghost predicate AllPlaced<G>(x: seq<G>, c: seq<G>, n1: nat, n2: nat) {
    forall t: nat | t < |c| :: Placed(x, c, n1, n2, t)
  }

  lemma {:induction false} IxInjective(b: nat, m: nat, j: nat, b': nat, j': nat)
    requires j < m && j' < m && Ix(b, m, j) == Ix(b', m, j')
    ensures b == b' && j == j'
  {
    if b < b' {
      IxLess(b, m, j, b');
      IxOffset(b', m, j');
    } else if b' < b {
      IxLess(b', m, j', b);
      IxOffset(b, m, j);
    } else {
      IxOffset(b, m, j);
      IxOffset(b, m, j');
    }
  }

  lemma {:induction false} IxSwap(m: nat, n: nat)
    ensures Ix(m, n, 0) == m * n && Ix(n, m, 0) == m * n
  {
    IxProduct(m, n, 0);
    IxProduct(n, m, 0);
    assert n * m == m * n;
  }

  /** The pairs visited before (i, j) in row-major order. */
  predicate Before(i: nat, j: nat, i': nat, j': nat) {
    i' < i || (i' == i && j' < j)
  }

  /** transpose, from the first half of the buffer to the second half. */
  method Transpose<G>(buffer: array<G>, n1: nat, n2: nat, n: nat)
    requires n == n1 * n2 && 2 * n <= buffer.Length
    modifies buffer
    ensures AllTransposed(old(buffer[..]), buffer[..], 0, n, n1, n2)
    ensures forall p | 0 <= p < n :: buffer[p] == old(buffer[p])
  {
    ghost var x := buffer[..];
    IxSwap(n1, n2);
    for i := 0 to n1
      invariant forall i': nat, j': nat | i' < i && j' < n2 :: Transposed(x, buffer[..], 0, n, n1, n2, i', j')
      invariant forall p | 0 <= p < n :: buffer[p] == x[p]
    {
      for j := 0 to n2
        invariant forall i': nat, j': nat | Before(i, j, i', j') && j' < n2 ::
                    Transposed(x, buffer[..], 0, n, n1, n2, i', j')
        invariant forall p | 0 <= p < n :: buffer[p] == x[p]
      {
        IxLess(i, n2, j, n1);
        IxLess(j, n1, i, n2);
        IxProduct(i, n2, j);
        IxProduct(j, n1, i);
        ghost var y := buffer[..];
        var to := n + j * n1 + i;
        buffer[to] := buffer[j + i * n2];
        ghost var z := buffer[..];
        forall i': nat, j': nat | Before(i, j + 1, i', j') && j' < n2
          ensures Transposed(x, z, 0, n, n1, n2, i', j')
        {
          if Before(i, j, i', j') {
            assert Transposed(x, y, 0, n, n1, n2, i', j');
            if n + Ix(j', n1, i') == to {
              IxInjective(j, n1, i, j', i');
            }
          }
        }
      }
    }
  }

  /** Entry i of row j of the second half is written to its output index. */
  ghost predicate Gathered<G>(x: seq<G>, y: seq<G>, off: nat, n1: nat, n2: nat, i: nat, j: nat) {
    n1 > 0 && n2 > 0 && TransposedAt(x, y, off + Ix(j, n1, i), OutIndex(n1, n2, i, j))
  }

  ghost predicate AllGathered<G>(x: seq<G>, y: seq<G>, off: nat, n1: nat, n2: nat) {
    forall i: nat, j: nat | i < n1 && j < n2 :: Gathered(x, y, off, n1, n2, i, j)
  }

  /** The last loop: the values go to their places. */
  method Gather<G>(a: array<G>, buffer: array<G>, n1: nat, n2: nat, n: nat)
    requires n1 > 0 && n2 > 0 && Coprime(n1, n2) && n == n1 * n2
    requires buffer != a && n <= a.Length && 2 * n <= buffer.Length
    modifies a
    ensures AllGathered(buffer[..], a[..], n, n1, n2)
    ensures forall p | n <= p < a.Length :: a[p] == old(a[p])
  {
    IxSwap(n1, n2);
    MulMono(n1, 1, n2);
    ghost var x := buffer[..];
    for i := 0 to n1
      invariant forall i': nat, j': nat | i' < i && j' < n2 :: Gathered(x, a[..], n, n1, n2, i', j')
      invariant forall p | n <= p < a.Length :: a[p] == old(a[p])
    {
      for j := 0 to n2
        invariant forall i': nat, j': nat | Before(i, j, i', j') && j' < n2 :: Gathered(x, a[..], n, n1, n2, i', j')
        invariant forall p | n <= p < a.Length :: a[p] == old(a[p])
      {
        IxLess(j, n1, i, n2);
        IxProduct(j, n1, i);
        ghost var y := a[..];
        var to := (n1 * j + n2 * i) % n;
        a[to] := buffer[n + j * n1 + i];
        ghost var z := a[..];
        forall i': nat, j': nat | Before(i, j + 1, i', j') && j' < n2
          ensures Gathered(x, z, n, n1, n2, i', j')
        {
          if Before(i, j, i', j') {
            assert Gathered(x, y, n, n1, n2, i', j');
            if OutIndex(n1, n2, i', j') == to {
              OutIndexInjective(n1, n2, i, j, i', j');
            }
          }
        }
      }
    }
  }

  // ----- prime_factor_algorithm_fft -----

  ghost function RowOf<G>(x: seq<G>, off: nat, i: nat, len: nat): seq<G>
    requires off + Ix(i, len, 0) + len <= |x|
  {
    var base := off + Ix(i, len, 0);
    x[base..base + len]
  }

  ghost function RowsOf<G>(x: seq<G>, off: nat, count: nat, len: nat): (rows: seq<seq<G>>)
    requires off + Ix(count, len, 0) <= |x|
    ensures |rows| == count
    ensures forall i | 0 <= i < count ::
              off + Ix(i, len, 0) + len <= |x| && rows[i] == RowOf(x, off, i, len) && |rows[i]| == len
  {
    assert forall i: nat | i < count :: off + Ix(i, len, 0) + len <= |x| by {
      forall i: nat | i < count {
        RowFits(count, len, i);
      }
    }
    seq(count, i requires 0 <= i < count => RowOf(x, off, i, len))
  }

  lemma {:induction false} RowFits(count: nat, len: nat, i: nat)
    requires i < count
    ensures Ix(i, len, 0) + len <= Ix(count, len, 0)
  {
    if len > 0 {
      IxLess(i, len, len - 1, count);
      IxOffset(i, len, len - 1);
    } else {
      IxProduct(i, 0, 0);
    }
  }

  lemma {:induction false} RowEntry<S, G>(
      V: Space<S, G>, x: seq<G>, y: seq<G>, off: nat, i: nat, len: nat, w: S, inverse: bool, j: nat, p: nat)
    requires RowDone(V, x, y, off, i, len, w, inverse) && j < len && p == off + Ix(i, len, j)
    ensures off + Ix(i, len, 0) + len <= |x| && p < |y|
    ensures y[p] == TransformFor(V, RowOf(x, off, i, len), w, len, inverse)[j]
  {
    IxOffset(i, len, j);
    var base := off + Ix(i, len, 0);
    assert y[p] == y[base..base + len][j];
  }

  lemma {:induction false} PlacedRows<G>(x: seq<G>, c: seq<G>, n1: nat, n2: nat, n: nat, rows: seq<seq<G>>, t: nat)
    requires n1 > 0 && n2 > 0 && n == n1 * n2 == |c| && n <= |x| && t < n
    requires Ix(n1, n2, 0) <= |x| && rows == RowsOf(x, 0, n1, n2)
    requires Placed(x, c, n1, n2, t)
    ensures c[t] == rows[t % n1][t % n2]
  {
    IxProduct(t % n1, n2, t % n2);
    IxOffset(t % n1, n2, t % n2);
  }

  /** Entry `a` of column `j` after the first round. */
  lemma {:induction false} ColumnEntry<S(!new), G(!new)>(
      V: Space<S, G>, w2: S, n1: nat, n2: nat, n: nat, inverse: bool, b0: seq<G>, b1: seq<G>, b2: seq<G>,
      rows: seq<seq<G>>, z: seq<G>, a: nat, j: nat)
    requires n2 > 0 && a < n1 && j < n2 && n + Ix(j, n1, 0) + n1 <= |b2| && Ix(n1, n2, 0) <= |b0|
    requires rows == RowsOf(b0, 0, n1, n2) && z == RowOf(b2, n, j, n1)
    requires RowsDone(V, b0, b1, 0, n1, n2, w2, inverse)
    requires AllTransposed(b1, b2, 0, n, n1, n2)
    ensures z[a] == TransformFor(V, rows[a], w2, n2, inverse)[j]
  {
    assert Transposed(b1, b2, 0, n, n1, n2, a, j);
    assert RowDone(V, b0, b1, 0, a, n2, w2, inverse);
    var p := Ix(a, n2, j);
    RowEntry(V, b0, b1, 0, a, n2, w2, inverse, j, p);
    IxOffset(j, n1, a);
  }

  /** The buffer after each step of the algorithm. */
  ghost predicate Pipeline<S, G>(
      V: Space<S, G>, c: seq<G>, W: S, n1: nat, n2: nat, n: nat, inverse: bool,
      b0: seq<G>, b1: seq<G>, b2: seq<G>, b3: seq<G>) {
    && |b0| == |b1| == |b2| == |b3| == 2 * n
    && AllPlaced(b0, c, n1, n2)
    && RowsDone(V, b0, b1, 0, n1, n2, Pow(V.ring, W, n1), inverse)
    && AllTransposed(b1, b2, 0, n, n1, n2)
    && RowsDone(V, b2, b3, n, n2, n1, Pow(V.ring, W, n2), inverse)
  }

  /** The value written at an output index is the value of the long transform there. */
  lemma {:induction false} PrimeFactorEntry<S(!new), G(!new)>(
      V: Space<S, G>, c: seq<G>, W: S, n1: nat, n2: nat, n: nat, inverse: bool,
      b0: seq<G>, b1: seq<G>, b2: seq<G>, b3: seq<G>, i: nat, j: nat, k: nat, p: nat)
    requires IsSpace(V) && n1 > 0 && n2 > 0 && Coprime(n1, n2) && |c| == n == n1 * n2
    requires Pow(V.ring, W, n) == V.ring.one
    requires inverse ==> IsField(V.ring) && OfNat(V.ring, n) != V.ring.Zero()
    requires Pipeline(V, c, W, n1, n2, n, inverse, b0, b1, b2, b3)
    requires i < n1 && j < n2 && k == OutIndex(n1, n2, i, j) && p == n + Ix(j, n1, i)
    ensures k < n && p < |b3| && n > 0 && b3[p] == TransformFor(V, c, W, n, inverse)[k]
  {
    IxSwap(n1, n2);
    var rows := RowsOf(b0, 0, n1, n2);
    forall t | 0 <= t < n
      ensures c[t] == rows[t % n1][t % n2]
    {
      assert Placed(b0, c, n1, n2, t);
      PlacedRows(b0, c, n1, n2, n, rows, t);
    }
    RowFits(n2, n1, j);
    var w1, w2, z := Pow(V.ring, W, n2), Pow(V.ring, W, n1), RowOf(b2, n, j, n1);
    forall a | 0 <= a < n1
      ensures z[a] == TransformFor(V, rows[a], w2, n2, inverse)[j]
    {
      ColumnEntry(V, w2, n1, n2, n, inverse, b0, b1, b2, rows, z, a, j);
    }
    TwoRounds(V, c, W, n1, n2, inverse, rows, z, i, j, k, n);
    assert RowDone(V, b2, b3, n, j, n1, w1, inverse);
    RowEntry(V, b2, b3, n, j, n1, w1, inverse, i, p);
  }

  lemma {:induction false} PrimeFactorResult<S(!new), G(!new)>(
      V: Space<S, G>, c: seq<G>, W: S, n1: nat, n2: nat, n: nat, inverse: bool,
      b0: seq<G>, b1: seq<G>, b2: seq<G>, b3: seq<G>, y: seq<G>)
    requires IsSpace(V) && n1 > 0 && n2 > 0 && Coprime(n1, n2) && |c| == n == n1 * n2 && 0 < n <= |y|
    requires Pow(V.ring, W, n) == V.ring.one
    requires inverse ==> IsField(V.ring) && OfNat(V.ring, n) != V.ring.Zero()
    requires Pipeline(V, c, W, n1, n2, n, inverse, b0, b1, b2, b3)
    requires AllGathered(b3, y, n, n1, n2)
    ensures y[..n] == TransformFor(V, c, W, n, inverse)
  {
    forall k | 0 <= k < n
      ensures y[k] == TransformFor(V, c, W, n, inverse)[k]
    {
      var i, j := OutIndexReached(n1, n2, k);
      assert Gathered(b3, y, n, n1, n2, i, j);
      var p := n + Ix(j, n1, i);
      PrimeFactorEntry(V, c, W, n1, n2, n, inverse, b0, b1, b2, b3, i, j, k, p);
    }
  }

  /** The two rounds, from the scattered coefficients to the buffer that is read out. */
  method PrimeFactorRounds<S(!new), G(!new)>(
      V: Space<S, G>, a: array<G>, buffer: array<G>, bufferDft: array<G>, domain1: seq<S>, domain2: seq<S>,
      n1: nat, n2: nat, n: nat, inverse: bool, ghost W: S, ghost w1: S, ghost w2: S, ghost c: seq<G>)
    returns (ghost b0: seq<G>, ghost b1: seq<G>, ghost b2: seq<G>, ghost b3: seq<G>)
    requires IsSpace(V) && n1 > 0 && n2 > 0 && Coprime(n1, n2) && n == n1 * n2 <= a.Length && c == a[..n]
    requires w1 == Pow(V.ring, W, n2) && w2 == Pow(V.ring, W, n1)
    requires UsableRoot(V.ring, w1, n1) && RootTable(V.ring, domain1, w1, n1)
    requires UsableRoot(V.ring, w2, n2) && RootTable(V.ring, domain2, w2, n2)
    requires IsPow2(n1) || n1 <= bufferDft.Length
    requires IsPow2(n2) || n2 <= bufferDft.Length
    requires buffer != bufferDft && buffer != a && bufferDft != a && buffer.Length == 2 * n
    modifies buffer, bufferDft
    ensures Pipeline(V, c, W, n1, n2, n, inverse, b0, b1, b2, b3)
    ensures buffer[..] == b3
  {
    IxSwap(n1, n2);
    Scatter(buffer, a, n1, n2, n, c);
    b0 := buffer[..];
    FftRound(V, buffer, 0, domain2, n1, n2, bufferDft, inverse, w2, n);
    b1 := buffer[..];
    Transpose(buffer, n1, n2, n);
    b2 := buffer[..];
    FftRound(V, buffer, n, domain1, n2, n1, bufferDft, inverse, w1, 2 * n);
    b3 := buffer[..];
  }

  /** prime_factor_algorithm_fft: for coprime lengths, the transform of length n1 n2 from short transforms. */
  method PrimeFactorFft<S(!new), G(!new)>(
      V: Space<S, G>, a: array<G>, domain1: seq<S>, domain2: seq<S>, length1: nat, length2: nat, inverse: bool,
      ghost W: S, ghost n: nat)
    requires IsSpace(V) && length1 > 0 && length2 > 0 && Coprime(length1, length2)
    requires 0 < n == length1 * length2 <= a.Length
    requires Pow(V.ring, W, n) == V.ring.one
    requires UsableRoot(V.ring, Pow(V.ring, W, length2), length1)
    requires UsableRoot(V.ring, Pow(V.ring, W, length1), length2)
    requires RootTable(V.ring, domain1, Pow(V.ring, W, length2), length1)
    requires RootTable(V.ring, domain2, Pow(V.ring, W, length1), length2)
    requires inverse ==> IsField(V.ring) && OfNat(V.ring, n) != V.ring.Zero()
    modifies a
    ensures a[..n] == TransformFor(V, old(a[..n]), W, n, inverse)
    ensures forall p | n <= p < a.Length :: a[p] == old(a[p])
  {
    var isPower1 := IsPowerOfTwo(length1);
    var isPower2 := IsPowerOfTwo(length2);
    var dftLength := if !isPower1 && !isPower2 then (if length1 >= length2 then length1 else length2)
                     else if isPower1 then length2 else length1;
    var length := length1 * length2;
    var bufferDft := new G[dftLength](_ => V.group.zero);
    var buffer := new G[2 * length](_ => V.group.zero);
    ghost var c, w1, w2 := a[..n], Pow(V.ring, W, length2), Pow(V.ring, W, length1);
    ghost var b0, b1, b2, b3 := PrimeFactorRounds(
      V, a, buffer, bufferDft, domain1, domain2, length1, length2, length, inverse, W, w1, w2, c);
    Gather(a, buffer, length1, length2, length);
    PrimeFactorResult(V, c, W, length1, length2, n, inverse, b0, b1, b2, b3, a[..]);
  }
}
