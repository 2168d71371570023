/** The transforms run one after the other: the code for the inverse restores the array. */
module RoundTrips {
  import opened Algebra
  import opened Sums
  import opened Bits
  import opened Crt
  import opened Dft
  import opened Fft
  import opened PrimeFactor
  import opened Roots

  /** The coefficients, filled up with zeros. */
  ghost function ZeroPadded<G>(A: Group<G>, c: seq<G>, n: nat): (r: seq<G>)
    ensures |r| == n && forall i :: 0 <= i < n ==> r[i] == At(A, c, i)
  {
    seq(n, i requires 0 <= i < n => At(A, c, i))
  }

  lemma {:induction false} TransformPadded<S(!new), G(!new)>(V: Space<S, G>, c: seq<G>, w: S, n: nat)
    requires |c| <= n
    ensures Transform(V, c, w, n) == Transform(V, ZeroPadded(V.group, c, n), w, n)
  {
    var d := ZeroPadded(V.group, c, n);
    forall k | 0 <= k < n ensures DftAt(V, c, w, n, k) == DftAt(V, d, w, n, k) {
      SumCong(V.group, n, Terms(V, c, w, k), Terms(V, d, w, k));
    }
  }

  /**
   * ifft_inplace after fft_inplace, for any root with a half turn, any invertible length and any smaller degree: the
   * window holds the coefficients filled up with zeros, and the rest of the array is as it was.
   */
  method FftAndBack<S(!new), G(!new)>(
      V: Space<S, G>, a: array<G>, off: nat, domain: seq<S>, l: nat, logDegree: nat,
      ghost w: S, ghost n: nat, ghost mid: nat, ghost end: nat)
    requires IsSpace(V) && HalfTurn(V.ring, w, l) && n == Pow2(l) && RootTable(V.ring, domain, w, n)
    requires V.ring.Mul(V.ring.Inv(OfNat(V.ring, n)), OfNat(V.ring, n)) == V.ring.one
    requires logDegree <= l && mid == off + Pow2(logDegree) <= end && end == off + n <= a.Length
    modifies a
    ensures a[off..end] == ZeroPadded(V.group, old(a[off..mid]), n)
    ensures forall p | 0 <= p < off || end <= p < a.Length :: a[p] == old(a[p])
    ensures logDegree == l ==> a[..] == old(a[..])
  {
    hide Pow, RootTable, OfNat, Transform, HalfTurn, IsSpace, ZeroPadded, Pow2;
    ghost var c, x := a[off..mid], a[..];
    FftInplace(V, a, off, domain, l, logDegree, w, mid, end);
    IfftInplace(V, a, off, domain, l, w, end);
    TransformPadded(V, c, w, n);
    PowerOfTwoRoundTrip(V, ZeroPadded(V.group, c, n), w, l);
    if logDegree == l {
      assert ZeroPadded(V.group, c, n) == c;
      Restored(a[..], x, c, off, end);
    }
  }

  lemma {:induction false} Restored<G>(y: seq<G>, x: seq<G>, c: seq<G>, off: nat, end: nat)
    requires |y| == |x| && off <= end <= |x| && y[off..end] == c == x[off..end]
    requires forall p | 0 <= p < off || end <= p < |x| :: y[p] == x[p]
    ensures y == x
  {
    forall p | 0 <= p < |x| ensures y[p] == x[p] {
      if off <= p < end { assert y[p] == c[p - off] == x[p]; }
    }
  }

  /** dft_inplace with inverse = 1 after inverse = 0. */
  method DftAndBack<S(!new), G(!new)>(
      V: Space<S, G>, a: array<G>, off: nat, domain: seq<S>, buffer: array<G>, length: nat, ghost w: S, ghost end: nat)
    requires IsSpace(V) && IsField(V.ring) && Primitive(V.ring, w, length) && RootTable(V.ring, domain, w, length)
    requires OfNat(V.ring, length) != V.ring.Zero()
    requires a != buffer && length <= buffer.Length && end == off + length <= a.Length
    modifies a, buffer
    ensures a[..] == old(a[..])
  {
    hide Pow, RootTable, OfNat, TransformFor, IsSpace;
    ghost var c, x := a[off..end], a[..];
    DftInplace(V, a, off, domain, buffer, length, false, w, end);
    DftInplace(V, a, off, domain, buffer, length, true, w, end);
    FieldRoundTrip(V, c, w, length);
    Restored(a[..], x, c, off, end);
  }

  /** The prime-factor transform and its inverse, from tables that compute_domain fills for the two short roots. */
  method PrimeFactorAndBack<S(!new), G(!new)>(
      V: Space<S, G>, a: array<G>, domain1: array<S>, domain2: array<S>, length1: nat, length2: nat,
      root1: S, root2: S, ghost W: S, ghost n: nat)
    requires IsSpace(V) && IsField(V.ring) && Coprime(length1, length2) && n == length1 * length2 <= a.Length
    requires 2 <= length1 <= domain1.Length && 2 <= length2 <= domain2.Length && domain1 != domain2
    requires Primitive(V.ring, W, n) && OfNat(V.ring, n) != V.ring.Zero()
    requires root1 == Pow(V.ring, W, length2) && root2 == Pow(V.ring, W, length1)
    requires (a as object) != domain1 && (a as object) != domain2
    modifies a, domain1, domain2
    ensures a[..] == old(a[..])
  {
    hide Pow, RootTable, OfNat, TransformFor, IsSpace, Coprime;
    ghost var c, x := a[..n], a[..];
    ComputeDomain(V.ring, domain1, length1, root1);
    ComputeDomain(V.ring, domain2, length2, root2);
    ShortRootsUsable(V.ring, W, length1, length2);
    var d1, d2 := domain1[..], domain2[..];
    PrimeFactorFft(V, a, d1, d2, length1, length2, false, W, n);
    PrimeFactorFft(V, a, d1, d2, length1, length2, true, W, n);
    FieldRoundTrip(V, c, W, n);
    assert a[0..n] == a[..n];
    Restored(a[..], x, c, 0, n);
  }
}
