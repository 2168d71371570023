/** Tables of roots of unity, and the round trips for the roots that the callers use. */
module Roots {
  import opened Algebra
  import opened Arith
  import opened Bits
  import opened Dft
  import opened Fft
  import opened PrimeFactor

  /** A root of unity of order exactly n. */
  ghost predicate Primitive<S>(R: Ring<S>, w: S, n: nat) {
    && n > 0
    && Pow(R, w, n) == R.one
    && forall d | 0 < d < n :: Pow(R, w, d) != R.one
  }

  lemma {:induction false} PowNext<S(!new)>(R: Ring<S>, w: S, d: nat, next: nat)
    requires next == d + 1
    ensures Pow(R, w, next) == R.Mul(Pow(R, w, d), w)
  {
  }

  ghost predicate Filled<S>(R: Ring<S>, buffer: array<S>, root: S, n: nat)
    requires n <= buffer.Length
    reads buffer
  {
    forall k | 0 <= k < n :: buffer[k] == Pow(R, root, k)
  }

  /** Entry d becomes the square of entry d / 2, and the next entry that times the root. */
  method DomainStep<S(!new)>(R: Ring<S>, buffer: array<S>, i: nat, d: nat, next: nat, root: S)
    requires IsRing(R) && d == i + i && 0 < i && next == d + 1 < buffer.Length
    requires Filled(R, buffer, root, d)
    modifies buffer
    ensures Filled(R, buffer, root, next + 1)
    ensures forall k | next < k < buffer.Length :: buffer[k] == old(buffer[k])
  {
    buffer[d] := R.Mul(buffer[i], buffer[i]);
    PowAddAs(R, root, i, i, d);
    buffer[next] := R.Mul(buffer[d], root);
    PowNext(R, root, d, next);
  }

  /** Fills the table of the powers of a root by doubling. */
  method ComputeDomain<S(!new)>(R: Ring<S>, buffer: array<S>, n: nat, root: S)
    requires IsRing(R) && 2 <= n <= buffer.Length
    modifies buffer
    ensures RootTable(R, buffer[..], root, n)
    ensures forall k | n <= k < buffer.Length :: buffer[k] == old(buffer[k])
  {
    buffer[0] := R.one;
    buffer[1] := root;
    OneMul(R, root);
    PowNext(R, root, 0, 1);
    var i, d := 1, 2;
    while i < n / 2
      invariant 1 <= i <= n / 2 && d == i + i && Filled(R, buffer, root, d)
      invariant forall k | n <= k < buffer.Length :: buffer[k] == old(buffer[k])
    {
      DomainStep(R, buffer, i, d, d + 1, root);
      i, d := i + 1, d + 2;
    }
    if n % 2 != 0 {
      buffer[d] := R.Mul(buffer[d - 1], root);
      PowNext(R, root, d - 1, d);
    }
  }

  lemma {:induction false} InverseOfLength<S(!new)>(R: Ring<S>, n: nat)
    requires IsField(R) && OfNat(R, n) != R.Zero()
    ensures R.Mul(R.Inv(OfNat(R, n)), OfNat(R, n)) == R.one
  {
    MulInv(R, OfNat(R, n));
    MulComm(R, OfNat(R, n), R.Inv(OfNat(R, n)));
  }

  /** In a field, with a primitive root and an invertible length, every transform is undone by its inverse. */
  lemma {:induction false} FieldRoundTrip<S(!new), G(!new)>(V: Space<S, G>, c: seq<G>, w: S, n: nat)
    requires IsSpace(V) && IsField(V.ring) && Primitive(V.ring, w, n) && |c| == n
    requires OfNat(V.ring, n) != V.ring.Zero()
    ensures TransformFor(V, TransformFor(V, c, w, n, false), w, n, true) == c
  {
    PrimitiveIsPrincipal(V.ring, w, n);
    InverseOfLength(V.ring, n);
    RoundTrip(V, c, w, n);
  }

  /** For powers of two no primality is needed, only the half turn and an inverse of the length. */
  lemma {:induction false} PowerOfTwoRoundTrip<S(!new), G(!new)>(V: Space<S, G>, c: seq<G>, w: S, l: nat)
    requires IsSpace(V) && HalfTurn(V.ring, w, l) && |c| == Pow2(l)
    requires V.ring.Mul(V.ring.Inv(OfNat(V.ring, Pow2(l))), OfNat(V.ring, Pow2(l))) == V.ring.one
    ensures TransformFor(V, TransformFor(V, c, w, Pow2(l), false), w, Pow2(l), true) == c
  {
    HalfTurnIsPrincipal(V.ring, w, l);
    RoundTrip(V, c, w, Pow2(l));
  }

  lemma {:induction false} StretchBound(a: nat, b: nat, d: nat)
    requires a > 0 && 0 < d < b
    ensures 0 < a * d < a * b
  {
    MulMono(a, 1, d);
    MulMono(a, d + 1, b);
  }

  /** The roots of the two short transforms of the prime-factor algorithm meet its preconditions. */
  lemma {:induction false} ShortRootsUsable<S(!new)>(R: Ring<S>, W: S, n1: nat, n2: nat)
    requires IsField(R) && n1 > 0 && n2 > 0 && Primitive(R, W, n1 * n2)
    ensures UsableRoot(R, Pow(R, W, n2), n1) && UsableRoot(R, Pow(R, W, n1), n2)
  {
    ShortRootUsable(R, W, n2, n1);
    assert n1 * n2 == n2 * n1;
    ShortRootUsable(R, W, n1, n2);
  }

  lemma {:induction false} ShortRootUsable<S(!new)>(R: Ring<S>, W: S, a: nat, b: nat)
    requires IsField(R) && a > 0 && b > 0 && Primitive(R, W, a * b)
    ensures UsableRoot(R, Pow(R, W, a), b)
  {
    PowMul(R, W, a, b);
    forall d | 0 < d < b
      ensures Pow(R, Pow(R, W, a), d) != R.one
    {
      PowMul(R, W, a, d);
      StretchBound(a, b, d);
    }
    PrimitiveIsUsable(R, Pow(R, W, a), b);
  }
}
