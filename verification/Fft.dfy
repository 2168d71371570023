/** The in-place transforms of bls12_381_polynomial_fft.c.

    A C pointer into an array is an array and an offset.  `V` is the module the coefficients live in:
    the `Fr`, `G1` and `G2` versions of the C code are this code at three modules over `Fr`. */
module Fft {
  import opened Algebra
  import opened Arith
  import opened Sums
  import opened Bits
  import opened Dft

  /** The table of the powers of `w` that the transforms read. */
  ghost predicate RootTable<S>(R: Ring<S>, domain: seq<S>, w: S, n: nat) {
    && n <= |domain|
    && forall k | 0 <= k < n :: domain[k] == Pow(R, w, k)
  }

  /** The root a transform uses: `w`, or its inverse read from the table backwards. */
  function RootFor<S>(R: Ring<S>, w: S, n: nat, inverse: bool): S
    requires n > 0
  {
    if inverse then Pow(R, w, n - 1) else w
  }

  function Scaled<S, G>(V: Space<S, G>, s: S, x: seq<G>): (y: seq<G>)
    ensures |y| == |x|
    ensures forall i | 0 <= i < |x| :: y[i] == V.Scale(s, x[i])
  {
    seq(|x|, i requires 0 <= i < |x| => V.Scale(s, x[i]))
  }

  /** What a transform computes; the inverse one divides by the length. */
  function TransformFor<S, G>(V: Space<S, G>, c: seq<G>, w: S, n: nat, inverse: bool): (X: seq<G>)
    requires n > 0
    ensures |X| == n
  {
    var X := Transform(V, c, RootFor(V.ring, w, n, inverse), n);
    if inverse then Scaled(V, V.ring.Inv(OfNat(V.ring, n)), X) else X
  }

  /** The inverse transform undoes the transform. */
  lemma {:induction false} RoundTrip<S(!new), G(!new)>(V: Space<S, G>, c: seq<G>, w: S, n: nat)
    requires IsSpace(V) && Principal(V.ring, w, n) && |c| == n
    requires V.ring.Mul(V.ring.Inv(OfNat(V.ring, n)), OfNat(V.ring, n)) == V.ring.one
    ensures TransformFor(V, TransformFor(V, c, w, n, false), w, n, true) == c
  {
    forall j | 0 <= j < n
      ensures TransformFor(V, Transform(V, c, w, n), w, n, true)[j] == c[j]
    {
      InverseDft(V, c, w, n, V.ring.Inv(OfNat(V.ring, n)), j);
    }
  }

  // ----- bit reversal in place -----

  /** The coefficients in bit-reversed order. */
  ghost function BitReversed<G>(c: seq<G>, logn: nat): (y: seq<G>)
    requires |c| == Pow2(logn)
    ensures |y| == |c|
    ensures forall i | 0 <= i < |c| :: Rev(logn, i) < |c| && y[i] == c[Rev(logn, i)]
  {
    assert forall i | 0 <= i < |c| :: Rev(logn, i) < |c| by {
      forall i | 0 <= i < |c| {
        RevBound(logn, i);
      }
    }
    seq(|c|, i requires 0 <= i < |c| => c[Rev(logn, i)])
  }

  /** The bit-reversal permutation of 0 .. 2^logn, as a sequence. */
  ghost function Reversal(logn: nat): (p: seq<nat>)
    ensures |p| == Pow2(logn)
    ensures forall i | 0 <= i < |p| :: p[i] == Rev(logn, i)
  {
    seq(Pow2(logn), i requires 0 <= i => Rev(logn, i))
  }

  lemma {:induction false} ReversalInvolutive(logn: nat, p: seq<nat>)
    requires p == Reversal(logn)
    ensures forall i | 0 <= i < |p| :: p[i] < |p|
    ensures forall i | 0 <= i < |p| :: p[p[i]] == i
  {
    forall i | 0 <= i < |p|
      ensures p[i] < |p| && p[p[i]] == i
    {
      RevBound(logn, i);
      RevInvolution(logn, i);
    }
  }

  /** The places whose swap has happened hold the reversed entries. */
  ghost predicate PartlyReversed<G>(s: seq<G>, c: seq<G>, r: seq<nat>, i: nat) {
    && |s| == |c| == |r|
    && (forall k | 0 <= k < |r| :: r[k] < |r| && r[r[k]] == k)
    && forall k | 0 <= k < |r| :: s[k] == c[if k < i || r[k] < i then r[k] else k]
  }

  lemma {:induction false} SwapStep<G>(s: seq<G>, t: seq<G>, c: seq<G>, r: seq<nat>, i: nat, k: nat, next: nat)
    requires PartlyReversed(s, c, r, i) && i < |r| && k == r[i] && next == i + 1
    requires t == if i < k then s[i := s[k]][k := s[i]] else s
    ensures PartlyReversed(t, c, r, next)
  {
    assert r[k] == i;
  }

  method Swap<G>(a: array<G>, off: nat, ghost end: nat, i: nat, j: nat)
    requires end <= a.Length && off + i < end && off + j < end
    modifies a
    ensures a[off..end] == old(a[off..end])[i := old(a[off..end])[j]][j := old(a[off..end])[i]]
    ensures forall p | 0 <= p < off || end <= p < a.Length :: a[p] == old(a[p])
  {
    a[off + i], a[off + j] := a[off + j], a[off + i];
  }

  method Reorganize<G>(a: array<G>, off: nat, n: nat, logn: nat, ghost end: nat)
    requires n == Pow2(logn) && end == off + n <= a.Length
    modifies a
    ensures a[off..end] == BitReversed(old(a[off..end]), logn)
    ensures forall p | 0 <= p < off || end <= p < a.Length :: a[p] == old(a[p])
  {
    ghost var r, c := Reversal(logn), a[off..end];
    ReversalInvolutive(logn, r);
    assert PartlyReversed(a[off..end], c, r, 0);
    hide PartlyReversed, Pow2, Rev, BitReversed;
    for i := 0 to n
      invariant PartlyReversed(a[off..end], c, r, i)
      invariant forall p | 0 <= p < off || end <= p < a.Length :: a[p] == old(a[p])
    {
      ghost var s := a[off..end];
      var reverse := BitReverse(i, logn);
      assert reverse == r[i];
      if i < reverse {
        Swap(a, off, end, i, reverse);
      }
      SwapStep(s, a[off..end], c, r, i, reverse, i + 1);
    }
    Reversed(a[off..end], c, r, n, logn);
  }

  lemma {:induction false} Reversed<G>(s: seq<G>, c: seq<G>, r: seq<nat>, n: nat, logn: nat)
    requires r == Reversal(logn) && n == |r| && PartlyReversed(s, c, r, n)
    ensures |c| == Pow2(logn) && s == BitReversed(c, logn)
  {
  }

  // ----- the butterfly stages -----

  /** Entry `j` of block `b` when the array is cut into blocks of `m`. */
  function Ix(b: nat, m: nat, j: nat): nat {
    if b == 0 then j else m + Ix(b - 1, m, j)
  }

  /** The array is cut into 2^k blocks of `m` entries, and block `b` is the short transform of the
      coefficients of `c` at Rev(k, b), Rev(k, b) + 2^k, Rev(k, b) + 2 * 2^k, ... */
  ghost predicate InBlocks<S, G>(V: Space<S, G>, x: seq<G>, c: seq<G>, v: S, k: nat, m: nat) {
    forall b: nat, j: nat | b < Pow2(k) && j < m :: InBlock(V, x, c, v, k, m, b, j)
  }

  ghost predicate InBlock<S, G>(V: Space<S, G>, x: seq<G>, c: seq<G>, v: S, k: nat, m: nat, b: nat, j: nat) {
    At(V.group, x, Ix(b, m, j)) == Block(V, c, v, Pow2(k), Rev(k, b), m, j)
  }

  /** The entries p and p + m of `y` are the butterfly of those of `x`. */
  ghost predicate PairAt<S, G>(V: Space<S, G>, x: seq<G>, y: seq<G>, t: S, m: nat, p: nat) {
    && p + m < |x| == |y|
    && y[p] == V.group.Plus(x[p], V.Scale(t, x[p + m]))
    && y[p + m] == V.group.Minus(x[p], V.Scale(t, x[p + m]))
  }

  lemma {:induction false} IxSplit(b: nat, m: nat, j: nat)
    ensures Ix(b, 2 * m, j) == Ix(2 * b, m, j)
    ensures Ix(b, 2 * m, j + m) == Ix(2 * b + 1, m, j)
  {
    if b > 0 {
      IxSplit(b - 1, m, j);
      assert Ix(2 * b, m, j) == m + Ix(2 * b - 1, m, j);
      assert Ix(2 * b + 1, m, j) == m + Ix(2 * b, m, j);
    }
  }

  lemma {:induction false} IxOffset(b: nat, m: nat, j: nat)
    ensures Ix(b, m, j) == Ix(b, m, 0) + j
  {
    if b > 0 {
      IxOffset(b - 1, m, j);
    }
  }

  lemma {:induction false} IxLess(b: nat, m: nat, j: nat, k: nat)
    requires b < k && j < m
    ensures Ix(b, m, j) < Ix(k, m, 0)
  {
    IxOffset(b, m, j);
    if b + 1 == k {
      assert Ix(k, m, 0) == m + Ix(b, m, 0);
    } else {
      IxLess(b, m, j, k - 1);
    }
  }

  lemma {:induction false} IxProduct(b: nat, m: nat, j: nat)
    ensures Ix(b, m, j) == b * m + j
  {
    if b > 0 {
      IxProduct(b - 1, m, j);
      assert b * m == (b - 1) * m + m;
    }
  }

  /** `y` is `x` after the butterflies of one stage: all pairs of blocks of `m` entries, with root v^e. */
  ghost predicate AllPaired<S, G>(V: Space<S, G>, x: seq<G>, y: seq<G>, v: S, e: nat, m: nat, blocks: nat) {
    forall b: nat, j: nat | b < blocks && j < m :: Paired(V, x, y, v, e, m, b, j)
  }

  ghost predicate Paired<S, G>(V: Space<S, G>, x: seq<G>, y: seq<G>, v: S, e: nat, m: nat, b: nat, j: nat) {
    PairAt(V, x, y, Pow(V.ring, v, e * j), m, Ix(b, 2 * m, j))
  }

  /** A stage halves the number of blocks. */
  lemma {:induction false} StageStep<S(!new), G(!new)>(
      V: Space<S, G>, x: seq<G>, y: seq<G>, c: seq<G>, v: S, k: nat, m: nat, h: nat, d: nat)
    requires IsSpace(V)
    requires k == h + 1 && d == 2 * m && InBlocks(V, x, c, v, k, m)
    requires Pow(V.ring, v, Pow2(h) * m) == V.ring.MinusOne()
    requires AllPaired(V, x, y, v, Pow2(h), m, Pow2(h))
    ensures InBlocks(V, y, c, v, h, d)
  {
    hide Pow, InBlock, Paired;
    var e := Pow2(h);
    assert Pow2(k) == 2 * e;
    forall b: nat, j: nat | b < e && j < d
      ensures InBlock(V, y, c, v, h, d, b, j)
    {
      var i: nat := if j < m then j else j - m;
      var b0, b1 := 2 * b, 2 * b + 1;
      assert InBlock(V, x, c, v, k, m, b0, i) && InBlock(V, x, c, v, k, m, b1, i);
      assert Paired(V, x, y, v, e, m, b, i);
      PairedBlocks(V, x, y, c, v, h, k, e, m, d, b, b0, b1, i, i + m);
    }
  }

  lemma {:induction false} PairedBlocks<S(!new), G(!new)>(
      V: Space<S, G>, x: seq<G>, y: seq<G>, c: seq<G>, v: S, h: nat, k: nat, e: nat, m: nat, d: nat,
      b: nat, b0: nat, b1: nat, j: nat, j1: nat)
    requires IsSpace(V) && k == h + 1 && e == Pow2(h) && d == 2 * m && b0 == 2 * b && b1 == b0 + 1 && j1 == j + m
    requires j < m && Pow(V.ring, v, e * m) == V.ring.MinusOne()
    requires Paired(V, x, y, v, e, m, b, j)
    requires InBlock(V, x, c, v, k, m, b0, j) && InBlock(V, x, c, v, k, m, b1, j)
    ensures InBlock(V, y, c, v, h, d, b, j) && InBlock(V, y, c, v, h, d, b, j1)
  {
    hide Pow, Block;
    var r := Rev(h, b);
    RevChildren(k, h, b, b0, b1, e);
    IxSplit(b, m, j);
    IxOffset(b, d, j);
    IxOffset(b, d, j1);
    Butterfly(V, c, v, e, r, m, j);
  }

  lemma {:induction false} RevChildren(l: nat, h: nat, b: nat, b0: nat, b1: nat, e: nat)
    requires l == h + 1 && b0 == 2 * b && b1 == b0 + 1 && e == Pow2(h)
    ensures Rev(l, b0) == Rev(h, b) && Rev(l, b1) == Rev(h, b) + e
  {
    hide Pow2;
    RevHalf(l, h, b0, b);
    RevHalf(l, h, b1, b);
  }

  lemma {:induction false} RevHalf(l: nat, h: nat, n: nat, half: nat)
    requires l == h + 1 && half == n / 2
    ensures Rev(l, n) == (if n % 2 == 1 then Pow2(h) else 0) + Rev(h, half)
  {
  }

  /** When one block is left, its entries are the transform. */
  lemma {:induction false} StagesComplete<S(!new), G(!new)>(V: Space<S, G>, x: seq<G>, c: seq<G>, v: S, k: nat, n: nat)
    requires k == 0 && n == |x| && InBlocks(V, x, c, v, k, n)
    ensures x == Transform(V, c, v, n)
  {
    forall i | 0 <= i < n
      ensures x[i] == DftAt(V, c, v, n, i)
    {
      assert InBlock(V, x, c, v, k, n, 0, i);
      SumCong(V.group, n, BlockTerms(V, c, v, 1, 0, i), Terms(V, c, v, i));
    }
  }

  // ----- the transforms -----

  lemma {:induction false} TwiddleIndex<S(!new)>(R: Ring<S>, w: S, n: nat, x: nat)
    requires IsRing(R)
    requires 0 < x <= n && Pow(R, w, n) == R.one
    ensures Pow(R, w, n - x) == Pow(R, Pow(R, w, n - 1), x)
  {
    PowMul(R, w, n - 1, x);
    assert (n - 1) * x == n * (x - 1) + (n - x) by {
      assert (n - 1) * x == n * x - x;
      assert n * (x - 1) == n * x - n;
    }
    PowAdd(R, w, n * (x - 1), n - x);
    PowMul(R, w, n, x - 1);
    PowOne(R, x - 1);
    OneMul(R, Pow(R, w, n - x));
  }

  /** The stage with blocks of m entries steps through the n roots by e, over half of them. */
  predicate Halves(e: nat, m: nat, n: nat) { 2 * (e * m) == n }

  /** The index into the root table that the innermost loop computes. */
  method Twiddle<S(!new)>(R: Ring<S>, domain: seq<S>, n: nat, m: nat, e: nat, j: nat, inverse: bool, ghost w: S,
      ghost f: seq<S>)
    returns (t: S)
    requires IsRing(R) && RootTable(R, domain, w, n)
    requires n > 0 && Pow(R, w, n) == R.one
    requires j < m && Halves(e, m, n)
    requires f == Factors(R, RootFor(R, w, n, inverse), e, m)
    ensures t == f[j] == Pow(R, RootFor(R, w, n, inverse), e * j)
  {
    MulMono(e, j, m);
    var idx := if inverse then n - e * j else e * j;
    if idx == n {
      idx := 0;
    }
    if inverse && e * j > 0 {
      TwiddleIndex(R, w, n, e * j);
    }
    t := domain[idx];
  }

  /** The factors that one pass of the innermost loop uses. */
  ghost function Factors<S>(R: Ring<S>, v: S, e: nat, m: nat): (f: seq<S>)
    ensures |f| == m
    ensures forall j | 0 <= j < m :: f[j] == Pow(R, v, e * j)
  {
    seq(m, j requires 0 <= j => Pow(R, v, e * j))
  }

  /** One butterfly with factor `t` on the entries p and p + m. */
  function Cross<S, G>(V: Space<S, G>, x: seq<G>, t: S, m: nat, p: nat): (y: seq<G>)
    requires 0 < m && p + m < |x|
    ensures |y| == |x|
  {
    var tmp := V.Scale(t, x[p + m]);
    x[p + m := V.group.Minus(x[p], tmp)][p := V.group.Plus(x[p], tmp)]
  }

  /** The first `j` butterflies of the pair of blocks that starts at `base`. */
  function Crossed<S, G>(V: Space<S, G>, x: seq<G>, f: seq<S>, base: nat, j: nat): (y: seq<G>)
    requires j <= |f| && base + 2 * |f| <= |x|
    ensures |y| == |x|
  {
    if j == 0 then x else Cross(V, Crossed(V, x, f, base, j - 1), f[j - 1], |f|, base + j - 1)
  }

  function CrossBlock<S, G>(V: Space<S, G>, x: seq<G>, f: seq<S>, base: nat): (y: seq<G>)
    requires base + 2 * |f| <= |x|
    ensures |y| == |x|
  {
    Crossed(V, x, f, base, |f|)
  }

  lemma {:induction false} CrossedEntries<S, G>(V: Space<S, G>, x: seq<G>, f: seq<S>, base: nat, j: nat)
    requires j <= |f| && base + 2 * |f| <= |x|
    ensures var y, m := Crossed(V, x, f, base, j), |f|;
            && (forall i | 0 <= i < j :: y[base + i] == V.group.Plus(x[base + i], V.Scale(f[i], x[base + i + m])))
            && (forall i | 0 <= i < j :: y[base + i + m] == V.group.Minus(x[base + i], V.Scale(f[i], x[base + i + m])))
            && (forall p | 0 <= p < |x| && !(base <= p < base + j) && !(base + m <= p < base + m + j) :: y[p] == x[p])
  {
    if j > 0 {
      CrossedEntries(V, x, f, base, j - 1);
    }
  }

  /** The innermost loop: the butterflies of one pair of blocks, with the factors `f`. */
  method ButterflyBlock<S(!new), G(!new)>(
      V: Space<S, G>, a: array<G>, base: nat, domain: seq<S>, n: nat, m: nat, e: nat, inverse: bool,
      ghost w: S, ghost f: seq<S>, ghost x: seq<G>) returns (ghost y: seq<G>)
    requires IsSpace(V) && RootTable(V.ring, domain, w, n)
    requires n > 0 && Pow(V.ring, w, n) == V.ring.one
    requires base + 2 * m <= a.Length && Halves(e, m, n)
    requires f == Factors(V.ring, RootFor(V.ring, w, n, inverse), e, m) && x == a[..]
    modifies a
    ensures y == CrossBlock(V, x, f, base)
    ensures a[..] == y
  {
    hide Pow, Factors, RootFor, RootTable, Halves;
    for j := 0 to m
      invariant a[..] == Crossed(V, x, f, base, j)
    {
      var root := Twiddle(V.ring, domain, n, m, e, j, inverse, w, f);
      var tmp := V.Scale(root, a[base + j + m]);
      a[base + j + m] := V.group.Minus(a[base + j], tmp);
      a[base + j] := V.group.Plus(a[base + j], tmp);
      assert a[..] == Cross(V, Crossed(V, x, f, base, j), f[j], m, base + j) == Crossed(V, x, f, base, j + 1);
    }
    y := a[..];
  }

  /** A whole stage on the first `b` pairs of blocks after `off`. */
  function Stage<S, G>(V: Space<S, G>, x: seq<G>, f: seq<S>, off: nat, b: nat): (y: seq<G>)
    requires off + Ix(b, 2 * |f|, 0) <= |x|
    ensures |y| == |x|
  {
    if b == 0 then x
    else CrossBlock(V, Stage(V, x, f, off, b - 1), f, off + Ix(b - 1, 2 * |f|, 0))
  }

  lemma {:induction false} StageOutside<S, G>(V: Space<S, G>, x: seq<G>, f: seq<S>, off: nat, b: nat, p: nat)
    requires off + Ix(b, 2 * |f|, 0) <= |x| && p < |x|
    requires p < off || off + Ix(b, 2 * |f|, 0) <= p
    ensures Stage(V, x, f, off, b)[p] == x[p]
  {
    if b > 0 {
      StageOutside(V, x, f, off, b - 1, p);
      CrossedEntries(V, Stage(V, x, f, off, b - 1), f, off + Ix(b - 1, 2 * |f|, 0), |f|);
    }
  }

  lemma {:induction false} StageLastBlock<S, G>(V: Space<S, G>, x: seq<G>, f: seq<S>, off: nat, b: nat, j: nat, p: nat)
    requires off + Ix(b + 1, 2 * |f|, 0) <= |x| && j < |f| && p == off + Ix(b, 2 * |f|, 0) + j
    ensures PairAt(V, x, Stage(V, x, f, off, b + 1), f[j], |f|, p)
  {
    var base := off + Ix(b, 2 * |f|, 0);
    StageOutside(V, x, f, off, b, p);
    StageOutside(V, x, f, off, b, p + |f|);
    CrossedEntries(V, Stage(V, x, f, off, b), f, base, |f|);
  }

  lemma {:induction false} StageEntries<S, G>(
      V: Space<S, G>, x: seq<G>, f: seq<S>, off: nat, blocks: nat, b: nat, j: nat, p: nat)
    requires off + Ix(blocks, 2 * |f|, 0) <= |x| && b < blocks && j < |f| && p == off + Ix(b, 2 * |f|, 0) + j
    ensures PairAt(V, x, Stage(V, x, f, off, blocks), f[j], |f|, p)
  {
    if b == blocks - 1 {
      StageLastBlock(V, x, f, off, b, j, p);
    } else {
      var rest := blocks - 1;
      StageEntries(V, x, f, off, rest, b, j, p);
      IxLess(b, 2 * |f|, |f| + j, rest);
      IxOffset(b, 2 * |f|, |f| + j);
      var y, base := Stage(V, x, f, off, rest), off + Ix(rest, 2 * |f|, 0);
      CrossedBefore(V, y, f, base, p);
      CrossedBefore(V, y, f, base, p + |f|);
    }
  }

  lemma {:induction false} CrossedBefore<S, G>(V: Space<S, G>, x: seq<G>, f: seq<S>, base: nat, p: nat)
    requires base + 2 * |f| <= |x| && p < base
    ensures CrossBlock(V, x, f, base)[p] == x[p]
  {
    CrossedEntries(V, x, f, base, |f|);
  }

  /** The stage as seen from the part of the array it works on. */
  lemma {:induction false} StageWindow<S, G>(
      V: Space<S, G>, x: seq<G>, y: seq<G>, v: S, e: nat, m: nat, off: nat, end: nat, blocks: nat)
    requires end == off + Ix(blocks, 2 * m, 0) <= |x|
    requires y == Stage(V, x, Factors(V.ring, v, e, m), off, blocks)
    ensures AllPaired(V, x[off..end], y[off..end], v, e, m, blocks)
    ensures forall p | 0 <= p < off || end <= p < |x| :: y[p] == x[p]
  {
    var f, xs, ys := Factors(V.ring, v, e, m), x[off..end], y[off..end];
    forall b: nat, j: nat | b < blocks && j < m
      ensures Paired(V, xs, ys, v, e, m, b, j)
    {
      var p := off + Ix(b, 2 * m, 0) + j;
      StageEntries(V, x, f, off, blocks, b, j, p);
      WindowPair(V, x, y, v, e, m, off, end, blocks, b, j, p, f[j]);
    }
    forall p | 0 <= p < off || end <= p < |x|
      ensures y[p] == x[p]
    {
      StageOutside(V, x, f, off, blocks, p);
    }
  }

  lemma {:induction false} WindowPair<S, G>(
      V: Space<S, G>, x: seq<G>, y: seq<G>, v: S, e: nat, m: nat, off: nat, end: nat, blocks: nat,
      b: nat, j: nat, p: nat, t: S)
    requires |x| == |y| && end == off + Ix(blocks, 2 * m, 0) <= |x| && b < blocks && j < m
    requires p == off + Ix(b, 2 * m, 0) + j && t == Pow(V.ring, v, e * j) && PairAt(V, x, y, t, m, p)
    ensures Paired(V, x[off..end], y[off..end], v, e, m, b, j)
  {
    IxOffset(b, 2 * m, j);
    IxOffset(b, 2 * m, j + m);
    IxLess(b, 2 * m, j + m, blocks);
  }

  lemma {:induction false} StageNext<S, G>(
      V: Space<S, G>, x: seq<G>, f: seq<S>, off: nat, m: nat, b: nat, blocks: nat, base: nat)
    requires |f| == m > 0 && off + Ix(blocks, 2 * m, 0) <= |x| && b < blocks
    requires base == off + Ix(b, 2 * m, 0)
    ensures Ix(b + 1, 2 * m, 0) == Ix(b, 2 * m, 0) + 2 * m <= Ix(blocks, 2 * m, 0)
    ensures Stage(V, x, f, off, b + 1) == CrossBlock(V, Stage(V, x, f, off, b), f, base)
  {
    IxLess(b, 2 * m, 2 * m - 1, blocks);
    IxOffset(b, 2 * m, 2 * m - 1);
  }

  /** The loop over the pairs of blocks of one stage. */
  method RunStage<S(!new), G(!new)>(
      V: Space<S, G>, a: array<G>, off: nat, domain: seq<S>, n: nat, m: nat, e: nat, inverse: bool,
      ghost w: S, ghost blocks: nat)
    requires IsSpace(V) && RootTable(V.ring, domain, w, n)
    requires n > 0 && Pow(V.ring, w, n) == V.ring.one
    requires m > 0 && Halves(e, m, n) && n == Ix(blocks, 2 * m, 0) && off + n <= a.Length
    modifies a
    ensures a[..] == Stage(V, old(a[..]), Factors(V.ring, RootFor(V.ring, w, n, inverse), e, m), off, blocks)
  {
    ghost var x, f := a[..], Factors(V.ring, RootFor(V.ring, w, n, inverse), e, m);
    ghost var y := x;
    var k := 0;
    ghost var b: nat := 0;
    assert k == Ix(b, 2 * m, 0) && y == Stage(V, x, f, off, b);
    hide Pow, RootTable, Factors, RootFor, Stage, CrossBlock, Ix, Halves;
    while k < n
      invariant b <= blocks && k == Ix(b, 2 * m, 0) <= n
      invariant a[..] == y
      invariant y == Stage(V, x, f, off, b)
    {
      var base := off + k;
      StageNext(V, x, f, off, m, b, blocks, base);
      y := ButterflyBlock(V, a, base, domain, n, m, e, inverse, w, f, y);
      k := k + 2 * m;
      b := b + 1;
    }
    if b < blocks {
      IxLess(b, 2 * m, 0, blocks);
    }
  }

  // ----- fft_inplace_aux, fft_inplace and ifft_inplace -----

  lemma {:induction false} HalfTurnInverse<S(!new)>(R: Ring<S>, w: S, l: nat, inverse: bool)
    requires IsRing(R) && l > 0 && HalfTurn(R, w, l)
    ensures Pow(R, RootFor(R, w, Pow2(l), inverse), Pow2(l - 1)) == R.MinusOne()
  {
    var h := Pow2(l - 1);
    if inverse {
      PowMul(R, w, 2 * h - 1, h);
      PowMul(R, w, h, 2 * h - 1);
      assert (2 * h - 1) * h == h * (2 * h - 1);
      PowMinusOneOdd(R, h - 1);
    }
  }

  /** The sizes at a stage: 2^(h+1) blocks of 2^s entries are left. */
  lemma {:induction false} StageShape(l: nat, h: nat, s: nat)
    requires l == h + 1 + s
    ensures var n, m, e := Pow2(l), Pow2(s), Pow2(h);
            Ix(e, 2 * m, 0) == n && Halves(e, m, n) && n / (2 * m) == e && e * m == Pow2(l - 1)
  {
    var m, e := Pow2(s), Pow2(h);
    Pow2Add(h, s);
    IxProduct(e, 2 * m, 0);
    assert e * (2 * m) == 2 * (e * m);
    DivModUnique(Pow2(l), 2 * m, e, 0);
  }

  /** One stage of the outer loop: it halves the number of blocks and touches nothing else. */
  method StagePass<S(!new), G(!new)>(
      V: Space<S, G>, a: array<G>, off: nat, domain: seq<S>, n: nat, m: nat, inverse: bool, ghost end: nat,
      ghost w: S, ghost c: seq<G>, ghost v: S, ghost l: nat, ghost h: nat, ghost s: nat, ghost k: nat, ghost d: nat)
    requires IsSpace(V) && RootTable(V.ring, domain, w, n) && HalfTurn(V.ring, w, l) && Pow(V.ring, w, n) == V.ring.one
    requires l == h + 1 + s && k == h + 1 && n == Pow2(l) && m == Pow2(s) && d == 2 * m
    requires v == RootFor(V.ring, w, n, inverse)
    requires end == off + n <= a.Length
    requires InBlocks(V, a[off..end], c, v, k, m)
    modifies a
    ensures InBlocks(V, a[off..end], c, v, h, d)
    ensures forall p | 0 <= p < off || end <= p < a.Length :: a[p] == old(a[p])
  {
    ghost var blocks, x := Pow2(h), a[..];
    StageShape(l, h, s);
    HalfTurnInverse(V.ring, w, l, inverse);
    var exponent := n / (2 * m);
    RunStage(V, a, off, domain, n, m, exponent, inverse, w, blocks);
    ghost var y := a[..];
    StageWindow(V, x, y, v, blocks, m, off, end, blocks);
    StageStep(V, x[off..end], y[off..end], c, v, k, m, h, d);
  }

  /** fft_inplace_aux: the stages that remain when the array already consists of finished blocks of 2^logDiff.
      `end` is the end of the part of the array that is transformed. */
  method FftInplaceAux<S(!new), G(!new)>(
      V: Space<S, G>, a: array<G>, off: nat, domain: seq<S>, l: nat, logDiff: nat, inverse: bool,
      ghost w: S, ghost c: seq<G>, ghost end: nat, ghost left: nat)
    requires IsSpace(V) && HalfTurn(V.ring, w, l) && RootTable(V.ring, domain, w, Pow2(l))
    requires l == left + logDiff && end == off + Pow2(l) <= a.Length
    requires InBlocks(V, a[off..end], c, RootFor(V.ring, w, Pow2(l), inverse), left, Pow2(logDiff))
    modifies a
    ensures a[off..end] == Transform(V, c, RootFor(V.ring, w, Pow2(l), inverse), Pow2(l))
    ensures forall p | 0 <= p < off || end <= p < a.Length :: a[p] == old(a[p])
  {
    var n, m := Pow2(l), Pow2(logDiff);
    ghost var v := RootFor(V.ring, w, n, inverse);
    HalfTurnIsPrincipal(V.ring, w, l);
    ghost var k, s := left, logDiff;
    for i := 0 to l - logDiff
      invariant l == k + s && s == logDiff + i && m == Pow2(s)
      invariant InBlocks(V, a[off..end], c, v, k, m)
      invariant forall p | 0 <= p < off || end <= p < a.Length :: a[p] == old(a[p])
    {
      ghost var h := k - 1;
      var d := 2 * m;
      StagePass(V, a, off, domain, n, m, inverse, end, w, c, v, l, h, s, k, d);
      m := d;
      k, s := h, s + 1;
    }
    StagesComplete(V, a[off..end], c, v, k, m);
  }

  /** The bit-reversed coefficients are blocks of one entry. */
  lemma {:induction false} ReversedInBlocks<S(!new), G(!new)>(
      V: Space<S, G>, x: seq<G>, c: seq<G>, v: S, l: nat, m: nat)
    requires IsSpace(V)
    requires |c| == Pow2(l) && x == BitReversed(c, l) && m == 1
    ensures InBlocks(V, x, c, v, l, m)
  {
    forall b: nat, j: nat | b < Pow2(l) && j < m
      ensures InBlock(V, x, c, v, l, m, b, j)
    {
      IxProduct(b, 1, 0);
      SingleTerm(V, c, v, Pow2(l), Rev(l, b), 1, 0);
    }
  }

  /** A block whose later terms read zeros has only its first term. */
  lemma {:induction false} SingleTerm<S(!new), G(!new)>(V: Space<S, G>, c: seq<G>, v: S, e: nat, r: nat, m: nat, j: nat)
    requires IsSpace(V)
    requires m > 0 && |c| <= e
    ensures Block(V, c, v, e, r, m, j) == At(V.group, c, r)
  {
    var f := BlockTerms(V, c, v, e, r, j);
    forall t | 0 < t < m
      ensures f(t) == V.group.zero
    {
      NatProduct(e, j);
      NatProduct(e * j, t);
      MulMono(e, 1, t);
      var x: nat, p: nat := e * j * t, r + e * t;
      BlockTerm(V, c, v, e, r, j, t, x, p);
      ScaleZero(V, Pow(V.ring, v, x), V.group.zero);
    }
    SumSingle(V.group, m, f, 0);
    BlockTerm(V, c, v, e, r, j, 0, 0, r);
    ScaleOne(V, At(V.group, c, r));
  }

  // ----- the replication shortcut -----

  /** `x` holds `ratio` copies of `value` from `base` on. */
  ghost predicate RowAt<G>(x: seq<G>, base: nat, ratio: nat, value: G) {
    base + ratio <= |x| && forall p | base <= p < base + ratio :: x[p] == value
  }

  ghost predicate Row<G>(x: seq<G>, off: nat, ratio: nat, b: nat, value: G) {
    RowAt(x, off + Ix(b, ratio, 0), ratio, value)
  }

  method FillRow<G>(a: array<G>, src: nat, base: nat, ratio: nat)
    requires src <= base && base + ratio <= a.Length && src < a.Length
    modifies a
    ensures RowAt(a[..], base, ratio, old(a[src]))
    ensures forall p | 0 <= p < base || base + ratio <= p < a.Length :: a[p] == old(a[p])
  {
    for j := 0 to ratio
      invariant a[src] == old(a[src])
      invariant forall p | base <= p < base + j :: a[p] == old(a[src])
      invariant forall p | 0 <= p < base || base + j <= p < a.Length :: a[p] == old(a[p])
    {
      a[base + j] := a[src];
    }
  }

  lemma {:induction false} IxAtLeast(b: nat, m: nat)
    requires m > 0
    ensures b <= Ix(b, m, 0)
  {
    if b > 0 {
      IxAtLeast(b - 1, m);
    }
  }

  lemma {:induction false} RowKept<G>(x: seq<G>, y: seq<G>, off: nat, ratio: nat, b: nat, i: nat, value: G)
    requires |x| == |y| && i < b && Row(x, off, ratio, b, value)
    requires forall p | off + Ix(i, ratio, 0) + ratio <= p < |x| :: y[p] == x[p]
    ensures Row(y, off, ratio, b, value)
  {
    if ratio > 0 {
      IxLess(i, ratio, ratio - 1, b);
      IxOffset(i, ratio, ratio - 1);
    }
  }

  ghost predicate Rows<G>(x: seq<G>, off: nat, ratio: nat, y: seq<G>, from: nat) {
    forall b | from <= b < |y| :: Row(x, off, ratio, b, y[b])
  }

  /** Every one of the first `count` entries `y` is copied `ratio` times, from the last entry to the first. */
  method Replicate<G>(a: array<G>, off: nat, count: nat, ratio: nat, ghost y: seq<G>, ghost end: nat)
    requires ratio > 0 && end == off + Ix(count, ratio, 0) <= a.Length
    requires |y| == count && forall p | off <= p < off + count :: p < a.Length && a[p] == y[p - off]
    modifies a
    ensures Rows(a[..], off, ratio, y, 0)
    ensures forall p | 0 <= p < off || end <= p < a.Length :: a[p] == old(a[p])
  {
    IxAtLeast(count, ratio);
    for i := count downto 0
      invariant Rows(a[..], off, ratio, y, i)
      invariant forall p | off <= p < off + i :: a[p] == y[p - off]
      invariant forall p | 0 <= p < off || end <= p < a.Length :: a[p] == old(a[p])
    {
      IxAtLeast(i, ratio);
      IxLess(i, ratio, ratio - 1, count);
      IxOffset(i, ratio, ratio - 1);
      IxProduct(i, ratio, 0);
      ghost var x := a[..];
      var base := off + i * ratio;
      FillRow(a, off + i, base, ratio);
      ghost var z := a[..];
      forall b | i <= b < count
        ensures Row(z, off, ratio, b, y[b])
      {
        if i < b {
          assert Row(x, off, ratio, b, y[b]);
          RowKept(x, z, off, ratio, b, i, y[b]);
        }
      }
    }
  }

  /** The replicated, bit-reversed coefficients are already finished blocks of the padded transform. */
  lemma {:induction false} ReplicatedInBlocks<S(!new), G(!new)>(
      V: Space<S, G>, x: seq<G>, off: nat, end: nat, y: seq<G>, c: seq<G>, v: S, d: nat, ratio: nat)
    requires IsSpace(V)
    requires |c| == Pow2(d) && y == BitReversed(c, d) && ratio > 0 && end == off + Ix(|y|, ratio, 0) <= |x|
    requires Rows(x, off, ratio, y, 0)
    ensures InBlocks(V, x[off..end], c, v, d, ratio)
  {
    var xs := x[off..end];
    forall b: nat, j: nat | b < Pow2(d) && j < ratio
      ensures InBlock(V, xs, c, v, d, ratio, b, j)
    {
      assert Row(x, off, ratio, b, y[b]);
      IxOffset(b, ratio, j);
      IxLess(b, ratio, j, |y|);
      SingleTerm(V, c, v, Pow2(d), Rev(d, b), ratio, j);
    }
  }

  /** fft_inplace: the transform of size 2^l of the first 2^logDegree entries; whatever stands in the
      remaining entries of the array is overwritten and plays no part. */
  method FftInplace<S(!new), G(!new)>(
      V: Space<S, G>, a: array<G>, off: nat, domain: seq<S>, l: nat, logDegree: nat,
      ghost w: S, ghost mid: nat, ghost end: nat)
    requires IsSpace(V) && HalfTurn(V.ring, w, l) && RootTable(V.ring, domain, w, Pow2(l))
    requires logDegree <= l && mid == off + Pow2(logDegree) && end == off + Pow2(l) <= a.Length
    requires mid <= end
    modifies a
    ensures a[off..end] == Transform(V, old(a[off..mid]), w, Pow2(l))
    ensures forall p | 0 <= p < off || end <= p < a.Length :: a[p] == old(a[p])
  {
    ghost var c := a[off..mid];
    var n, size := Pow2(l), Pow2(logDegree);
    var logDiff := l - logDegree;
    ghost var m := Pow2(logDiff);
    if logDiff > 0 {
      Reorganize(a, off, size, logDegree, mid);
      ghost var y := a[off..mid];
      var ratio := Pow2(logDiff);
      Pow2Add(logDegree, logDiff);
      IxProduct(size, ratio, 0);
      Replicate(a, off, size, ratio, y, end);
      ReplicatedInBlocks(V, a[..], off, end, y, c, w, logDegree, m);
    } else {
      assert mid == end && logDegree == l;
      Reorganize(a, off, n, l, end);
      ReversedInBlocks(V, a[off..end], c, w, l, m);
    }
    FftInplaceAux(V, a, off, domain, l, logDiff, false, w, c, end, logDegree);
  }

  /** The final loop of the inverse transforms. */
  method ScaleAll<S, G>(V: Space<S, G>, a: array<G>, off: nat, n: nat, s: S, ghost end: nat)
    requires end == off + n <= a.Length
    modifies a
    ensures a[off..end] == Scaled(V, s, old(a[off..end]))
    ensures forall p | 0 <= p < off || end <= p < a.Length :: a[p] == old(a[p])
  {
    for i := 0 to n
      invariant forall p | off <= p < off + i :: a[p] == V.Scale(s, old(a[p]))
      invariant forall p | 0 <= p < off || off + i <= p < a.Length :: a[p] == old(a[p])
    {
      a[off + i] := V.Scale(s, a[off + i]);
    }
  }

  /** ifft_inplace: the transform with the inverse root, divided by the size. */
  method IfftInplace<S(!new), G(!new)>(
      V: Space<S, G>, a: array<G>, off: nat, domain: seq<S>, l: nat, ghost w: S, ghost end: nat)
    requires IsSpace(V) && HalfTurn(V.ring, w, l) && RootTable(V.ring, domain, w, Pow2(l))
    requires end == off + Pow2(l) <= a.Length
    modifies a
    ensures a[off..end] == TransformFor(V, old(a[off..end]), w, Pow2(l), true)
    ensures forall p | 0 <= p < off || end <= p < a.Length :: a[p] == old(a[p])
  {
    ghost var c := a[off..end];
    var n := Pow2(l);
    Reorganize(a, off, n, l, end);
    ReversedInBlocks(V, a[off..end], c, RootFor(V.ring, w, n, true), l, Pow2(0));
    FftInplaceAux(V, a, off, domain, l, 0, true, w, c, end, l);
    ScaleAll(V, a, off, n, V.ring.Inv(OfNat(V.ring, n)), end);
  }
}
