/**
 * Poseidon and Rescue as systems of equations between the states before and after every round: what their
 * arithmetisation in a circuit checks.  The permutation is the one solution.
 */
module Systems {
  import opened Algebra
  import opened Sums
  import opened Poseidon
  import opened AdditionChain
  import opened IntLinear
  import PoseidonCode
  import Anemoi
  import Rescue

  /** The products of two rows, entry by entry. */
  function Term<T>(R: Ring<T>, a: seq<T>, b: seq<T>): int -> T {
    j => if 0 <= j < |a| && j < |b| then R.Mul(a[j], b[j]) else R.Zero()
  }

  function IntTerm<T>(R: Ring<T>, c: seq<int>, b: seq<T>): int -> T {
    j => if 0 <= j < |c| && j < |b| then R.Mul(OfInt(R, c[j]), b[j]) else R.Zero()
  }

  lemma {:induction false} DotIsSum<T>(R: Ring<T>, a: seq<T>, b: seq<T>, n: nat)
    requires n <= |a| && n <= |b|
    ensures Dot(R, a, b, n) == Sum(R.additive, n, Term(R, a, b))
  {
    if n > 0 { DotIsSum(R, a, b, n - 1); }
  }

  lemma {:induction false} IntDotIsSum<T>(R: Ring<T>, c: seq<int>, b: seq<T>, n: nat)
    requires n <= |c| && n <= |b|
    ensures IntDot(R, c, b, n) == Sum(R.additive, n, IntTerm(R, c, b))
  {
    hide OfInt;
    if n > 0 { IntDotIsSum(R, c, b, n - 1); }
  }

  /** t is the matrix applied to p, plus the constants k. */
  ghost predicate Mixed<T>(R: Ring<T>, M: seq<seq<T>>, p: seq<T>, k: seq<T>, t: seq<T>) {
    && Square(M, |p|) && |k| == |p| == |t|
    && forall i | 0 <= i < |p| :: t[i] == R.Plus(Sum(R.additive, |p|, Term(R, M[i], p)), k[i])
  }

  lemma {:induction false} AffineExactly<T>(R: Ring<T>, M: seq<seq<T>>, p: seq<T>, k: seq<T>, t: seq<T>)
    requires Square(M, |p|) && |k| == |p|
    ensures t == Affine(R, M, p, k) <==> Mixed(R, M, p, k, t)
  {
    hide Dot, Sum;
    forall i | 0 <= i < |p| ensures Dot(R, M[i], p, |p|) == Sum(R.additive, |p|, Term(R, M[i], p)) {
      DotIsSum(R, M[i], p, |p|);
    }
  }

  // ---- Poseidon ----

  /** Fifth powers of all elements, or of the last one only. */
  ghost predicate Powered<T>(R: Ring<T>, full: bool, s: seq<T>, p: seq<T>) {
    |p| == |s| && forall i | 0 <= i < |s| :: p[i] == if full || i == |s| - 1 then Pow(R, s[i], 5) else s[i]
  }

  lemma {:induction false} SBoxExactly<T(!new)>(R: Ring<T>, full: bool, s: seq<T>, p: seq<T>)
    requires IsRing(R) && s != []
    ensures p == SBox(R, full, s) <==> Powered(R, full, s, p)
  {
    hide Quint, Pow;
    forall i | 0 <= i < |s| ensures Quint(R, s[i]) == Pow(R, s[i], 5) { QuintIsPower(R, s[i]); }
  }

  /** The states before and after every round, and those after its S-boxes. */
  ghost predicate PoseidonSystem<T>(
      R: Ring<T>, M: seq<seq<T>>, full: seq<bool>, keys: seq<seq<T>>, trace: seq<seq<T>>, mids: seq<seq<T>>) {
    && |trace| == |keys| + 1 && |mids| == |keys| == |full|
    && forall r | 0 <= r < |keys| ::
         Powered(R, full[r], trace[r], mids[r]) && Mixed(R, M, mids[r], keys[r], trace[r + 1])
  }

  /** Rounds of either kind in any order. */
  function RoundsOf<T>(R: Ring<T>, M: seq<seq<T>>, full: seq<bool>, s: seq<T>, keys: seq<seq<T>>): (t: seq<T>)
    requires s != [] && Square(M, |s|) && Keys(keys, |s|) && |full| == |keys|
    ensures |t| == |s|
    decreases |keys|
  {
    if keys == [] then s
    else RoundsOf(R, M, full[1..], Affine(R, M, SBox(R, full[0], s), keys[0]), keys[1..])
  }

  lemma {:induction false} RoundsSolve<T(!new)>(
      R: Ring<T>, M: seq<seq<T>>, full: seq<bool>, s: seq<T>, keys: seq<seq<T>>)
    returns (trace: seq<seq<T>>, mids: seq<seq<T>>)
    requires IsRing(R) && s != [] && Square(M, |s|) && Keys(keys, |s|) && |full| == |keys|
    ensures PoseidonSystem(R, M, full, keys, trace, mids)
    ensures trace[0] == s && trace[|keys|] == RoundsOf(R, M, full, s, keys)
    decreases |keys|
  {
    hide Powered, Mixed, SBox, Affine;
    if keys == [] {
      trace, mids := [s], [];
    } else {
      var p := SBox(R, full[0], s);
      var t := Affine(R, M, p, keys[0]);
      SBoxExactly(R, full[0], s, p);
      AffineExactly(R, M, p, keys[0], t);
      var tr, ms := RoundsSolve(R, M, full[1..], t, keys[1..]);
      trace, mids := [s] + tr, [p] + ms;
      forall r | 1 <= r < |keys|
        ensures Powered(R, full[r], trace[r], mids[r]) && Mixed(R, M, mids[r], keys[r], trace[r + 1])
      {
        var i := r - 1;
        assert full[1..][i] == full[r] && keys[1..][i] == keys[r] && ms[i] == mids[r];
        assert tr[i] == trace[r] && tr[i + 1] == trace[r + 1];
      }
    }
  }

  lemma {:induction false} SolutionEnds<T(!new)>(
      R: Ring<T>, M: seq<seq<T>>, full: seq<bool>, s: seq<T>, keys: seq<seq<T>>, trace: seq<seq<T>>, mids: seq<seq<T>>)
    requires IsRing(R) && s != [] && Square(M, |s|) && Keys(keys, |s|) && |full| == |keys|
    requires PoseidonSystem(R, M, full, keys, trace, mids) && trace[0] == s
    ensures trace[|keys|] == RoundsOf(R, M, full, s, keys)
    decreases |keys|
  {
    hide Powered, Mixed, SBox, Affine;
    if keys != [] {
      SBoxExactly(R, full[0], s, mids[0]);
      AffineExactly(R, M, mids[0], keys[0], trace[1]);
      var f, ks, tr, ms := full[1..], keys[1..], trace[1..], mids[1..];
      forall r | 0 <= r < |ks|
        ensures Powered(R, f[r], tr[r], ms[r]) && Mixed(R, M, ms[r], ks[r], tr[r + 1])
      {
        var i := r + 1;
        assert f[r] == full[i] && ks[r] == keys[i] && tr[r] == trace[i] && ms[r] == mids[i];
        assert tr[r + 1] == trace[i + 1];
      }
      SolutionEnds(R, M, f, trace[1], ks, tr, ms);
    }
  }

  /** Rounds of one kind, then others. */
  lemma {:induction false} RoundsThen<T>(
      R: Ring<T>, M: seq<seq<T>>, kind: bool, full: seq<bool>, s: seq<T>, a: seq<seq<T>>, b: seq<seq<T>>)
    requires s != [] && Square(M, |s|) && Keys(a, |s|) && Keys(b, |s|) && |full| == |a| + |b|
    requires forall r | 0 <= r < |a| :: full[r] == kind
    ensures Keys(a + b, |s|)
    ensures RoundsOf(R, M, full, s, a + b) == RoundsOf(R, M, full[|a|..], Rounds(R, M, kind, s, a), b)
    decreases |a|
  {
    hide SBox, Affine;
    if a == [] {
      assert a + b == b && full[0..] == full;
    } else {
      assert (a + b)[0] == a[0] && (a + b)[1..] == a[1..] + b && full[1..][|a| - 1..] == full[|a|..];
      RoundsThen(R, M, kind, full[1..], Affine(R, M, SBox(R, kind, s), a[0]), a[1..], b);
    }
  }

  /** Poseidon's rounds in order: full, partial, full. */
  ghost predicate Kinds(full: seq<bool>, start: nat, partial: nat, end: nat) {
    |full| == start + partial + end && forall r | 0 <= r < |full| :: full[r] == (r < start || start + partial <= r)
  }

  lemma {:induction false} PlainRounds<T>(
      R: Ring<T>, M: seq<seq<T>>, full: seq<bool>, s: seq<T>, start: seq<seq<T>>, partial: seq<seq<T>>,
      end: seq<seq<T>>)
    requires s != [] && Square(M, |s|) && Keys(start, |s|) && Keys(partial, |s|) && Keys(end, |s|)
    requires Kinds(full, |start|, |partial|, |end|)
    ensures Keys(start + (partial + end), |s|)
    ensures RoundsOf(R, M, full, s, start + (partial + end))
            == Rounds(R, M, true, PartialRounds(R, M, Rounds(R, M, true, s, start), partial), end)
  {
    hide Rounds, PartialRounds, Square;
    var s1, f1 := Rounds(R, M, true, s, start), full[|start|..];
    var s2, f2 := Rounds(R, M, false, s1, partial), f1[|partial|..];
    RoundsThen(R, M, false, f1, s1, partial, end);
    RoundsThen(R, M, true, full, s, start, partial + end);
    RoundsArePartial(R, M, s1, partial);
    RoundsThen(R, M, true, f2, s2, end, []);
    assert end + [] == end;
  }

  /** The permutation is exactly where the equations lead. */
  lemma {:induction false} PoseidonExactly<T(!new)>(
      R: Ring<T>, M: seq<seq<T>>, full: seq<bool>, s: seq<T>, first: seq<T>, start: seq<seq<T>>, partial: seq<seq<T>>,
      end: seq<seq<T>>, t: seq<T>)
    requires IsRing(R) && s != [] && Square(M, |s|)
    requires |first| == |s| && Keys(start, |s|) && Keys(partial, |s|) && Keys(end, |s|)
    requires Kinds(full, |start|, |partial|, |end|)
    ensures t == PoseidonCode.PlainPermutation(R, M, s, first, start, partial, end)
            <==> exists trace, mids ::
                   && PoseidonSystem(R, M, full, start + (partial + end), trace, mids)
                   && trace[0] == seq(|s|, i requires 0 <= i < |s| => R.Plus(s[i], first[i]))
                   && trace[|full|] == t
  {
    hide Powered, Mixed, Rounds, PartialRounds, RoundsOf, Square;
    var s0 := seq(|s|, i requires 0 <= i < |s| => R.Plus(s[i], first[i]));
    assert s0 == AddKey(R, s, first, 0) by { assert first[0..] == first; }
    var keys := start + (partial + end);
    PlainRounds(R, M, full, s0, start, partial, end);
    var trace, mids := RoundsSolve(R, M, full, s0, keys);
    forall tr, ms | PoseidonSystem(R, M, full, keys, tr, ms) && tr[0] == s0
      ensures tr[|full|] == RoundsOf(R, M, full, s0, keys)
    {
      SolutionEnds(R, M, full, s0, keys, tr, ms);
    }
  }

  // ---- Rescue ----

  /** Fifth powers, or the elements of which they are the fifth powers. */
  ghost predicate Raised<T>(R: Ring<T>, root: bool, s: seq<T>, p: seq<T>) {
    |p| == |s| && forall i | 0 <= i < |s| :: if root then Pow(R, p[i], 5) == s[i] else p[i] == Pow(R, s[i], 5)
  }

  lemma {:induction false} RaisedExactly<T(!new)>(R: Ring<T>, q: nat, root: bool, s: seq<T>, p: seq<T>)
    requires IsRing(R) && Fermat(R, q) && 5 * ROOT == 2 * (q - 1) + 1
    ensures p == (if root then Rescue.RootAll(R, s) else QuintAll(R, s)) <==> Raised(R, root, s, p)
  {
    hide Quint, Pow, Fermat;
    forall i | 0 <= i < |s| && i < |p|
      ensures Quint(R, s[i]) == Pow(R, s[i], 5) && (p[i] == Anemoi.Root(R, s[i]) <==> Pow(R, p[i], 5) == s[i])
    {
      QuintIsPower(R, s[i]);
      QuintIsPower(R, p[i]);
      RootInvertsQuint(R, q, s[i]);
      RootInvertsQuint(R, q, p[i]);
    }
  }

  lemma {:induction false} LayerExactly<T(!new)>(
      R: Ring<T>, q: nat, M: seq<seq<T>>, root: bool, s: seq<T>, k: seq<T>, p: seq<T>, t: seq<T>)
    requires IsRing(R) && Fermat(R, q) && 5 * ROOT == 2 * (q - 1) + 1
    requires Square(M, |s|) && |k| == |s| && Raised(R, root, s, p)
    ensures t == Rescue.Layer(R, M, root, s, k) <==> Mixed(R, M, p, k, t)
  {
    hide Raised, Mixed, Fermat;
    RaisedExactly(R, q, root, s, p);
    assert Rescue.Layer(R, M, root, s, k) == Affine(R, M, p, k);
    AffineExactly(R, M, p, k, t);
  }

  /** Layers of powers and of roots in turn. */
  ghost predicate RescueSystem<T>(
      R: Ring<T>, M: seq<seq<T>>, root: bool, keys: seq<seq<T>>, trace: seq<seq<T>>, mids: seq<seq<T>>) {
    && |trace| == |keys| + 1 && |mids| == |keys|
    && forall r | 0 <= r < |keys| ::
         Raised(R, root == (r % 2 == 0), trace[r], mids[r]) && Mixed(R, M, mids[r], keys[r], trace[r + 1])
  }

  lemma {:induction false} Turns(root: bool, i: nat, r: nat)
    requires r == i + 1
    ensures (!root == (i % 2 == 0)) == (root == (r % 2 == 0))
  {
  }

  /** A layer in front of a system. */
  lemma {:induction false} LayerFirst<T>(
      R: Ring<T>, M: seq<seq<T>>, root: bool, keys: seq<seq<T>>, s: seq<T>, p: seq<T>, tr: seq<seq<T>>,
      ms: seq<seq<T>>)
    requires keys != [] && RescueSystem(R, M, !root, keys[1..], tr, ms)
    requires Raised(R, root, s, p) && Mixed(R, M, p, keys[0], tr[0])
    ensures RescueSystem(R, M, root, keys, [s] + tr, [p] + ms)
  {
    hide Raised, Mixed;
    var trace, mids, ks := [s] + tr, [p] + ms, keys[1..];
    forall r | 0 <= r < |keys|
      ensures Raised(R, root == (r % 2 == 0), trace[r], mids[r]) && Mixed(R, M, mids[r], keys[r], trace[r + 1])
    {
      if r > 0 {
        var i := r - 1;
        assert ks[i] == keys[r] && ms[i] == mids[r] && tr[i] == trace[r] && tr[i + 1] == trace[r + 1];
        Turns(root, i, r);
      }
    }
  }

  lemma {:induction false} LayersSolve<T(!new)>(
      R: Ring<T>, q: nat, M: seq<seq<T>>, root: bool, s: seq<T>, keys: seq<seq<T>>)
    returns (trace: seq<seq<T>>, mids: seq<seq<T>>)
    requires IsRing(R) && Fermat(R, q) && 5 * ROOT == 2 * (q - 1) + 1 && Square(M, |s|) && Keys(keys, |s|)
    ensures RescueSystem(R, M, root, keys, trace, mids)
    ensures trace[0] == s && trace[|keys|] == Rescue.Layers(R, M, root, s, keys)
    decreases |keys|
  {
    hide Raised, Mixed, Rescue.Layer, Rescue.RootAll, QuintAll, Fermat, Square;
    if keys == [] {
      trace, mids := [s], [];
    } else {
      var p := if root then Rescue.RootAll(R, s) else QuintAll(R, s);
      var t := Rescue.Layer(R, M, root, s, keys[0]);
      RaisedExactly(R, q, root, s, p);
      LayerExactly(R, q, M, root, s, keys[0], p, t);
      var tr, ms := LayersSolve(R, q, M, !root, t, keys[1..]);
      trace, mids := [s] + tr, [p] + ms;
      LayerFirst(R, M, root, keys, s, p, tr, ms);
    }
  }

  lemma {:induction false} LayersEnd<T(!new)>(
      R: Ring<T>, q: nat, M: seq<seq<T>>, root: bool, s: seq<T>, keys: seq<seq<T>>, trace: seq<seq<T>>,
      mids: seq<seq<T>>)
    requires IsRing(R) && Fermat(R, q) && 5 * ROOT == 2 * (q - 1) + 1 && Square(M, |s|) && Keys(keys, |s|)
    requires RescueSystem(R, M, root, keys, trace, mids) && trace[0] == s
    ensures trace[|keys|] == Rescue.Layers(R, M, root, s, keys)
    decreases |keys|
  {
    hide Raised, Mixed, Rescue.Layer, Fermat;
    if keys != [] {
      assert root == (root == (0 % 2 == 0));
      LayerExactly(R, q, M, root, s, keys[0], mids[0], trace[1]);
      var ks, tr, ms := keys[1..], trace[1..], mids[1..];
      forall r | 0 <= r < |ks|
        ensures Raised(R, !root == (r % 2 == 0), tr[r], ms[r]) && Mixed(R, M, ms[r], ks[r], tr[r + 1])
      {
        var i := r + 1;
        assert ks[r] == keys[i] && tr[r] == trace[i] && ms[r] == mids[i] && tr[r + 1] == trace[i + 1];
        Turns(root, r, i);
      }
      LayersEnd(R, q, M, !root, trace[1], ks, tr, ms);
    }
  }

  /** The permutation is exactly where the equations lead, roots being fixed by their fifth powers. */
  lemma {:induction false} RescueExactly<T(!new)>(
      R: Ring<T>, q: nat, M: seq<seq<T>>, s: seq<T>, keys: seq<seq<T>>, t: seq<T>)
    requires IsRing(R) && Fermat(R, q) && 5 * ROOT == 2 * (q - 1) + 1 && Square(M, |s|) && Keys(keys, |s|)
    ensures t == Rescue.Layers(R, M, false, s, keys)
            <==> exists trace, mids ::
                   RescueSystem(R, M, false, keys, trace, mids) && trace[0] == s && trace[|keys|] == t
  {
    hide Raised, Mixed, Rescue.Layers, Fermat;
    var trace, mids := LayersSolve(R, q, M, false, s, keys);
    forall tr, ms | RescueSystem(R, M, false, keys, tr, ms) && tr[0] == s
      ensures tr[|keys|] == Rescue.Layers(R, M, false, s, keys)
    {
      LayersEnd(R, q, M, false, s, keys, tr, ms);
    }
  }

  /** Key r holds the constants r w to r w + w - 1, after the offset. */
  lemma {:induction false} KeyConstants<T>(ark: seq<T>, off: nat, w: nat, n: nat, r: nat, i: nat, at: nat)
    requires off + Times(n, w) <= |ark| && r < n && i < w && at == off + r * w + i
    ensures at < |ark| && Rescue.KeysOf(ark, off, w, n)[r][i] == ark[at]
    decreases r
  {
    var rest: nat := n - 1;
    Rescue.KeysOfNext(ark, off, off + w, w, n, rest);
    if r > 0 {
      assert r * w == w + (r - 1) * w;
      KeyConstants(ark, off + w, w, rest, r - 1, i, at);
    }
  }
}
