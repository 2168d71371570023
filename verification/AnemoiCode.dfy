/** Anemoi as the C code runs it: in place on an array with the elements x before the elements y. */
module AnemoiCode {
  import Poseidon
  import opened Algebra
  import opened AdditionChain
  import opened Anemoi

  method MultiplyByG<T>(R: Ring<T>, v: T) returns (res: T)
    ensures res == MulG(R, v)
  {
    var tmp := R.Plus(v, v);
    tmp := R.Plus(tmp, v);
    tmp := R.Plus(tmp, tmp);
    res := R.Plus(tmp, v);
  }

  /** Everything outside a segment is as it was. */
  twostate predicate Kept<T>(a: array<T>, off: nat, end: nat)
    reads a
  {
    forall p | 0 <= p < a.Length && (p < off || end <= p) :: a[p] == old(a[p])
  }

  method ApplyMatrix2<T>(R: Ring<T>, a: array<T>, off: nat, ghost end: nat)
    requires end == off + 2 <= a.Length
    modifies a
    ensures a[off..end] == Mat2(R, old(a[off..end])) && Kept(a, off, end)
  {
    var tmp := MultiplyByG(R, a[off + 1]);
    a[off] := R.Plus(a[off], tmp);
    tmp := MultiplyByG(R, a[off]);
    a[off + 1] := R.Plus(a[off + 1], tmp);
  }

  method ApplyMatrix3<T>(R: Ring<T>, a: array<T>, off: nat, ghost end: nat)
    requires end == off + 3 <= a.Length
    modifies a
    ensures a[off..end] == Mat3(R, old(a[off..end])) && Kept(a, off, end)
  {
    var tmp := MultiplyByG(R, a[off + 2]);
    tmp := R.Plus(tmp, a[off]);
    a[off + 2] := R.Plus(a[off + 2], a[off + 1]);
    var gx0 := MultiplyByG(R, a[off]);
    a[off + 2] := R.Plus(a[off + 2], gx0);
    a[off] := R.Plus(a[off + 2], tmp);
    a[off + 1] := R.Plus(a[off + 1], tmp);
  }

  method ApplyMatrix4<T>(R: Ring<T>, a: array<T>, off: nat, ghost end: nat)
    requires end == off + 4 <= a.Length
    modifies a
    ensures a[off..end] == Mat4(R, old(a[off..end])) && Kept(a, off, end)
  {
    a[off] := R.Plus(a[off], a[off + 1]);
    a[off + 2] := R.Plus(a[off + 2], a[off + 3]);
    var tmp := MultiplyByG(R, a[off]);
    a[off + 3] := R.Plus(a[off + 3], tmp);
    tmp := R.Plus(a[off + 1], a[off + 2]);
    tmp := MultiplyByG(R, tmp);
    a[off + 1] := tmp;
    a[off] := R.Plus(a[off], a[off + 1]);
    tmp := MultiplyByG(R, a[off + 3]);
    a[off + 2] := R.Plus(a[off + 2], tmp);
    a[off + 1] := R.Plus(a[off + 1], a[off + 2]);
    a[off + 3] := R.Plus(a[off + 3], a[off]);
  }

  method ApplyMatrix<T>(R: Ring<T>, l: nat, a: array<T>, off: nat, ghost end: nat)
    requires 2 <= l <= 4 && end == off + l <= a.Length
    modifies a
    ensures a[off..end] == Mat(R, l, old(a[off..end])) && Kept(a, off, end)
  {
    if l == 2 {
      ApplyMatrix2(R, a, off, end);
    } else if l == 3 {
      ApplyMatrix3(R, a, off, end);
    } else {
      ApplyMatrix4(R, a, off, end);
    }
  }

  /** Rotates the elements y by one. */
  method ShiftState<T>(a: array<T>, l: nat, ghost end: nat)
    requires 1 <= l && end == l + l == a.Length
    modifies a
    ensures a[l..end] == Rotated(old(a[l..end])) && Kept(a, l, end)
  {
    var tmp := a[l];
    for i := 0 to l - 1
      invariant Kept(a, l, end)
      invariant forall p | l <= p < l + i :: a[p] == old(a[p + 1])
      invariant forall p | l + i <= p < end :: a[p] == old(a[p])
    {
      a[l + i] := a[l + i + 1];
    }
    a[l + l - 1] := tmp;
  }

  method ApplyLinearLayer<T>(R: Ring<T>, l: nat, state: array<T>, ghost end: nat)
    requires 1 <= l <= 4 && end == l + l == state.Length
    modifies state
    ensures state[..] == Linear(R, l, old(state[..]))
  {
    hide Mat, Mat2;
    ghost var s := state[..];
    if l == 1 {
      ApplyMatrix2(R, state, 0, end);
      assert state[0..end] == state[..] && s[0..end] == s;
    } else {
      ApplyMatrix(R, l, state, 0, l);
      assert state[..l] == Mat(R, l, s[..l]) && state[l..end] == s[l..];
      ShiftState(state, l, end);
      ApplyMatrix(R, l, state, l, end);
      assert state[..] == state[..l] + state[l..end];
    }
  }

  method ApplySBox<T(!new)>(R: Ring<T>, x: T, y: T, beta: T, delta: T) returns (x2: T, y2: T)
    requires IsRing(R)
    ensures (x2, y2) == Flystel(R, beta, delta, x, y)
  {
    var tmp := R.Mul(y, y);
    tmp := R.Mul(tmp, beta);
    x2 := R.Minus(x, tmp);
    tmp := FifthRoot(R, x2);
    y2 := R.Minus(y, tmp);
    tmp := R.Mul(y2, y2);
    tmp := R.Mul(tmp, beta);
    tmp := R.Plus(tmp, delta);
    x2 := R.Plus(x2, tmp);
  }

  /** The pair at i after all S-boxes. */
  lemma {:induction false} PairAt<T>(R: Ring<T>, l: nat, beta: T, delta: T, s: seq<T>, t: seq<T>, i: nat)
    requires |s| == 2 * l && i < l && t == FlystelAll(R, l, beta, delta, s)
    ensures (t[i], t[l + i]) == Flystel(R, beta, delta, s[i], s[l + i])
  {
    hide Flystel;
    assert s[l..][i] == s[l + i] && t[l..][i] == t[l + i];
  }

  /** The S-boxes before i are applied, the others not. */
  ghost predicate Applied<T>(l: nat, a: seq<T>, s: seq<T>, t: seq<T>, i: nat) {
    && |a| == |s| == |t| == 2 * l && i <= l
    && (forall p | 0 <= p < l :: a[p] == if p < i then t[p] else s[p])
    && (forall p | l <= p < 2 * l :: a[p] == if p < l + i then t[p] else s[p])
  }

  lemma {:induction false} AppliedNext<T>(l: nat, a: seq<T>, b: seq<T>, s: seq<T>, t: seq<T>, i: nat)
    requires Applied(l, a, s, t, i) && i < l && b == a[i := t[i]][l + i := t[l + i]]
    ensures Applied(l, b, s, t, i + 1)
  {
  }

  method ApplyFlystel<T(!new)>(R: Ring<T>, l: nat, state: array<T>, beta: T, delta: T)
    requires IsRing(R) && state.Length == 2 * l
    modifies state
    ensures state[..] == FlystelAll(R, l, beta, delta, old(state[..]))
  {
    ghost var s, t := state[..], FlystelAll(R, l, beta, delta, state[..]);
    hide Flystel, FlystelAll;
    for i := 0 to l
      invariant Applied(l, state[..], s, t, i)
    {
      ghost var a := state[..];
      assert a[i] == s[i] && a[l + i] == s[l + i];
      var x, y := ApplySBox(R, state[i], state[l + i], beta, delta);
      PairAt(R, l, beta, delta, s, t, i);
      state[i], state[l + i] := x, y;
      assert state[..] == a[i := x][l + i := y];
      AppliedNext(l, a, state[..], s, t, i);
    }
    assert state[..] == t;
  }

  /** The constants of one round: those for x, then those for y. */
  function KeyAt<T>(c: seq<T>, l: nat, base: nat, offset: nat): (k: seq<T>)
    requires base + l <= offset && offset + base + l <= |c|
    ensures |k| == 2 * l
  {
    c[base..base + l] + c[offset + base..offset + base + l]
  }

  method ApplyConstants<T>(R: Ring<T>, l: nat, state: array<T>, c: seq<T>, base: nat, offset: nat)
    requires state.Length == 2 * l && base + l <= offset && offset + base + l <= |c|
    modifies state
    ensures state[..] == AddAll(R, old(state[..]), KeyAt(c, l, base, offset))
  {
    ghost var s, k := state[..], KeyAt(c, l, base, offset);
    for i := 0 to l
      invariant forall p | 0 <= p < l :: state[p] == if p < i then R.Plus(s[p], k[p]) else s[p]
      invariant forall p | l <= p < 2 * l :: state[p] == if p < l + i then R.Plus(s[p], k[p]) else s[p]
    {
      state[i] := R.Plus(state[i], c[base + i]);
      state[l + i] := R.Plus(state[l + i], c[offset + base + i]);
    }
  }

  // ---- the permutation ----

  /** The constants of all rounds from round r on; base is l times r. */
  function KeysFrom<T>(c: seq<T>, l: nat, base: nat, offset: nat, rounds: nat): (keys: seq<seq<T>>)
    requires base + Poseidon.Times(rounds, l) == offset && offset + offset <= |c|
    ensures |keys| == rounds && forall r :: 0 <= r < rounds ==> |keys[r]| == 2 * l
    decreases rounds
  {
    if rounds == 0 then [] else [KeyAt(c, l, base, offset)] + KeysFrom(c, l, base + l, offset, rounds - 1)
  }

  method ApplyOneRound<T(!new)>(
      R: Ring<T>, l: nat, state: array<T>, c: seq<T>, base: nat, offset: nat, beta: T, delta: T, ghost end: nat)
    requires IsRing(R) && 1 <= l <= 4 && end == l + l == state.Length
    requires base + l <= offset && offset + base + l <= |c|
    modifies state
    ensures state[..] == Round(R, l, beta, delta, old(state[..]), KeyAt(c, l, base, offset))
  {
    ApplyConstants(R, l, state, c, base, offset);
    ApplyLinearLayer(R, l, state, end);
    ApplyFlystel(R, l, state, beta, delta);
  }

  lemma {:induction false} RoundsLeft<T>(
      R: Ring<T>, l: nat, beta: T, delta: T, s: seq<T>, t: seq<T>, c: seq<T>, base: nat, next: nat, offset: nat,
      rounds: nat, rest: nat)
    requires 1 <= l <= 4 && |s| == 2 * l && rounds == rest + 1 && next == base + l
    requires base + Poseidon.Times(rounds, l) == offset && offset + offset <= |c|
    requires next <= offset && t == Round(R, l, beta, delta, s, KeyAt(c, l, base, offset))
    ensures next + Poseidon.Times(rest, l) == offset
    ensures Permutation(R, l, beta, delta, s, KeysFrom(c, l, base, offset, rounds))
            == Permutation(R, l, beta, delta, t, KeysFrom(c, l, next, offset, rest))
  {
    hide Round;
    var keys := KeysFrom(c, l, base, offset, rounds);
    assert keys[1..] == KeysFrom(c, l, next, offset, rest);
  }

  /** The permutation for every l from 1 to 4 and any number of rounds. */
  method ApplyPermutation<T(!new)>(
      R: Ring<T>, l: nat, state: array<T>, c: seq<T>, rounds: nat, beta: T, delta: T, ghost offset: nat, ghost end: nat)
    requires IsRing(R) && 1 <= l <= 4 && end == l + l == state.Length
    requires offset == rounds * l && offset == Poseidon.Times(rounds, l) && offset + offset <= |c|
    modifies state
    ensures state[..] == Permutation(R, l, beta, delta, old(state[..]), KeysFrom(c, l, 0, offset, rounds))
  {
    hide Round; hide Linear;
    var shift := rounds * l;
    var base: nat, left: nat := 0, rounds;
    ghost var out := Permutation(R, l, beta, delta, state[..], KeysFrom(c, l, 0, offset, rounds));
    while left > 0
      invariant base + Poseidon.Times(left, l) == offset
      invariant Permutation(R, l, beta, delta, state[..], KeysFrom(c, l, base, offset, left)) == out
    {
      var rest: nat := left - 1;
      var next := base + l;
      ghost var s := state[..];
      assert Poseidon.Times(left, l) == l + Poseidon.Times(rest, l);
      ApplyOneRound(R, l, state, c, base, shift, beta, delta, end);
      RoundsLeft(R, l, beta, delta, s, state[..], c, base, next, offset, left, rest);
      base, left := next, rest;
    }
    ApplyLinearLayer(R, l, state, end);
  }

  /** One round for l = 1, written out. */
  method ApplyRound1<T(!new)>(
      R: Ring<T>, state: array<T>, c: seq<T>, base: nat, rounds: nat, beta: T, delta: T, ghost l: nat, ghost end: nat)
    requires IsRing(R) && l == 1 && end == 2 == state.Length && base + l <= rounds && rounds + base + l <= |c|
    modifies state
    ensures state[..] == Round(R, l, beta, delta, old(state[..]), KeyAt(c, l, base, rounds))
  {
    hide Flystel;
    ApplyConstants(R, 1, state, c, base, rounds);
    ghost var a := state[..];
    ApplyMatrix2(R, state, 0, 2);
    assert state[0..2] == state[..] && a[0..2] == a;
    ghost var b := state[..];
    var x, y := ApplySBox(R, state[0], state[1], beta, delta);
    state[0], state[1] := x, y;
    assert b[l..][0] == b[1] && state[..][l..][0] == state[1];
    SameHalves(state[..], FlystelAll(R, l, beta, delta, b), l);
  }

  method ApplyLast1<T(!new)>(R: Ring<T>, state: array<T>, ghost l: nat)
    requires IsRing(R) && l == 1 && state.Length == 2
    modifies state
    ensures state[..] == Linear(R, l, old(state[..]))
  {
    ghost var a := state[..];
    ApplyMatrix2(R, state, 0, 2);
    assert state[0..2] == state[..] && a[0..2] == a;
  }

  /** The version for l = 1 gives what the general one gives. */
  method Apply1<T(!new)>(
      R: Ring<T>, state: array<T>, c: seq<T>, rounds: nat, beta: T, delta: T, ghost l: nat, ghost end: nat)
    requires IsRing(R) && l == 1 && end == 2 == state.Length && rounds + rounds <= |c|
    requires rounds == Poseidon.Times(rounds, l)
    modifies state
    ensures state[..] == Permutation(R, l, beta, delta, old(state[..]), KeysFrom(c, l, 0, rounds, rounds))
  {
    hide Round; hide Linear;
    var base: nat, left: nat := 0, rounds;
    ghost var out := Permutation(R, l, beta, delta, state[..], KeysFrom(c, l, 0, rounds, rounds));
    while left > 0
      invariant base + Poseidon.Times(left, l) == rounds
      invariant Permutation(R, l, beta, delta, state[..], KeysFrom(c, l, base, rounds, left)) == out
    {
      var rest: nat := left - 1;
      var next := base + 1;
      ghost var s := state[..];
      assert Poseidon.Times(left, l) == l + Poseidon.Times(rest, l);
      ApplyRound1(R, state, c, base, rounds, beta, delta, l, end);
      RoundsLeft(R, l, beta, delta, s, state[..], c, base, next, rounds, left, rest);
      base, left := next, rest;
    }
    ApplyLast1(R, state, l);
  }
}
