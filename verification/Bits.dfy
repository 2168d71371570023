/** Powers of two, bit reversal and the bitwise conjunction of natural numbers. */
module Bits {

  function Pow2(n: nat): (p: nat)
    ensures p > 0
  {
    if n == 0 then 1 else 2 * Pow2(n - 1)
  }

  lemma {:induction false} Pow2Add(m: nat, n: nat)
    ensures Pow2(m + n) == Pow2(m) * Pow2(n)
  {
    if n > 0 {
      Pow2Add(m, n - 1);
      assert Pow2(m) * (2 * Pow2(n - 1)) == 2 * (Pow2(m) * Pow2(n - 1));
    }
  }

  /** The low `l` bits of `n`, in reverse order. */
  function Rev(l: nat, n: nat): nat {
    if l == 0 then 0 else (if n % 2 == 1 then Pow2(l - 1) else 0) + Rev(l - 1, n / 2)
  }

  lemma {:induction false} RevBound(l: nat, n: nat)
    ensures Rev(l, n) < Pow2(l)
  {
    if l > 0 {
      RevBound(l - 1, n / 2);
    }
  }

  /** Reversal read from the other end: the top bit of the argument becomes the lowest bit. */
  lemma {:induction false} RevTop(l: nat, n: nat, top: nat)
    requires n < Pow2(l) && top <= 1
    ensures Rev(l + 1, top * Pow2(l) + n) == 2 * Rev(l, n) + top
  {
    var x := top * Pow2(l) + n;
    if l == 0 {
      assert Rev(1, x) == x % 2 + Rev(0, x / 2);
    } else {
      var p := Pow2(l - 1);
      assert x == 2 * (top * p) + n;
      assert x % 2 == n % 2 && x / 2 == top * p + n / 2;
      RevTop(l - 1, n / 2, top);
    }
  }

  lemma {:induction false} RevInvolution(l: nat, n: nat)
    requires n < Pow2(l)
    ensures Rev(l, Rev(l, n)) == n
  {
    if l > 0 {
      var k, half := l - 1, n / 2;
      RevInvolution(k, half);
      RevBound(k, half);
      RevTop(k, Rev(k, half), n % 2);
    }
  }

  /** Bitwise conjunction. */
  function And(a: nat, b: nat): nat {
    if a == 0 then 0 else (a % 2) * (b % 2) + 2 * And(a / 2, b / 2)
  }

  lemma {:induction false} AndSelf(a: nat)
    ensures And(a, a) == a
  {
    if a > 0 {
      AndSelf(a / 2);
      assert (a % 2) * (a % 2) == a % 2;
    }
  }

  ghost predicate IsPow2(n: nat) {
    exists k: nat :: n == Pow2(k)
  }

  /** The test `n & (n - 1) == 0` recognises the powers of two among the positive numbers. */
  lemma {:induction false} PowerOfTwoTest(n: nat)
    requires n > 0
    ensures And(n, n - 1) == 0 <==> IsPow2(n)
  {
    if n == 1 {
      assert Pow2(0) == 1;
      assert And(1, 0) == (1 % 2) * (0 % 2) + 2 * And(0, 0);
    } else if n % 2 == 1 {
      assert (n - 1) / 2 == n / 2;
      AndSelf(n / 2);
      assert And(n, n - 1) == n % 2 * ((n - 1) % 2) + 2 * And(n / 2, (n - 1) / 2);
      forall k: nat
        ensures n != Pow2(k)
      {
        assert k > 0 ==> Pow2(k) == 2 * Pow2(k - 1);
      }
    } else {
      assert (n - 1) / 2 == n / 2 - 1;
      assert And(n, n - 1) == (n % 2) * ((n - 1) % 2) + 2 * And(n / 2, n / 2 - 1);
      PowerOfTwoTest(n / 2);
      if IsPow2(n / 2) {
        var k: nat :| n / 2 == Pow2(k);
        assert n == Pow2(k + 1);
      }
      if IsPow2(n) {
        var k: nat :| n == Pow2(k);
        assert n / 2 == Pow2(k - 1);
      }
    }
  }

  lemma {:induction false} Pow2Strict(m: nat, n: nat)
    requires m < n
    ensures Pow2(m) < Pow2(n)
  {
    if m + 1 < n {
      Pow2Strict(m, n - 1);
    }
  }

  // ----- the bit functions of bls12_381_polynomial_fft.c -----

  method BitReverse(n: nat, l: nat) returns (r: nat)
    ensures r == Rev(l, n)
    ensures r < Pow2(l)
  {
    r := 0;
    var n': nat, l': nat := n, l;
    while l' > 0
      invariant l' <= l
      invariant r * Pow2(l') + Rev(l', n') == Rev(l, n)
    {
      l' := l' - 1;
      assert r * (2 * Pow2(l')) == (2 * r) * Pow2(l');
      assert (2 * r) * Pow2(l') + (n' % 2) * Pow2(l') == (2 * r + n' % 2) * Pow2(l');
      r := 2 * r + n' % 2;
      n' := n' / 2;
    }
    RevBound(l, n);
  }

  method IsPowerOfTwo(n: nat) returns (b: bool)
    ensures b <==> n == 0 || IsPow2(n)
  {
    if n == 0 {
      return true;
    }
    PowerOfTwoTest(n);
    b := And(n, n - 1) == 0;
  }

  method Log2(n: nat) returns (l: nat)
    ensures if n == 0 then l == 0 else Pow2(l) <= n < Pow2(l + 1)
  {
    l := 0;
    var n' := n;
    ghost var rest := 0;
    while n' / 2 > 0
      invariant if n == 0 then n' == l == 0 else n' > 0
      invariant 0 <= rest < Pow2(l) && n == n' * Pow2(l) + rest
    {
      Halve(n', Pow2(l));
      rest := rest + (n' % 2) * Pow2(l);
      n' := n' / 2;
      l := l + 1;
    }
    assert n > 0 ==> n' == 1;
  }

  lemma {:induction false} Halve(n: nat, p: nat)
    ensures n * p == (n / 2) * (2 * p) + (n % 2) * p
  {
    assert n == 2 * (n / 2) + n % 2;
    assert (2 * (n / 2)) * p == (n / 2) * (2 * p);
  }
}
