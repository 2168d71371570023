/** The Chinese remainder index maps of the prime-factor transform. */
module Crt {
  import opened Arith

  ghost predicate Coprime(m: nat, n: nat) {
    forall d: nat | d > 1 :: m % d != 0 || n % d != 0
  }

  lemma {:induction false} DividesRemainder(m: nat, n: nat, d: nat)
    requires n > 0 && d > 0 && n % d == 0 && (m % n) % d == 0
    ensures m % d == 0
  {
    var q, x, y := m / n, n / d, (m % n) / d;
    assert m == n * q + m % n && n == d * x && m % n == d * y;
    assert m == d * (x * q + y) by {
      assert (d * x) * q == d * (x * q);
      assert d * (x * q + y) == d * (x * q) + d * y;
    }
    DivModUnique(m, d, x * q + y, 0);
  }

  /** Coprime numbers have a combination that equals one. */
  lemma {:induction false} Bezout(m: nat, n: nat) returns (a: int, b: int)
    requires Coprime(m, n)
    ensures m * a + n * b == 1
    decreases n
  {
    if n == 0 {
      if m > 1 {
        DivModUnique(m, m, 1, 0);
        DivModUnique(0, m, 0, 0);
        assert false;
      }
      if m == 0 {
        DivModUnique(0, 2, 0, 0);
        assert false;
      }
      a, b := 1, 0;
    } else {
      var q, r := m / n, m % n;
      forall d: nat | d > 1
        ensures n % d != 0 || r % d != 0
      {
        if n % d == 0 && r % d == 0 {
          DividesRemainder(m, n, d);
          assert false;
        }
      }
      var c, e := Bezout(n, r);
      assert m == n * q + r;
      assert n * c + r * e == 1;
      a, b := e, c - q * e;
      assert m * e == (n * q) * e + r * e;
      assert n * (c - q * e) == n * c - n * (q * e);
      assert (n * q) * e == n * (q * e);
    }
  }

  /** A common multiple of coprime numbers is a multiple of their product. */
  lemma {:induction false} CommonMultiple(m: nat, n: nat, a: int, b: int, d: int, x: int, y: int)
    requires m * a + n * b == 1 && d == m * x && d == n * y
    ensures d == (m * n) * (a * y + b * x)
  {
    calc {
      d;
      d * (m * a + n * b);
      d * (m * a) + d * (n * b);
      (n * y) * (m * a) + (m * x) * (n * b);
      { assert (n * y) * (m * a) == (m * n) * (a * y); }
      { assert (m * x) * (n * b) == (m * n) * (b * x); }
      (m * n) * (a * y) + (m * n) * (b * x);
      (m * n) * (a * y + b * x);
    }
  }

  lemma {:induction false} SmallMultiple(n: int, d: int, q: int)
    requires n > 0 && d == n * q && -n < d < n
    ensures d == 0
  {
    if q >= 1 {
      MulMono(n, 1, q);
    } else if q <= -1 {
      MulMono(n, q, -1);
    }
  }

  // ----- the input map -----

  /** Two indices with the same remainders modulo both lengths are equal. */
  lemma {:induction false} SameRemainders(m: nat, n: nat, s: nat, t: nat)
    requires m > 0 && n > 0 && Coprime(m, n) && s < m * n && t < m * n
    requires s % m == t % m && s % n == t % n
    ensures s == t
  {
    var a, b := Bezout(m, n);
    var x, y := s / m - t / m, s / n - t / n;
    assert s - t == m * x by {
      assert m * x == m * (s / m) - m * (t / m);
    }
    assert s - t == n * y by {
      assert n * y == n * (s / n) - n * (t / n);
    }
    CommonMultiple(m, n, a, b, s - t, x, y);
    SmallMultiple(m * n, s - t, a * y + b * x);
  }

  /** For every pair of remainders there is an index with those remainders. */
  lemma {:induction false} RemaindersReached(m: nat, n: nat, i: nat, j: nat) returns (t: nat)
    requires Coprime(m, n) && i < m && j < n
    ensures t < m * n && t % m == i && t % n == j
  {
    var a, b := Bezout(m, n);
    var mn := m * n;
    assert mn > 0 by { MulMono(m, 1, n); }
    var s := i * (n * b) + j * (m * a);
    t := s % mn;
    var q := s / mn;
    assert t == s - mn * q;
    // s == i + m (...) since n b == 1 - m a
    RemainderOf(m, n, a, b, i, j, q, s, t);
    assert n * b + m * a == 1;
    assert mn == n * m;
    RemainderOf(n, m, b, a, j, i, q, s, t);
  }

  lemma {:induction false} RemainderOf(m: nat, n: nat, a: int, b: int, i: nat, j: nat, q: int, s: int, t: int)
    requires m * a + n * b == 1 && i < m
    requires s == i * (n * b) + j * (m * a) && t == s - (m * n) * q
    ensures t % m == i
  {
    var k := j * a - i * a - n * q;
    assert t == m * k + i by {
      assert i * (n * b) == i - i * (m * a) by {
        assert i * (n * b) == i * (1 - m * a);
      }
      assert i * (m * a) == m * (i * a);
      assert j * (m * a) == m * (j * a);
      assert (m * n) * q == m * (n * q);
      assert m * k == m * (j * a) - m * (i * a) - m * (n * q);
    }
    DivModUnique(t, m, k, i);
  }

  // ----- the output map -----

  function OutIndex(m: nat, n: nat, i: nat, j: nat): nat
    requires m > 0 && n > 0
  {
    (m * j + n * i) % (m * n)
  }

  /** n i determines i modulo m. */
  lemma {:induction false} CancelFactor(m: nat, n: nat, a: int, b: int, i: nat, i': nat, z: int)
    requires m * a + n * b == 1 && i < m && i' < m
    requires n * i - n * i' == m * z
    ensures i == i'
  {
    var d := i - i';
    assert d == m * (a * d + b * z) by {
      calc {
        d;
        d * (m * a + n * b);
        d * (m * a) + d * (n * b);
        { assert d * (m * a) == m * (a * d); assert d * (n * b) == (n * d) * b; }
        m * (a * d) + (n * d) * b;
        { assert n * d == m * z; assert (m * z) * b == m * (b * z); }
        m * (a * d) + m * (b * z);
        m * (a * d + b * z);
      }
    }
    SmallMultiple(m, d, a * d + b * z);
  }

  lemma {:induction false} OutIndexInjective(m: nat, n: nat, i: nat, j: nat, i': nat, j': nat)
    requires Coprime(m, n) && i < m && i' < m && j < n && j' < n
    requires m > 0 && n > 0 && OutIndex(m, n, i, j) == OutIndex(m, n, i', j')
    ensures i == i' && j == j'
  {
    var a, b := Bezout(m, n);
    var q := SameRemainder(m * j + n * i, m * j' + n * i', m * n);
    ColumnShift(m, n, i, i', j, j', q);
    CancelFactor(m, n, a, b, i, i', n * q - j + j');
    CancelFactor(n, m, b, a, j, j', m * q);
  }

  lemma {:induction false} SameRemainder(x: int, y: int, p: int) returns (q: int)
    requires p > 0 && x % p == y % p
    ensures x - y == p * q
  {
    q := x / p - y / p;
    assert p * q == p * (x / p) - p * (y / p);
  }

  lemma {:induction false} ColumnShift(m: int, n: int, i: int, i': int, j: int, j': int, q: int)
    requires (m * j + n * i) - (m * j' + n * i') == (m * n) * q
    ensures n * i - n * i' == m * (n * q - j + j')
    ensures i == i' ==> m * j - m * j' == n * (m * q)
  {
    assert (m * n) * q == m * (n * q) && (m * n) * q == n * (m * q);
    assert m * (n * q - j + j') == m * (n * q) - m * j + m * j';
  }

  lemma {:induction false} Divide(s: int, m: nat) returns (q: int, r: nat)
    requires m > 0
    ensures s == m * q + r && r < m
  {
    q, r := s / m, s % m;
  }

  lemma {:induction false} OutIndexReached(m: nat, n: nat, k: nat) returns (i: nat, j: nat)
    requires m > 0 && n > 0 && Coprime(m, n) && k < m * n
    ensures i < m && j < n && OutIndex(m, n, i, j) == k
  {
    var a, b := Bezout(m, n);
    // k == m (k a) + n (k b)
    var x, y;
    x, i := Divide(k * b, m);
    y, j := Divide(k * a, n);
    OutIndexArith(m, n, a, b, k, i, j, x, y);
    DivModUnique(m * j + n * i, m * n, -(x + y), k);
  }

  lemma {:induction false} OutIndexArith(m: nat, n: nat, a: int, b: int, k: nat, i: nat, j: nat, x: int, y: int)
    requires m * a + n * b == 1
    requires k * b == m * x + i && k * a == n * y + j
    ensures m * j + n * i == (m * n) * (-(x + y)) + k
  {
    var p := m * n;
    calc {
      k;
      k * (m * a + n * b);
      k * (m * a) + k * (n * b);
      { assert k * (m * a) == m * (k * a) && k * (n * b) == n * (k * b); }
      m * (n * y + j) + n * (m * x + i);
      { assert m * (n * y + j) == p * y + m * j && n * (m * x + i) == p * x + n * i; }
      p * y + m * j + p * x + n * i;
    }
    assert p * (-(x + y)) == -(p * x) - p * y;
  }
}
