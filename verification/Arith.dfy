/** Division and the products of three or four factors, kept apart from the proofs that need them. */
module Arith {

  lemma {:induction false} MulMono(a: nat, x: int, y: int)
    requires x <= y
    ensures a * x <= a * y
  {
  }

  lemma {:induction false} NatProduct(a: nat, b: nat)
    ensures a * b >= 0 && (a > 0 && b > 0 ==> a * b > 0)
  {
    if a > 0 && b > 0 { MulMono(a, 1, b); } else { MulMono(a, 0, b); }
  }

  lemma {:induction false} DivModUnique(a: int, n: int, q: int, r: int)
    requires n > 0 && a == n * q + r && 0 <= r < n
    ensures a / n == q && a % n == r
  {
    var d := a / n - q;
    assert n * (a / n) + a % n == a;
    assert n * d == r - a % n by {
      assert n * d == n * (a / n) - n * q;
    }
    if d >= 1 {
      MulMono(n, 1, d);
    } else if d <= -1 {
      MulMono(n, d, -1);
    }
  }

  lemma {:induction false} Mul3(a: int, b: int, c: int)
    ensures a * b * c == a * (b * c) && a * b * c == b * a * c && a * b * c == (a * c) * b
  {
  }

  lemma {:induction false} DivTwice(v: nat, x: nat, y: nat)
    requires x > 0 && y > 0
    ensures x * y > 0 && v / x / y == v / (x * y)
  {
    var q := v / x;
    var p, r, s := q / y, q % y, v % x;
    assert v == x * (y * p + r) + s;
    Mul3(x, y, p);
    assert x * (y * p + r) == (x * y) * p + x * r;
    MulMono(x, r + 1, y);
    assert x * (r + 1) == x * r + x;
    MulMono(x, 0, r);
    MulMono(x, 1, y);
    DivModUnique(v, x * y, p, x * r + s);
  }
}
