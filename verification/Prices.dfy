/** What the sizes behind the gas prices mean, and the prices that depend on them. */
module Prices {
  import opened Bits
  import opened Syntax
  import opened Costs
  import opened Ops

  /** The bit length is the least number of bits that holds n. */
  lemma {:induction false} BitLengthExactly(n: nat, k: nat)
    ensures n < Pow2(k) <==> BitLength(n) <= k
    decreases k
  {
    if n > 0 && k > 0 { BitLengthExactly(n / 2, k - 1); }
  }

  /** The absolute value fits b bytes. */
  predicate Holds(x: int, b: nat) {
    x < Pow2(8 * b) && 0 < x + Pow2(8 * b)
  }

  /** The byte size is the least number of bytes that holds the absolute value. */
  lemma {:induction false} ByteSizeExactly(x: int, b: nat)
    ensures Holds(x, b) <==> ByteSize(x) <= b
  {
    var n: nat := if x < 0 then -x else x;
    BitLengthExactly(n, 8 * b);
  }

  /** log2 rounded up is the least exponent whose power of two is not below n. */
  lemma {:induction false} Log2iExactly(n: nat, k: nat)
    requires n > 0
    ensures n <= Pow2(k) <==> Log2i(n) <= k
  {
    BitLengthExactly(n - 1, k);
  }

  /** b bytes hold the number, and no fewer do. */
  ghost predicate Bytes(x: int, b: nat) {
    Holds(x, b) && forall c: nat | c < b :: !Holds(x, c)
  }

  lemma {:induction false} BytesAreSize(x: int, b: nat)
    requires Bytes(x, b)
    ensures ByteSize(x) == b
  {
    hide ByteSize, Holds;
    ByteSizeExactly(x, b);
    var s := ByteSize(x);
    if s < b { ByteSizeExactly(x, s); }
  }

  /** ADD on numbers of a and b bytes costs 35 and half the larger size. */
  lemma {:induction false} AddPrice(ctx: Context, x: int, y: int, a: nat, b: nat, rest: seq<Value>)
    requires Bytes(x, a) && Bytes(y, b)
    ensures OpEffect(OnNum(Add(IntInt)), ctx, [VInt(x), VInt(y)] + rest).cost == 35 + (if a < b then b else a) / 2
  {
    hide ByteSize, Bytes;
    BytesAreSize(x, a);
    BytesAreSize(y, b);
  }

  /** MUL on numbers of n bytes together costs 55 and 13/16 of n log n, rounded in parts. */
  lemma {:induction false} MulPrice(
      ctx: Context, x: int, y: int, a: nat, b: nat, log: nat, n: nat, rest: seq<Value>)
    requires Bytes(x, a) && Bytes(y, b) && a + b > 0 && a + b <= Pow2(log) && n == (a + b) * log
    requires forall k: nat | k < log :: Pow2(k) < a + b
    ensures OpEffect(OnNum(Mul(IntInt)), ctx, [VInt(x), VInt(y)] + rest).cost == 55 + n / 2 + n / 4 + n / 16
  {
    hide ByteSize, Bytes, Log2i;
    BytesAreSize(x, a);
    BytesAreSize(y, b);
    var l := Log2i(a + b);
    Log2iExactly(a + b, log);
    if l < log { Log2iExactly(a + b, l); }
  }

  /** COMPARE on integers of a and b bytes costs 35 and 3/128 of the smaller size, rounded in parts. */
  lemma {:induction false} ComparePrice(ctx: Context, x: int, y: int, a: nat, b: nat, rest: seq<Value>)
    requires Bytes(x, a) && Bytes(y, b)
    ensures var v := if a < b then a else b;
            OpEffect(OnNum(Compare), ctx, [VInt(x), VInt(y)] + rest).cost == 35 + v / 64 + v / 128
  {
    hide ByteSize, Bytes;
    BytesAreSize(x, a);
    BytesAreSize(y, b);
  }
}
