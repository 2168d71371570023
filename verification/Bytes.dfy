/** Byte strings as big-endian numbers: what shifts and bitwise operations mean, and that length and value fix them. */
module Bytes {
  import opened Bits
  import opened Arith

  type byte = x: int | 0 <= x < 256

  /** The big-endian value. */
  function Val(a: seq<byte>): nat {
    if a == [] then 0 else 256 * Val(a[..|a| - 1]) + a[|a| - 1]
  }

  lemma {:induction false} ValSnoc(a: seq<byte>, b: byte)
    ensures Val(a + [b]) == 256 * Val(a) + b
  {
    assert (a + [b])[..|a|] == a;
  }

  function Zeros(n: nat): (z: seq<byte>)
    ensures |z| == n && forall i :: 0 <= i < n ==> z[i] == 0
  {
    seq(n, i => 0)
  }

  lemma {:induction false} PowByte()
    ensures Pow2(8) == 256
  {
    Pow2Add(4, 4);
    assert Pow2(4) == 16;
  }

  lemma {:induction false} ValZeros(a: seq<byte>, n: nat)
    ensures Val(a + Zeros(n)) == Val(a) * Pow2(8 * n)
  {
    if n == 0 {
      assert a + Zeros(0) == a;
    } else {
      ValZeros(a, n - 1);
      assert a + Zeros(n) == (a + Zeros(n - 1)) + [0];
      ValSnoc(a + Zeros(n - 1), 0);
      PowByte();
      hide Val, Pow2;
      var k := 8 * (n - 1);
      Pow2Add(k, 8);
      Mul3(Val(a), Pow2(k), 256);
    }
  }

  lemma {:induction false} ValBound(a: seq<byte>)
    ensures Val(a) < Pow2(8 * |a|)
  {
    if a != [] {
      ValBound(a[..|a| - 1]);
      Pow2Add(8 * (|a| - 1), 8);
      PowByte();
    }
  }

  /** Length and value determine a byte string. */
  lemma {:induction false} ValInjective(a: seq<byte>, b: seq<byte>)
    requires |a| == |b| && Val(a) == Val(b)
    ensures a == b
  {
    if a != [] {
      var n := |a| - 1;
      var x, y := Val(a[..n]), Val(b[..n]);
      DivModUnique(Val(a), 256, x, a[n]);
      DivModUnique(Val(b), 256, y, b[n]);
      ValInjective(a[..n], b[..n]);
      assert a == a[..n] + [a[n]] && b == b[..n] + [b[n]];
    }
  }

  // ---- shifting by less than a byte ----

  function Over(x: nat, d: nat): nat
    requires d > 0
  {
    x / d
  }

  lemma {:induction false} OverByte(x: byte, d: nat)
    requires d > 0
    ensures Over(x, d) <= x
  {
    DivModUnique(x, 1, x, 0);
    MulMono(x / d, 1, d);
  }

  /** The byte that spans the low end of one byte and the high end of the next. */
  function Spanning(last: byte, next: byte, d: nat): byte
    requires d > 0
  {
    (256 * last + next) / d % 256
  }

  predicate BytePower(d: nat) {
    d == 2 || d == 4 || d == 8 || d == 16 || d == 32 || d == 64 || d == 128
  }

  lemma {:induction false} DivAdd(d: nat, x: nat, y: nat)
    requires d > 0
    ensures (d * x + y) / d == x + y / d
  {
    assert d * x + y == d * (x + y / d) + y % d;
    DivModUnique(d * x + y, d, x + y / d, y % d);
  }

  lemma {:induction false} Cofactor(d: nat) returns (e: nat)
    requires BytePower(d)
    ensures d * e == 256 && e > 0
  {
    e := 256 / d;
  }

  /** The byte above a spanning byte is the quotient of the first byte. */
  lemma {:induction false} SpanningCarry(last: byte, next: byte, d: nat)
    requires d > 0
    ensures (256 * last + next) / d == 256 * (last / d) + Spanning(last, next, d)
  {
    var x := 256 * last + next;
    DivTwice(x, d, 256);
    DivTwice(x, 256, d);
    assert d * 256 == 256 * d;
    DivAdd(256, last, next);
    assert x / 256 == last;
  }

  /** Dividing a number with one more byte: the quotient so far, and one spanning byte. */
  lemma {:induction false} DivideNext(v: nat, last: byte, next: byte, w: nat, d: nat)
    requires d > 0 && BytePower(d) && v == 256 * w + last
    ensures Over(256 * v + next, d) == 256 * Over(v, d) + Spanning(last, next, d)
  {
    var e := Cofactor(d);
    Mul3(d, e, w);
    DivAdd(d, e * w, last);
    Mul3(d, 256, e * w);
    DivAdd(d, 256 * (e * w), 256 * last + next);
    SpanningCarry(last, next, d);
    assert 256 * v == 256 * (d * (e * w)) + 256 * last;
  }

  /** Each byte of the quotient depends on two neighbouring bytes. */
  function Quotient(a: seq<byte>, d: nat): (q: seq<byte>)
    requires d > 0 && a != []
    ensures |q| == |a|
  {
    var n := |a| - 1;
    if n == 0 then OverByte(a[0], d); [Over(a[0], d)]
    else Quotient(a[..n], d) + [Spanning(a[n - 1], a[n], d)]
  }

  lemma {:induction false} QuotientAt(a: seq<byte>, d: nat, i: nat)
    requires d > 0 && i < |a|
    ensures Quotient(a, d)[i] == if i == 0 then Over(a[0], d) else Spanning(a[i - 1], a[i], d)
  {
    var n := |a| - 1;
    if i < n { QuotientAt(a[..n], d, i); }
  }

  lemma {:induction false} QuotientValue(a: seq<byte>, d: nat)
    requires d > 0 && BytePower(d) && a != []
    ensures Val(Quotient(a, d)) == Over(Val(a), d)
  {
    hide Spanning, BytePower, Over;
    var n := |a| - 1;
    var init, next := a[..n], a[n];
    assert a == init + [next];
    ValSnoc(init, next);
    if n == 0 {
      ValSnoc([], next);
      ValSnoc([], Quotient(a, d)[0]);
      assert [] + [next] == a && [] + [Quotient(a, d)[0]] == Quotient(a, d);
    } else {
      var front, last := init[..n - 1], a[n - 1];
      assert init == front + [last];
      QuotientValue(init, d);
      ValSnoc(Quotient(init, d), Spanning(last, next, d));
      ValSnoc(front, last);
      DivideNext(Val(init), last, next, Val(front), d);
    }
  }

  // ---- shift left and right ----

  function CeilBytes(n: nat): nat { (n + 7) / 8 }

  function ShiftedLeft(a: seq<byte>, n: nat): seq<byte> {
    var shift, bytes := n % 8, n / 8;
    if a == [] then Zeros(CeilBytes(n))
    else if shift == 0 then a + Zeros(bytes)
    else
      var d := Pow2(8 - shift);
      assert BytePower(d) by { ShiftPowers(shift); }
      Quotient(a, d) + [LowByte(a[|a| - 1], Pow2(shift))] + Zeros(bytes)
  }

  function LowByte(last: byte, s: nat): byte { last * s % 256 }

  lemma {:induction false} ShiftPowers(shift: nat)
    requires 0 < shift < 8
    ensures BytePower(Pow2(8 - shift)) && BytePower(Pow2(shift)) && Pow2(shift) * Pow2(8 - shift) == 256
  {
    assert Pow2(1) == 2 && Pow2(2) == 4 && Pow2(3) == 8 && Pow2(4) == 16;
    assert Pow2(5) == 32 && Pow2(6) == 64 && Pow2(7) == 128;
  }

  /** v times s, split at the byte boundary. */
  lemma {:induction false} TimesSplit(v: nat, last: byte, w: nat, s: nat, d: nat)
    requires s > 0 && d > 0 && s * d == 256 && v == 256 * w + last
    ensures 256 * Over(v, d) + LowByte(last, s) == v * s
  {
    Mul3(d, s, w);
    DivAdd(d, s * w, last);
    DivTwice(last * s, s, d);
    DivModUnique(last * s, s, last, 0);
    assert v * s == 256 * (s * w) + last * s by {
      assert v * s == (256 * w) * s + last * s;
      Mul3(256, w, s);
    }
  }

  lemma {:induction false} HeadValue(a: seq<byte>, s: nat, d: nat, last: byte, head: seq<byte>)
    requires a != [] && last == a[|a| - 1] && d > 0 && BytePower(d) && s > 0 && s * d == 256
    requires head == Quotient(a, d) + [LowByte(last, s)]
    ensures Val(head) == Val(a) * s
  {
    hide Spanning, BytePower, Over, LowByte;
    var init := a[..|a| - 1];
    QuotientValue(a, d);
    ValSnoc(Quotient(a, d), LowByte(last, s));
    assert a == init + [last];
    ValSnoc(init, last);
    TimesSplit(Val(a), last, Val(init), s, d);
  }

  lemma {:induction false} CeilSplit(n: nat, shift: nat, bytes: nat)
    requires shift == n % 8 && bytes == n / 8
    ensures n == 8 * bytes + shift && CeilBytes(n) == if shift == 0 then bytes else bytes + 1
  {
  }

  lemma {:induction false} ZerosValue(n: nat)
    ensures Val(Zeros(n)) == 0
  {
    ValZeros([], n);
    assert [] + Zeros(n) == Zeros(n);
  }

  /** The shifted bits before the whole bytes. */
  lemma {:induction false} LeftValue(a: seq<byte>, n: nat, shift: nat, bytes: nat, s: nat, d: nat, last: byte)
    requires a != [] && n == 8 * bytes + shift && 0 < shift < 8 && last == a[|a| - 1]
    requires s == Pow2(shift) && d == Pow2(8 - shift)
    ensures d > 0 && Val(Quotient(a, d) + [LowByte(last, s)] + Zeros(bytes)) == Val(a) * Pow2(n)
  {
    hide Spanning, BytePower, Over, LowByte;
    ShiftPowers(shift);
    var head := Quotient(a, d) + [LowByte(last, s)];
    HeadValue(a, s, d, last, head);
    ValZeros(head, bytes);
    Pow2Add(shift, 8 * bytes);
    Mul3(Val(a), s, Pow2(8 * bytes));
  }

  /** A left shift by n multiplies by 2 to the n, and adds the bytes that n bits need. */
  lemma {:induction false} ShiftLeftValue(a: seq<byte>, n: nat)
    ensures Val(ShiftedLeft(a, n)) == Val(a) * Pow2(n) && |ShiftedLeft(a, n)| == |a| + CeilBytes(n)
  {
    var shift, bytes := n % 8, n / 8;
    CeilSplit(n, shift, bytes);
    hide Spanning, Over, LowByte, Pow2, Val, CeilBytes, Quotient;
    if a == [] {
      ZerosValue(CeilBytes(n));
      ZerosValue(0);
      assert a == Zeros(0);
    } else if shift == 0 {
      ValZeros(a, bytes);
    } else {
      LeftValue(a, n, shift, bytes, Pow2(shift), Pow2(8 - shift), a[|a| - 1]);
    }
  }

  function ShiftedRight(a: seq<byte>, n: nat): seq<byte> {
    var shift, bytes := n % 8, n / 8;
    if |a| <= bytes then []
    else if shift == 0 then a[..|a| - bytes]
    else
      assert BytePower(Pow2(shift)) by { ShiftPowers(shift); }
      Quotient(a[..|a| - bytes], Pow2(shift))
  }

  lemma {:induction false} PrefixValue(a: seq<byte>, k: nat)
    requires k <= |a|
    ensures Val(a[..|a| - k]) == Val(a) / Pow2(8 * k)
  {
    if k == 0 {
      assert a[..|a|] == a;
    } else {
      var b := a[..|a| - 1];
      PrefixValue(b, k - 1);
      assert b[..|b| - (k - 1)] == a[..|a| - k];
      DivModUnique(Val(a), 256, Val(b), a[|a| - 1]);
      Pow2Add(8, 8 * (k - 1));
      PowByte();
      DivTwice(Val(a), 256, Pow2(8 * (k - 1)));
    }
  }

  lemma {:induction false} SmallQuotient(v: nat, d: nat)
    requires v < d
    ensures v / d == 0
  {
    DivModUnique(v, d, 0, v);
  }

  lemma {:induction false} AllShiftedOut(a: seq<byte>, n: nat)
    requires 8 * |a| <= n
    ensures Val(a) / Pow2(n) == 0
  {
    var k := 8 * |a|;
    ValBound(a);
    Pow2Add(k, n - k);
    MulMono(Pow2(k), 1, Pow2(n - k));
    SmallQuotient(Val(a), Pow2(n));
  }

  /** A right shift by n divides by 2 to the n, and drops the bytes that n bits fill. */
  lemma {:induction false} ShiftRightValue(a: seq<byte>, n: nat)
    ensures Val(ShiftedRight(a, n)) == Val(a) / Pow2(n)
    ensures |ShiftedRight(a, n)| == if |a| <= n / 8 then 0 else |a| - n / 8
  {
    hide Spanning;
    var shift, bytes := n % 8, n / 8;
    Pow2Add(8 * bytes, shift);
    if |a| <= bytes {
      AllShiftedOut(a, n);
    } else {
      PrefixValue(a, bytes);
      DivTwice(Val(a), Pow2(8 * bytes), Pow2(shift));
      if shift > 0 {
        ShiftPowers(shift);
        QuotientValue(a[..|a| - bytes], Pow2(shift));
      }
    }
  }

  /** Shifting right undoes shifting left, up to leading zeros. */
  lemma {:induction false} ShiftRoundTrip(a: seq<byte>, n: nat)
    ensures Val(ShiftedRight(ShiftedLeft(a, n), n)) == Val(a)
  {
    ShiftLeftValue(a, n);
    ShiftRightValue(ShiftedLeft(a, n), n);
    DivModUnique(Val(a) * Pow2(n), Pow2(n), Val(a), 0);
  }

  // ---- what the interface promises ----

  datatype Outcome = Returned(bytes: seq<byte>) | InvalidArgument | OutOfMemory

  function PromisedLeft(a: seq<byte>, n: int): Outcome {
    if n < 0 then InvalidArgument else Returned(ShiftedLeft(a, n))
  }

  function PromisedRight(a: seq<byte>, n: int): Outcome {
    if n < 0 then InvalidArgument else Returned(ShiftedRight(a, n))
  }

  // ---- bitwise operations ----

  datatype Logic = And | Or | Xor

  function Bit(op: Logic, p: nat, q: nat): nat {
    match op
    case And => if p % 2 == 1 && q % 2 == 1 then 1 else 0
    case Or => if p % 2 == 1 || q % 2 == 1 then 1 else 0
    case Xor => if p % 2 != q % 2 then 1 else 0
  }

  /** The operation on all bits of two numbers. */
  function Bitwise(op: Logic, x: nat, y: nat): nat
    decreases x + y
  {
    if x == 0 && y == 0 then 0 else 2 * Bitwise(op, x / 2, y / 2) + Bit(op, x, y)
  }

  lemma {:induction false} BitwiseCommutes(op: Logic, x: nat, y: nat)
    ensures Bitwise(op, x, y) == Bitwise(op, y, x)
    decreases x + y
  {
    if x != 0 || y != 0 { BitwiseCommutes(op, x / 2, y / 2); }
  }

  lemma {:induction false} BitwiseZero(op: Logic, x: nat)
    ensures Bitwise(op, x, 0) == if op.And? then 0 else x
  {
    if x != 0 { BitwiseZero(op, x / 2); }
  }

  lemma {:induction false} BitwiseBound(op: Logic, x: nat, y: nat, k: nat)
    requires x < Pow2(k) && y < Pow2(k)
    ensures Bitwise(op, x, y) < Pow2(k)
    decreases k
  {
    if k > 0 && (x != 0 || y != 0) { BitwiseBound(op, x / 2, y / 2, k - 1); }
  }

  lemma {:induction false} HalfOf(x: nat, p: nat, u: nat)
    requires u == 2 * x + p
    ensures u / 2 == x + p / 2 && u % 2 == p % 2
  {
  }

  /** The lowest bit apart, also where both numbers are 0. */
  lemma {:induction false} BitwiseNext(op: Logic, u: nat, v: nat, x: nat, y: nat, p: nat, q: nat)
    requires u / 2 == x && v / 2 == y && u % 2 == p % 2 && v % 2 == q % 2
    ensures Bitwise(op, u, v) == 2 * Bitwise(op, x, y) + Bit(op, p, q)
  {
  }

  /** The low k bits and the others are combined apart. */
  lemma {:induction false} BitwiseSplit(op: Logic, x: nat, y: nat, p: nat, q: nat, k: nat)
    requires p < Pow2(k) && q < Pow2(k)
    ensures Bitwise(op, x * Pow2(k) + p, y * Pow2(k) + q) == Bitwise(op, x, y) * Pow2(k) + Bitwise(op, p, q)
    decreases k
  {
    if k > 0 {
      hide Bit, Bitwise;
      var h := Pow2(k - 1);
      var u, v, z := x * Pow2(k) + p, y * Pow2(k) + q, Bitwise(op, x, y);
      Mul3(x, 2, h);
      Mul3(y, 2, h);
      Mul3(z, 2, h);
      HalfOf(x * h, p, u);
      HalfOf(y * h, q, v);
      BitwiseSplit(op, x, y, p / 2, q / 2, k - 1);
      BitwiseNext(op, u, v, x * h + p / 2, y * h + q / 2, p, q);
      BitwiseNext(op, p, q, p / 2, q / 2, p, q);
    }
  }

  function ByteOp(op: Logic, p: byte, q: byte): byte {
    PowByte();
    BitwiseBound(op, p, q, 8);
    Bitwise(op, p, q)
  }

  lemma {:induction false} BitwiseByte(op: Logic, x: nat, y: nat, p: byte, q: byte)
    ensures Bitwise(op, 256 * x + p, 256 * y + q) == 256 * Bitwise(op, x, y) + ByteOp(op, p, q)
  {
    PowByte();
    hide Bitwise, Pow2;
    BitwiseSplit(op, x, y, p, q, 8);
  }

  lemma {:induction false} ByteOpCommutes(op: Logic, p: byte, q: byte)
    ensures ByteOp(op, p, q) == ByteOp(op, q, p)
  {
    BitwiseCommutes(op, p, q);
  }

  /** The low ends of two byte strings, combined byte by byte; b is not the longer one. */
  function LowEnds(op: Logic, a: seq<byte>, b: seq<byte>): (r: seq<byte>)
    requires |b| <= |a|
    ensures |r| == |b|
    ensures forall i :: 0 <= i < |b| ==> r[i] == ByteOp(op, a[|a| - |b|..][i], b[i])
  {
    seq(|b|, i requires 0 <= i < |b| => ByteOp(op, a[|a| - |b|..][i], b[i]))
  }

  /** AND has the length of the shorter string, OR and XOR that of the longer one. */
  function Combined(op: Logic, a: seq<byte>, b: seq<byte>): seq<byte> {
    var (long, short) := if |a| < |b| then (b, a) else (a, b);
    HighEnd(op, long, |short|) + LowEnds(op, long, short)
  }

  lemma {:induction false} LowEndsSnoc(op: Logic, a: seq<byte>, b: seq<byte>)
    requires 0 < |b| <= |a|
    ensures LowEnds(op, a, b)
            == LowEnds(op, a[..|a| - 1], b[..|b| - 1]) + [ByteOp(op, a[|a| - 1], b[|b| - 1])]
  {
    var c, d, k := a[..|a| - 1], b[..|b| - 1], |a| - |b|;
    forall i | 0 <= i < |d| ensures c[k..][i] == a[k..][i] {}
  }

  /** What lies above the low ends: nothing for AND, the rest of the longer string otherwise. */
  function HighEnd(op: Logic, a: seq<byte>, n: nat): seq<byte>
    requires n <= |a|
  {
    if op.And? then [] else a[..|a| - n]
  }

  lemma {:induction false} HighEndInit(op: Logic, a: seq<byte>, n: nat, m: nat)
    requires 0 < n <= |a| && m == n - 1
    ensures HighEnd(op, a[..|a| - 1], m) == HighEnd(op, a, n)
  {
  }

  lemma {:induction false} CombinedNext(
      op: Logic, head: seq<byte>, low: seq<byte>, all: seq<byte>, x: nat, y: nat, p: byte, q: byte)
    requires Val(head + low) == Bitwise(op, x, y) && all == low + [ByteOp(op, p, q)]
    ensures Val(head + all) == Bitwise(op, 256 * x + p, 256 * y + q)
  {
    hide ByteOp, Bitwise, Val;
    assert head + all == (head + low) + [ByteOp(op, p, q)];
    ValSnoc(head + low, ByteOp(op, p, q));
    BitwiseByte(op, x, y, p, q);
  }

  lemma {:induction false} CombinedValue(op: Logic, a: seq<byte>, b: seq<byte>, n: nat)
    requires n == |b| <= |a|
    ensures Val(HighEnd(op, a, n) + LowEnds(op, a, b)) == Bitwise(op, Val(a), Val(b))
    decreases n
  {
    hide ByteOp, Bitwise, LowEnds;
    var head := HighEnd(op, a, n);
    if n == 0 {
      BitwiseZero(op, Val(a));
      assert head + LowEnds(op, a, b) == head;
      assert a[..|a|] == a;
    } else {
      hide HighEnd;
      var c, d, p, q := a[..|a| - 1], b[..n - 1], a[|a| - 1], b[n - 1];
      CombinedValue(op, c, d, n - 1);
      HighEndInit(op, a, n, n - 1);
      LowEndsSnoc(op, a, b);
      CombinedNext(op, head, LowEnds(op, c, d), LowEnds(op, a, b), Val(c), Val(d), p, q);
    }
  }

  /** Aligned at the low end, the operations on strings are the bitwise operations on their values. */
  lemma {:induction false} LogicalValue(op: Logic, a: seq<byte>, b: seq<byte>)
    ensures Val(Combined(op, a, b)) == Bitwise(op, Val(a), Val(b))
    ensures |Combined(op, a, b)| == if op.And? == (|a| < |b|) then |a| else |b|
  {
    if |a| < |b| {
      CombinedValue(op, b, a, |a|);
      BitwiseCommutes(op, Val(a), Val(b));
    } else {
      CombinedValue(op, a, b, |b|);
    }
  }

  /** The bit of weight 2 to the k. */
  predicate HasBit(n: nat, k: nat) { n / Pow2(k) % 2 == 1 }

  lemma {:induction false} BitwiseBits(op: Logic, x: nat, y: nat, k: nat)
    ensures HasBit(Bitwise(op, x, y), k) == match op
              case And => HasBit(x, k) && HasBit(y, k)
              case Or => HasBit(x, k) || HasBit(y, k)
              case Xor => HasBit(x, k) != HasBit(y, k)
    decreases k
  {
    if x == 0 && y == 0 {
      SmallQuotient(0, Pow2(k));
    } else {
      var z := Bitwise(op, x, y);
      HalfOf(Bitwise(op, x / 2, y / 2), Bit(op, x, y), z);
      if k > 0 {
        BitwiseBits(op, x / 2, y / 2, k - 1);
        DivTwice(x, 2, Pow2(k - 1));
        DivTwice(y, 2, Pow2(k - 1));
        DivTwice(z, 2, Pow2(k - 1));
      }
    }
  }

  /** Bit k of the result, for every k: both, at least one, or exactly one of the strings has it. */
  lemma {:induction false} LogicalBits(op: Logic, a: seq<byte>, b: seq<byte>, k: nat)
    ensures HasBit(Val(Combined(op, a, b)), k) == match op
              case And => HasBit(Val(a), k) && HasBit(Val(b), k)
              case Or => HasBit(Val(a), k) || HasBit(Val(b), k)
              case Xor => HasBit(Val(a), k) != HasBit(Val(b), k)
  {
    hide HasBit, Bitwise;
    LogicalValue(op, a, b);
    BitwiseBits(op, Val(a), Val(b), k);
  }
}
