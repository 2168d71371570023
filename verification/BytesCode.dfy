/** The byte-string operations as the C stubs, the JavaScript stubs and the interpreter run them. */
module BytesCode {
  import opened Bits
  import opened Blocks
  import opened Bytes

  // ---- C ----

  /** An OCaml integer has 63 bits. */
  predicate OcamlInt(n: int) { -0x4000_0000_0000_0000 <= n < 0x4000_0000_0000_0000 }

  /** The stubs store the shift in an unsigned word, so that it is never below 0. */
  function Unsigned(n: int): nat
    requires OcamlInt(n)
  {
    if n < 0 then n + 0x1_0000_0000_0000_0000 else n
  }

  function LeftC(a: seq<byte>, n: int): Outcome
    requires OcamlInt(n)
  {
    var m := Unsigned(n);
    if Fits(|a| + CeilBytes(m)) then Returned(ShiftedLeft(a, m)) else OutOfMemory
  }

  function RightC(a: seq<byte>, n: int): Outcome
    requires OcamlInt(n)
  {
    Returned(ShiftedRight(a, Unsigned(n)))
  }

  /** The bytes that span two neighbours, written behind moving pointers; the first byte is written in any case. */
  method SpanInto(a: array<byte>, r: array<byte>, d: nat, count: nat, ghost s: seq<byte>) returns (pa: nat, pr: nat)
    requires IsBlock(a[..], s) && a != r && d > 0 && count <= |s| && 0 < r.Length && count <= r.Length
    modifies r
    ensures pa + 1 == pr == if count == 0 then 1 else count
    ensures if count == 0 then r[0] == Over(a[0], d) else r[..count] == Quotient(s[..count], d)
    ensures forall k | pr <= k < r.Length :: r[k] == old(r[k])
  {
    BlockBounds(a[..], s);
    hide Spanning, Over, IsBlock;
    ghost var q := if count == 0 then [] else Quotient(s[..count], d);
    if count > 0 { QuotientAt(s[..count], d, 0); }
    OverByte(a[0], d);
    r[0] := Over(a[0], d);
    pa, pr := 0, 1;
    while pr < count
      invariant pa + 1 == pr && 1 <= pr && (count > 0 ==> pr <= count)
      invariant if count == 0 then pr == 1 && r[0] == Over(a[0], d) else forall k | 0 <= k < pr :: r[k] == q[k]
      invariant forall k | pr <= k < r.Length :: r[k] == old(r[k])
    {
      QuotientAt(s[..count], d, pr);
      assert s[pa] == a[pa] && s[pa + 1] == a[pa + 1];
      r[pr] := Spanning(a[pa], a[pa + 1], d);
      pa, pr := pa + 1, pr + 1;
    }
  }

  /**
   * For the empty string the stub reads the first byte of the padding, which is 0, and its zeros reach one byte behind
   * the result, where the block already holds a 0.
   */
  method ShiftLeftC(a: array<byte>, n: int, ghost s: seq<byte>) returns (r: array?<byte>)
    requires IsBlock(a[..], s) && OcamlInt(n)
    ensures match LeftC(s, n)
            case Returned(t) => r != null && fresh(r) && IsBlock(r[..], t)
            case _ => r == null
  {
    var m := Unsigned(n);
    var shift, nbytes := m % 8, m / 8;
    CeilSplit(m, shift, nbytes);
    LeftForm(s, m, shift, nbytes);
    hide IsBlock, Padded, Fits, CeilBytes, ShiftedLeft, Unsigned;
    var lenA := StringLength(a, s);
    var lenR := if shift == 0 then lenA + nbytes else lenA + nbytes + 1;
    r := AllocString(lenR);
    if r == null { return; }
    if shift == 0 {
      CopyAndClear(a, r, lenA, nbytes, s);
    } else {
      ShiftInto(a, r, shift, nbytes, lenA, m, s);
    }
  }

  lemma {:induction false} LeftForm(s: seq<byte>, n: nat, shift: nat, nbytes: nat)
    requires shift == n % 8 && nbytes == n / 8
    ensures shift == 0 ==> ShiftedLeft(s, n) == s + Zeros(nbytes)
    ensures shift != 0 && s == [] ==> ShiftedLeft(s, n) == Zeros(nbytes + 1)
    ensures shift != 0 && s != [] ==>
              && Pow2(8 - shift) > 0
              && ShiftedLeft(s, n) == Quotient(s, Pow2(8 - shift)) + [LowByte(s[|s| - 1], Pow2(shift))] + Zeros(nbytes)
  {
    CeilSplit(n, shift, nbytes);
    if shift != 0 { ShiftPowers(shift); }
    assert s == [] ==> s + Zeros(nbytes) == Zeros(nbytes);
  }

  method CopyAndClear(a: array<byte>, r: array<byte>, lenA: nat, nbytes: nat, ghost s: seq<byte>)
    requires a != r && IsBlock(a[..], s) && lenA == |s| && Padded(r[..], lenA + nbytes) && lenA + nbytes < r.Length
    modifies r
    ensures IsBlock(r[..], s + Zeros(nbytes))
  {
    hide IsBlock, Padded;
    BlockBounds(a[..], s);
    ghost var w, t := r[..], s + Zeros(nbytes);
    Memcpy(r, a, lenA);
    assert a[..lenA] == s;
    Bzero(r, lenA, nbytes);
    assert r[..] == t + w[|t|..];
    Filled(w, t, r[..]);
  }

  /** What is written before the whole bytes of zeros; `first` is the first byte of the block. */
  ghost function Head(first: byte, s: seq<byte>, shift: nat): seq<byte>
    requires 0 < shift < 8
  {
    ShiftPowers(shift);
    var d, p := Pow2(8 - shift), Pow2(shift);
    OverByte(first, d);
    if s == [] then [Over(first, d), LowByte(first, p)] else Quotient(s, d) + [LowByte(s[|s| - 1], p)]
  }

  method WriteHead(a: array<byte>, r: array<byte>, shift: nat, lenA: nat, ghost s: seq<byte>) returns (pr: nat)
    requires a != r && IsBlock(a[..], s) && lenA == |s| && 0 < shift < 8 && lenA + 1 < r.Length
    modifies r
    ensures 0 < a.Length && pr == |Head(a[0], s, shift)| == (if s == [] then 2 else lenA + 1) <= r.Length
    ensures r[..] == Head(a[0], s, shift) + old(r[pr..])
  {
    hide Over, LowByte, IsBlock, Pow2, Quotient;
    ShiftPowers(shift);
    BlockBounds(a[..], s);
    ghost var w := r[..];
    var pa;
    pa, pr := SpanInto(a, r, Pow2(8 - shift), lenA, s);
    ghost var y := r[..pr];
    assert s != [] ==> s[..lenA] == s;
    assert r[..] == y + w[pr..];
    r[pr] := LowByte(a[pa], Pow2(shift));
    pr := pr + 1;
    assert r[..] == y + [LowByte(a[pa], Pow2(shift))] + w[pr..];
  }

  method ShiftInto(a: array<byte>, r: array<byte>, shift: nat, nbytes: nat, lenA: nat, ghost m: nat, ghost s: seq<byte>)
    requires a != r && IsBlock(a[..], s) && lenA == |s| && 0 < shift < 8 && m % 8 == shift && m / 8 == nbytes
    requires Padded(r[..], lenA + nbytes + 1) && lenA + nbytes + 1 < r.Length
    modifies r
    ensures IsBlock(r[..], ShiftedLeft(s, m))
  {
    hide Head, IsBlock, Padded, ShiftedLeft;
    ghost var w := r[..];
    var pr := WriteHead(a, r, shift, lenA, s);
    Bzero(r, pr, nbytes);
    assert r[..] == Head(a[0], s, shift) + Zeros(nbytes) + w[pr + nbytes..];
    ShiftDone(a[..], w, r[..], pr, shift, nbytes, m, s);
  }

  lemma {:induction false} ShiftDone(
      a: seq<byte>, w: seq<byte>, r: seq<byte>, pr: nat, shift: nat, nbytes: nat, m: nat, s: seq<byte>)
    requires IsBlock(a, s) && 0 < shift < 8 && m % 8 == shift && m / 8 == nbytes && a != []
    requires Padded(w, |s| + nbytes + 1) && pr == |Head(a[0], s, shift)| && pr + nbytes <= |w|
    requires r == Head(a[0], s, shift) + Zeros(nbytes) + w[pr + nbytes..]
    ensures IsBlock(r, ShiftedLeft(s, m))
  {
    hide Spanning, Over, LowByte, IsBlock, Padded, Pow2;
    var t := ShiftedLeft(s, m);
    if s == [] {
      BlockBounds(a, s);
      ZeroAfter(w, nbytes + 1);
      LeftForm(s, m, shift, nbytes);
      EmptyShift(a[0], shift);
      EmptyDone(w, r, nbytes);
    } else {
      ShiftPowers(shift);
      assert t == Head(a[0], s, shift) + Zeros(nbytes);
      Filled(w, t, r);
    }
  }

  /** The zeros reach one byte too far, where there was a 0. */
  lemma {:induction false} EmptyDone(w: seq<byte>, r: seq<byte>, nbytes: nat)
    requires Padded(w, nbytes + 1) && nbytes + 2 <= |w| && w[nbytes + 1] == 0
    requires r == [0, 0] + Zeros(nbytes) + w[nbytes + 2..]
    ensures IsBlock(r, Zeros(nbytes + 1))
  {
    hide Padded, IsBlock;
    assert w[nbytes + 1..] == [0] + w[nbytes + 2..];
    assert [0, 0] + Zeros(nbytes) == Zeros(nbytes + 1) + [0];
    assert r == Zeros(nbytes + 1) + w[nbytes + 1..];
    Filled(w, Zeros(nbytes + 1), r);
  }

  lemma {:induction false} EmptyShift(x: byte, shift: nat)
    requires x == 0 && 0 < shift < 8
    ensures Over(x, Pow2(8 - shift)) == 0 && LowByte(x, Pow2(shift)) == 0
  {
    ShiftPowers(shift);
  }

  lemma {:induction false} RightForm(s: seq<byte>, n: nat, shift: nat, nbytes: nat)
    requires shift == n % 8 && nbytes == n / 8
    ensures |s| <= nbytes ==> ShiftedRight(s, n) == []
    ensures |s| > nbytes && shift == 0 ==> ShiftedRight(s, n) == s[..|s| - nbytes]
    ensures |s| > nbytes && shift != 0 ==>
              Pow2(shift) > 0 && ShiftedRight(s, n) == Quotient(s[..|s| - nbytes], Pow2(shift))
  {
    if shift != 0 { ShiftPowers(shift); }
  }

  method FillRight(a: array<byte>, r: array<byte>, shift: nat, lenR: nat, ghost s: seq<byte>)
    requires a != r && IsBlock(a[..], s) && 0 < lenR <= |s| && Padded(r[..], lenR) && lenR < r.Length
    requires shift != 0 ==> Pow2(shift) > 0
    modifies r
    ensures IsBlock(r[..], if shift == 0 then s[..lenR] else Quotient(s[..lenR], Pow2(shift)))
  {
    hide IsBlock, Padded, Quotient, Pow2;
    BlockBounds(a[..], s);
    ghost var w, t := r[..], s[..lenR];
    if shift == 0 {
      Memcpy(r, a, lenR);
      assert a[..lenR] == t;
      Filled(w, t, r[..]);
    } else {
      var pa, pr := SpanInto(a, r, Pow2(shift), lenR, s);
      assert r[..] == Quotient(t, Pow2(shift)) + w[lenR..];
      Filled(w, Quotient(t, Pow2(shift)), r[..]);
    }
  }

  method ShiftRightC(a: array<byte>, n: int, ghost s: seq<byte>) returns (r: array<byte>)
    requires IsBlock(a[..], s) && OcamlInt(n)
    ensures fresh(r) && IsBlock(r[..], RightC(s, n).bytes)
  {
    var m := Unsigned(n);
    var shift, nbytes := m % 8, m / 8;
    RightForm(s, m, shift, nbytes);
    hide IsBlock, Padded, Unsigned, ShiftedRight, Quotient, BlockLength, Pow2;
    BlockBounds(a[..], s);
    var lenA := StringLength(a, s);
    if lenA <= nbytes {
      var empty := AllocString(0);
      r := empty;
      assert r[..] == [] + r[0..];
      Filled(r[..], [], r[..]);
    } else {
      var block := AllocString(lenA - nbytes);
      r := block;
      FillRight(a, r, shift, lenA - nbytes, s);
    }
  }

  /** The left shift keeps its promise exactly for shifts that are not negative and results that fit a block. */
  lemma {:induction false} LeftExactly(a: seq<byte>, n: int)
    requires OcamlInt(n) && Fits(|a|)
    ensures LeftC(a, n) == PromisedLeft(a, n) <==> n >= 0 && Fits(|a| + CeilBytes(n))
    ensures n < 0 ==> LeftC(a, n) == OutOfMemory
  {
    hide ShiftedLeft;
  }

  /** The right shift keeps its promise exactly for shifts that are not negative: otherwise it shifts everything out. */
  lemma {:induction false} RightExactly(a: seq<byte>, n: int)
    requires OcamlInt(n) && Fits(|a|)
    ensures RightC(a, n) == PromisedRight(a, n) <==> n >= 0
    ensures n < 0 ==> RightC(a, n) == Returned([])
  {
  }

  /** The low ends, combined byte by byte behind three moving pointers. */
  method CombineLow(
      op: Logic, a: array<byte>, b: array<byte>, out: array<byte>, diff: nat, base: nat, lenB: nat,
      ghost s: seq<byte>, ghost t: seq<byte>)
    requires IsBlock(a[..], s) && IsBlock(b[..], t) && a != out && b != out
    requires |t| == lenB && diff + lenB == |s| && base + lenB <= out.Length
    modifies out
    ensures out[..base] == old(out[..base]) && out[base..][..lenB] == LowEnds(op, s, t)
    ensures out[base + lenB..] == old(out[base + lenB..])
  {
    BlockBounds(a[..], s);
    BlockBounds(b[..], t);
    hide ByteOp, LowEnds, IsBlock;
    var pa, pb, pr := diff, 0, base;
    while pb < lenB
      invariant 0 <= pb <= lenB && pa == diff + pb && pr == base + pb
      invariant out[..base] == old(out[..base]) && out[base + lenB..] == old(out[base + lenB..])
      invariant forall k | 0 <= k < pb :: out[base..][k] == ByteOp(op, s[diff..][k], t[k])
    {
      assert a[pa] == s[pa] == s[diff..][pb] && b[pb] == t[pb];
      out[pr] := ByteOp(op, a[pa], b[pb]);
      pa, pb, pr := pa + 1, pb + 1, pr + 1;
    }
  }

  /** A result of the shorter length for AND, and of the longer one otherwise. */
  method LongerFirst(
      op: Logic, a: array<byte>, b: array<byte>, la: nat, lb: nat, ghost s: seq<byte>, ghost t: seq<byte>)
    returns (r: array<byte>)
    requires IsBlock(a[..], s) && IsBlock(b[..], t) && la == |s| && lb == |t| && lb <= la
    ensures fresh(r) && IsBlock(r[..], HighEnd(op, s, lb) + LowEnds(op, s, t))
  {
    BlockBounds(a[..], s);
    BlockBounds(b[..], t);
    hide ByteOp, LowEnds, IsBlock, Padded;
    var diff := la - lb;
    var len := if op.And? then lb else la;
    var block := AllocString(len);
    r := block;
    ghost var w := r[..];
    var base := 0;
    if !op.And? {
      Memcpy(r, a, diff);
      assert a[..diff] == s[..diff];
      base := diff;
    }
    ghost var high := HighEnd(op, s, lb);
    assert r[..base] == high && r[len..] == w[len..];
    CombineLow(op, a, b, r, diff, base, lb, s, t);
    Spliced(w, r[..], high, LowEnds(op, s, t), len);
  }

  lemma {:induction false} Spliced(w: seq<byte>, r: seq<byte>, x: seq<byte>, y: seq<byte>, len: nat)
    requires Padded(w, len) && |x| + |y| == len <= |r| == |w| && r[..|x|] == x && r[|x|..][..|y|] == y
    requires r[len..] == w[len..]
    ensures IsBlock(r, x + y)
  {
    hide Padded, IsBlock;
    assert r == r[..|x|] + r[|x|..] && r[|x|..] == r[|x|..][..|y|] + r[|x|..][|y|..] && r[|x|..][|y|..] == r[len..];
    Filled(w, x + y, r);
  }

  /** a is made the longer string. */
  method LogicalC(op: Logic, x: array<byte>, y: array<byte>, ghost s: seq<byte>, ghost t: seq<byte>)
    returns (r: array<byte>)
    requires IsBlock(x[..], s) && IsBlock(y[..], t)
    ensures fresh(r) && IsBlock(r[..], Combined(op, s, t))
  {
    hide IsBlock, LowEnds, HighEnd;
    var la := StringLength(x, s);
    var lb := StringLength(y, t);
    if la < lb {
      r := LongerFirst(op, y, x, lb, la, t, s);
    } else {
      r := LongerFirst(op, x, y, la, lb, s, t);
    }
  }

  // ---- JavaScript ----

  method Zeroed(n: nat) returns (r: array<byte>)
    ensures fresh(r) && r.Length == n && forall i :: 0 <= i < n ==> r[i] == 0
  {
    r := new byte[n](_ => 0);
  }

  /** Reading outside a typed array gives undefined, which the shifts take for 0. */
  function ReadJs(a: seq<byte>, i: int): byte {
    if 0 <= i < |a| then a[i] else 0
  }

  /** The same bytes by index. */
  method SpanAt(a: seq<byte>, r: array<byte>, d: nat, count: nat)
    requires d > 0 && count <= |a| && 0 < r.Length && count <= r.Length
    modifies r
    ensures if count == 0 then r[0] == Over(ReadJs(a, 0), d) else r[..count] == Quotient(a[..count], d)
    ensures forall k | 0 < k < r.Length && count <= k :: r[k] == old(r[k])
  {
    hide Spanning, Over;
    ghost var q := if count == 0 then [] else Quotient(a[..count], d);
    if count > 0 { QuotientAt(a[..count], d, 0); }
    OverByte(ReadJs(a, 0), d);
    r[0] := Over(ReadJs(a, 0), d);
    var i := 1;
    while i < count
      invariant 1 <= i && (count > 0 ==> i <= count)
      invariant if count == 0 then r[0] == Over(ReadJs(a, 0), d) else forall k | 0 <= k < i :: r[k] == q[k]
      invariant forall k | 0 < k < r.Length && count <= k :: r[k] == old(r[k])
    {
      QuotientAt(a[..count], d, i);
      r[i] := Spanning(a[i - 1], a[i], d);
      i := i + 1;
    }
  }

  method ShiftLeftJs(a: seq<byte>, n: int) returns (r: Outcome)
    ensures r == PromisedLeft(a, n)
  {
    hide Spanning, Over, LowByte;
    if n < 0 { return InvalidArgument; }
    if n == 0 {
      assert a + Zeros(0) == a && Zeros(CeilBytes(0)) == [];
      return Returned(a);
    }
    var shift, nbytes := n % 8, n / 8;
    LeftForm(a, n, shift, nbytes);
    hide ShiftedLeft, Quotient, CeilBytes;
    if shift == 0 {
      r := Returned(a + Zeros(nbytes));
    } else {
      ShiftPowers(shift);
      var ra := Zeroed(|a| + nbytes + 1);
      SpanAt(a, ra, Pow2(8 - shift), |a|);
      ra[|a|] := LowByte(ReadJs(a, |a| - 1), Pow2(shift));
      r := Returned(ra[..]);
      if a == [] {
        EmptyShift(0, shift);
        assert ra[..] == Zeros(nbytes + 1);
      } else {
        assert a[..|a|] == a;
        assert ra[..] == ra[..|a|] + [ra[|a|]] + Zeros(nbytes);
      }
    }
  }

  method ShiftRightJs(a: seq<byte>, n: int) returns (r: Outcome)
    ensures r == PromisedRight(a, n)
  {
    hide Spanning, Over;
    if n < 0 { return InvalidArgument; }
    if n == 0 {
      assert a[..|a|] == a;
      return Returned(a);
    }
    var shift, nbytes := n % 8, n / 8;
    if |a| <= nbytes { return Returned([]); }
    var len := |a| - nbytes;
    if shift == 0 {
      r := Returned(a[..len]);
    } else {
      var ra := Zeroed(len);
      ShiftPowers(shift);
      SpanAt(a, ra, Pow2(shift), len);
      r := Returned(ra[..]);
    }
  }

  /** Overwrites a copy of the shorter string, from its start. */
  method ShorterUpwards(op: Logic, a: seq<byte>, b: seq<byte>) returns (r: seq<byte>)
    requires |b| <= |a|
    ensures r == LowEnds(op, a, b)
  {
    hide ByteOp;
    var diff := |a| - |b|;
    ghost var e := LowEnds(op, a, b);
    var out := new byte[|b|](i requires 0 <= i < |b| => b[i]);
    for i := 0 to |b|
      invariant forall k | 0 <= k < i :: out[k] == e[k]
      invariant forall k | i <= k < |b| :: out[k] == b[k]
    {
      var j := diff + i;
      assert a[diff..][i] == a[j];
      ByteOpCommutes(op, b[i], a[j]);
      out[i] := ByteOp(op, out[i], a[j]);
    }
    r := out[..];
  }

  /** Overwrites the low end of a copy of the longer string, upwards. */
  method LongerUpwards(op: Logic, a: seq<byte>, b: seq<byte>) returns (r: seq<byte>)
    requires |b| <= |a|
    ensures r == a[..|a| - |b|] + LowEnds(op, a, b)
  {
    hide ByteOp;
    var diff := |a| - |b|;
    ghost var e := a[..diff] + LowEnds(op, a, b);
    var out := new byte[|a|](i requires 0 <= i < |a| => a[i]);
    var i := diff;
    for j := 0 to |b|
      invariant i == diff + j
      invariant forall k | 0 <= k < i :: out[k] == e[k]
      invariant forall k | i <= k < |a| :: out[k] == a[k]
    {
      assert a[diff..][j] == a[i] && e[i] == LowEnds(op, a, b)[j];
      out[i] := ByteOp(op, out[i], b[j]);
      i := i + 1;
    }
    r := out[..];
  }

  method LogicalJs(op: Logic, x: seq<byte>, y: seq<byte>) returns (r: seq<byte>)
    ensures r == Combined(op, x, y)
  {
    var a, b := x, y;
    if |a| < |b| { a, b := b, a; }
    if op.And? {
      r := ShorterUpwards(op, a, b);
    } else {
      r := LongerUpwards(op, a, b);
    }
    SameCombined(op, x, y, a, b);
  }

  // ---- the interpreter ----

  /** Both operands walked from their ends; a copy of the shorter one is overwritten. */
  method ShorterDownwards(op: Logic, a: seq<byte>, b: seq<byte>) returns (r: seq<byte>)
    requires |b| <= |a|
    ensures r == LowEnds(op, a, b)
  {
    hide ByteOp;
    ghost var e, diff := LowEnds(op, a, b), |a| - |b|;
    var out := new byte[|b|](i requires 0 <= i < |b| => b[i]);
    var i, j := |b|, |a|;
    while i > 0
      invariant 0 <= i <= |b| && j == diff + i
      invariant forall k | 0 <= k < i :: out[k] == b[k]
      invariant forall k | i <= k < |b| :: out[k] == e[k]
    {
      i, j := i - 1, j - 1;
      assert a[diff..][i] == a[j];
      ByteOpCommutes(op, b[i], a[j]);
      out[i] := ByteOp(op, out[i], a[j]);
    }
    r := out[..];
  }

  /** Both operands walked from their ends; a copy of the longer one is overwritten. */
  method LongerDownwards(op: Logic, a: seq<byte>, b: seq<byte>) returns (r: seq<byte>)
    requires |b| <= |a|
    ensures r == a[..|a| - |b|] + LowEnds(op, a, b)
  {
    hide ByteOp;
    ghost var diff := |a| - |b|;
    ghost var e := a[..diff] + LowEnds(op, a, b);
    var out := new byte[|a|](i requires 0 <= i < |a| => a[i]);
    var i, j := |b|, |a|;
    while i > 0
      invariant 0 <= i <= |b| && j == diff + i
      invariant forall k | 0 <= k < j :: out[k] == a[k]
      invariant forall k | j <= k < |a| :: out[k] == e[k]
    {
      i, j := i - 1, j - 1;
      assert a[diff..][i] == a[j] && e[j] == LowEnds(op, a, b)[i];
      out[j] := ByteOp(op, out[j], b[i]);
    }
    r := out[..];
  }

  /** AND keeps the shorter operand as its result, OR and XOR the longer one. */
  method LogicalMir(op: Logic, x: seq<byte>, y: seq<byte>) returns (r: seq<byte>)
    ensures r == Combined(op, x, y)
  {
    var o1, o2 := x, y;
    if op.And? {
      if |o1| < |o2| { o1, o2 := o2, o1; }
      r := ShorterDownwards(op, o1, o2);
      SameCombined(op, x, y, o1, o2);
    } else {
      if |o1| > |o2| { o1, o2 := o2, o1; }
      r := LongerDownwards(op, o2, o1);
      SameCombined(op, x, y, o2, o1);
    }
  }

  lemma {:induction false} SameCombined(op: Logic, x: seq<byte>, y: seq<byte>, long: seq<byte>, short: seq<byte>)
    requires (long == x && short == y) || (long == y && short == x)
    requires |short| <= |long|
    ensures Combined(op, x, y) == HighEnd(op, long, |short|) + LowEnds(op, long, short)
  {
    hide ByteOp;
    if |x| == |y| {
      forall i | 0 <= i < |x| ensures LowEnds(op, x, y)[i] == LowEnds(op, y, x)[i] {
        assert x[0..][i] == x[i] && y[0..][i] == y[i];
        ByteOpCommutes(op, x[i], y[i]);
      }
      assert LowEnds(op, x, y) == LowEnds(op, y, x);
    }
  }

  /** Right-shifting what the stubs left-shifted gives back the value, for every string. */
  method ShiftBack(a: array<byte>, n: nat, ghost s: seq<byte>) returns (r: array?<byte>, ghost t: seq<byte>)
    requires IsBlock(a[..], s) && OcamlInt(n)
    ensures r == null <==> !Fits(|s| + CeilBytes(n))
    ensures r != null ==> IsBlock(r[..], t) && Val(t) == Val(s)
  {
    var left := ShiftLeftC(a, n, s);
    t := [];
    if left == null { return null, t; }
    r := ShiftRightC(left, n, ShiftedLeft(s, n));
    t := ShiftedRight(ShiftedLeft(s, n), n);
    ShiftRoundTrip(s, n);
  }
}
