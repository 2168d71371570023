/** Gas prices and the order on comparable values. */
module Costs {
  import opened Syntax

  const MAX_U32: nat := 0xFFFF_FFFF

  /** The number of bits of n. */
  function BitLength(n: nat): nat {
    if n == 0 then 0 else 1 + BitLength(n / 2)
  }

  function ByteSize(x: int): nat {
    (BitLength(if x < 0 then -x else x) + 7) / 8
  }

  /** log2 n, rounded up. */
  function Log2i(n: nat): nat
    requires n > 0
  {
    BitLength(n - 1)
  }

  function Max(a: nat, b: nat): nat { if a < b then b else a }

  function Min(a: nat, b: nat): nat { if a < b then a else b }

  function DropCost(height: Option<nat>): nat {
    match height
    case None => 10
    case Some(n) => 30 + n * 2 + n / 2 + n / 8
  }

  function DupCost(height: Option<nat>): nat {
    match height
    case None => 10
    case Some(n) => 20 + n + n / 4
  }

  function DipCost(height: Option<nat>): nat {
    match height
    case None => 10
    case Some(n) => 15 + n * 4
  }

  function UndipCost(n: nat): nat { (n + 1) * 10 }

  function DigCost(n: nat): nat { 30 + 6 * n + n / 2 + n / 4 }

  function DugCost(n: nat): nat { 35 + 6 * n + n / 2 + n / 4 }

  function AddCost(x: int, y: int): nat { 35 + Max(ByteSize(x), ByteSize(y)) / 2 }

  function MulCost(x: int, y: int): nat {
    var a := ByteSize(x) + ByteSize(y);
    var v := if a == 0 then 0 else a * Log2i(a);
    55 + v / 2 + v / 4 + v / 16
  }

  /** The price function subtracts 2 with an underflow check: below 2 there is no price that can be paid. */
  function PairNCost(n: nat): nat {
    if n < 2 then MAX_U32 + 1 else 40 + (n - 2) / 4 + (n - 2) * 3
  }

  function UnpairNCost(n: nat): nat {
    if n < 2 then MAX_U32 + 1 else 30 + (n - 2) * 4
  }

  function GetNCost(n: nat): nat { 20 + n / 2 + n / 16 }

  function UpdateNCost(n: nat): nat { 30 + n / 32 + n / 4 + n }

  function CompareBytes(a: nat, b: nat): nat {
    var v := Min(a, b);
    35 + v / 64 + v / 128
  }

  function AddCosts(base: nat, a: Option<nat>, b: Option<nat>): Option<nat> {
    if a.Some? && b.Some? then Some(base + a.value + b.value) else None
  }

  /** The price of comparing two values; None where the price function stops the program. */
  function CompareCost(a: Value, b: Value): Option<nat>
    decreases a
  {
    match (a, b)
    case (VInt(x), VInt(y)) => Some(CompareBytes(ByteSize(x), ByteSize(y)))
    case (VNat(x), VNat(y)) => Some(CompareBytes(ByteSize(x), ByteSize(y)))
    case (VMutez(_), VMutez(_)) => Some(CompareBytes(8, 8))
    case (VBool(_), VBool(_)) => Some(CompareBytes(1, 1))
    case (VUnit, VUnit) => Some(10)
    case (VAddress(_), VAddress(_)) => Some(CompareBytes(51, 51))
    case (VPair(x, y), VPair(u, v)) => AddCosts(10, CompareCost(x, u), CompareCost(y, v))
    case (VNone, VNone) => Some(10)
    case (VNone, VSome(_)) => Some(10)
    case (VSome(_), VNone) => Some(10)
    case (VSome(x), VSome(y)) => AddCosts(10, CompareCost(x, y), Some(0))
    case (VLeft(x), VLeft(y)) => AddCosts(10, CompareCost(x, y), Some(0))
    case (VRight(x), VRight(y)) => AddCosts(10, CompareCost(x, y), Some(0))
    case (VLeft(_), VRight(_)) => Some(10)
    case (VRight(_), VLeft(_)) => Some(10)
    case (_, _) => None
  }

  function LevelsCost(factor: nat, c: nat, levels: nat): nat { factor * (c * levels) }

  /** Lookup and update of a map with `size` bindings: each level of the tree costs one comparison. */
  function LookupCost(base: nat, factor: nat, key: Value, size: nat): Option<nat> {
    match CompareCost(key, key)
    case None => None
    case Some(c) => if c > MAX_U32 then Some(c) else Some(base + LevelsCost(factor, c, Log2i(size + 1)))
  }

  /** Merging tickets compares the contents first, then pays for the addition only. */
  function JoinCost(x: Ticket, y: Ticket): Option<nat> {
    match CompareCost(x.content, y.content)
    case None => None
    case Some(c) => if c > MAX_U32 then Some(c) else Some(AddCost(x.amount, y.amount))
  }

  function Sign(x: int): int { if x < 0 then -1 else if x == 0 then 0 else 1 }

  /** The order on comparable values; it is only consulted where CompareCost is defined. */
  function Cmp(a: Value, b: Value): int
    decreases a
  {
    match (a, b)
    case (VInt(x), VInt(y)) => Sign(x - y)
    case (VNat(x), VNat(y)) => Sign(x - y)
    case (VMutez(x), VMutez(y)) => Sign(x - y)
    case (VBool(x), VBool(y)) => if x == y then 0 else if x then 1 else -1
    case (VAddress(x), VAddress(y)) => Sign(x - y)
    case (VPair(x, y), VPair(u, v)) => if Cmp(x, u) != 0 then Cmp(x, u) else Cmp(y, v)
    case (VNone, VSome(_)) => -1
    case (VSome(_), VNone) => 1
    case (VSome(x), VSome(y)) => Cmp(x, y)
    case (VLeft(x), VLeft(y)) => Cmp(x, y)
    case (VRight(x), VRight(y)) => Cmp(x, y)
    case (VLeft(_), VRight(_)) => -1
    case (VRight(_), VLeft(_)) => 1
    case (_, _) => 0
  }
}
