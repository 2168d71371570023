/** The order on values of a comparable type, and maps kept sorted by it. */
module Ordering {
  import opened Syntax
  import opened Costs
  import opened Ops

  /** The values of a comparable type. */
  predicate KeyOf(v: Value, t: Ty)
    decreases v
  {
    match v
    case VInt(_) => t == TInt
    case VNat(_) => t == TNat
    case VMutez(_) => t == TMutez
    case VBool(_) => t == TBool
    case VUnit => t == TUnit
    case VAddress(_) => t == TAddress
    case VPair(x, y) => t.TPair? && KeyOf(x, t.fst) && KeyOf(y, t.snd)
    case VNone => t.TOption?
    case VSome(x) => t.TOption? && KeyOf(x, t.elem)
    case VLeft(x) => t.TOr? && KeyOf(x, t.left)
    case VRight(x) => t.TOr? && KeyOf(x, t.right)
    case _ => false
  }

  /** Values of one comparable type always have a price to compare. */
  lemma {:induction false} CostDefined(a: Value, b: Value, t: Ty)
    requires KeyOf(a, t) && KeyOf(b, t)
    ensures CompareCost(a, b).Some?
    decreases a
  {
    match (a, b)
    case (VPair(x, y), VPair(u, v)) =>
      CostDefined(x, u, t.fst);
      CostDefined(y, v, t.snd);
    case (VSome(x), VSome(y)) => CostDefined(x, y, t.elem);
    case (VLeft(x), VLeft(y)) => CostDefined(x, y, t.left);
    case (VRight(x), VRight(y)) => CostDefined(x, y, t.right);
    case (_, _) =>
  }

  lemma {:induction false} CmpAntisymmetric(a: Value, b: Value, t: Ty)
    requires KeyOf(a, t) && KeyOf(b, t)
    ensures Cmp(b, a) == -Cmp(a, b)
    decreases a
  {
    match (a, b)
    case (VPair(x, y), VPair(u, v)) =>
      CmpAntisymmetric(x, u, t.fst);
      CmpAntisymmetric(y, v, t.snd);
    case (VSome(x), VSome(y)) => CmpAntisymmetric(x, y, t.elem);
    case (VLeft(x), VLeft(y)) => CmpAntisymmetric(x, y, t.left);
    case (VRight(x), VRight(y)) => CmpAntisymmetric(x, y, t.right);
    case (_, _) =>
  }

  lemma {:induction false} CmpZero(a: Value, b: Value, t: Ty)
    requires KeyOf(a, t) && KeyOf(b, t)
    ensures Cmp(a, b) == 0 <==> a == b
    decreases a
  {
    match (a, b)
    case (VPair(x, y), VPair(u, v)) =>
      CmpZero(x, u, t.fst);
      CmpZero(y, v, t.snd);
    case (VSome(x), VSome(y)) => CmpZero(x, y, t.elem);
    case (VLeft(x), VLeft(y)) => CmpZero(x, y, t.left);
    case (VRight(x), VRight(y)) => CmpZero(x, y, t.right);
    case (_, _) =>
  }

  lemma {:induction false} CmpTransitive(a: Value, b: Value, c: Value, t: Ty)
    requires KeyOf(a, t) && KeyOf(b, t) && KeyOf(c, t)
    requires Cmp(a, b) < 0 && Cmp(b, c) < 0
    ensures Cmp(a, c) < 0
    decreases a
  {
    match a
    case VPair(x, y) =>
      CmpZero(x, b.fst, t.fst);
      CmpZero(b.fst, c.fst, t.fst);
      if x == b.fst && b.fst == c.fst {
        CmpTransitive(y, b.snd, c.snd, t.snd);
      } else if x != b.fst && b.fst != c.fst {
        CmpTransitive(x, b.fst, c.fst, t.fst);
      }
    case VSome(x) => CmpTransitive(x, b.inner, c.inner, t.elem);
    case VLeft(x) =>
      if b.VLeft? && c.VLeft? { CmpTransitive(x, b.inner, c.inner, t.left); }
    case VRight(x) => CmpTransitive(x, b.inner, c.inner, t.right);
    case _ =>
  }

  /**
   * The order of the language: numbers by size, false before true, None before Some, Left before Right, and pairs by
   * their first components, then by their second.
   */
  predicate Less(a: Value, b: Value)
    decreases a
  {
    match a
    case VInt(x) => b.VInt? && x < b.i
    case VNat(x) => b.VNat? && x < b.n
    case VMutez(x) => b.VMutez? && x < b.mutez
    case VBool(x) => b.VBool? && !x && b.b
    case VAddress(x) => b.VAddress? && x < b.hash
    case VPair(x, y) => b.VPair? && (Less(x, b.fst) || (x == b.fst && Less(y, b.snd)))
    case VNone => b.VSome?
    case VSome(x) => b.VSome? && Less(x, b.inner)
    case VLeft(x) => b.VRight? || (b.VLeft? && Less(x, b.inner))
    case VRight(x) => b.VRight? && Less(x, b.inner)
    case _ => false
  }

  /** The comparison is -1, 0 or 1 for smaller, equal and larger. */
  lemma {:induction false} CmpIsLess(a: Value, b: Value, t: Ty)
    requires KeyOf(a, t) && KeyOf(b, t)
    ensures Cmp(a, b) == if Less(a, b) then -1 else if a == b then 0 else 1
    decreases a
  {
    match a
    case VPair(x, y) =>
      CmpIsLess(x, b.fst, t.fst);
      CmpIsLess(y, b.snd, t.snd);
    case VSome(x) => if b.VSome? { CmpIsLess(x, b.inner, t.elem); }
    case VLeft(x) => if b.VLeft? { CmpIsLess(x, b.inner, t.left); }
    case VRight(x) => if b.VRight? { CmpIsLess(x, b.inner, t.right); }
    case _ =>
  }

  /** A sorted map with keys of a comparable type. */
  ghost predicate Ordered(m: seq<Entry>, k: Ty) {
    && Sorted(m)
    && forall i :: 0 <= i < |m| ==> KeyOf(m[i].key, k)
  }

  /** The keys of a map ascend. */
  lemma {:induction false} KeysAscend(m: seq<Entry>, k: Ty)
    requires Ordered(m, k)
    ensures forall i, j :: 0 <= i < j < |m| ==> Less(m[i].key, m[j].key)
  {
    forall i, j | 0 <= i < j < |m| ensures Less(m[i].key, m[j].key) {
      CmpIsLess(m[i].key, m[j].key, k);
    }
  }

  /** Every key of the map is larger than the given one. */
  ghost predicate Larger(key: Value, m: seq<Entry>) {
    forall i :: 0 <= i < |m| ==> Cmp(key, m[i].key) < 0
  }

  lemma {:induction false} TailOrdered(m: seq<Entry>, k: Ty)
    requires Ordered(m, k) && m != []
    ensures Ordered(m[1..], k) && Larger(m[0].key, m[1..])
  {
  }

  lemma {:induction false} InsertLarger(low: Value, m: seq<Entry>, key: Value, val: Value)
    requires Larger(low, m) && Cmp(low, key) < 0
    ensures Larger(low, Insert(m, key, val))
  {
    if m != [] && Cmp(key, m[0].key) > 0 {
      InsertLarger(low, m[1..], key, val);
    }
  }

  lemma {:induction false} RemoveLarger(low: Value, m: seq<Entry>, key: Value)
    requires Larger(low, m)
    ensures Larger(low, Remove(m, key))
  {
    if m != [] && Cmp(key, m[0].key) > 0 {
      RemoveLarger(low, m[1..], key);
    }
  }

  lemma {:induction false} Prepended(e: Entry, m: seq<Entry>, k: Ty)
    requires Ordered(m, k) && KeyOf(e.key, k) && Larger(e.key, m)
    ensures Ordered([e] + m, k)
  {
  }

  lemma {:induction false} SmallestIsLarger(key: Value, m: seq<Entry>, k: Ty)
    requires Ordered(m, k) && KeyOf(key, k) && m != [] && Cmp(key, m[0].key) < 0
    ensures Larger(key, m)
  {
    forall i | 1 <= i < |m| ensures Cmp(key, m[i].key) < 0 {
      CmpTransitive(key, m[0].key, m[i].key, k);
    }
  }

  /** Binding a key keeps the map sorted. */
  lemma {:induction false} InsertOrdered(m: seq<Entry>, key: Value, val: Value, k: Ty)
    requires Ordered(m, k) && KeyOf(key, k)
    ensures Ordered(Insert(m, key, val), k)
  {
    if m == [] {
    } else if Cmp(key, m[0].key) < 0 {
      SmallestIsLarger(key, m, k);
      Prepended(Entry(key, val), m, k);
    } else {
      TailOrdered(m, k);
      if Cmp(key, m[0].key) == 0 {
        Prepended(Entry(m[0].key, val), m[1..], k);
      } else {
        InsertOrdered(m[1..], key, val, k);
        CmpAntisymmetric(key, m[0].key, k);
        InsertLarger(m[0].key, m[1..], key, val);
        Prepended(m[0], Insert(m[1..], key, val), k);
      }
    }
  }

  /** Unbinding a key keeps the map sorted. */
  lemma {:induction false} RemoveOrdered(m: seq<Entry>, key: Value, k: Ty)
    requires Ordered(m, k)
    ensures Ordered(Remove(m, key), k)
  {
    if m != [] {
      TailOrdered(m, k);
      if Cmp(key, m[0].key) > 0 {
        RemoveOrdered(m[1..], key, k);
        RemoveLarger(m[0].key, m[1..], key);
        Prepended(m[0], Remove(m[1..], key), k);
      }
    }
  }

  /** Nothing is found below the smallest key. */
  lemma {:induction false} FindLarger(m: seq<Entry>, key: Value)
    requires Larger(key, m)
    ensures Find(m, key) == None
  {
  }

  /** A lookup after an insertion sees the new value at that key and the old map elsewhere. */
  lemma {:induction false} FindInsert(m: seq<Entry>, key: Value, val: Value, k: Ty, at: Value)
    requires Ordered(m, k) && KeyOf(key, k) && KeyOf(at, k)
    ensures Find(Insert(m, key, val), at) == if at == key then Some(val) else Find(m, at)
  {
    CmpZero(at, key, k);
    if m != [] {
      CmpZero(key, m[0].key, k);
      CmpZero(at, m[0].key, k);
      CmpAntisymmetric(at, key, k);
      if Cmp(key, m[0].key) > 0 {
        TailOrdered(m, k);
        FindInsert(m[1..], key, val, k, at);
        assert Insert(m, key, val)[1..] == Insert(m[1..], key, val);
      } else if Cmp(key, m[0].key) < 0 {
        assert Insert(m, key, val)[1..] == m;
        if Cmp(at, key) < 0 { CmpTransitive(at, key, m[0].key, k); }
      } else {
        assert Insert(m, key, val)[1..] == m[1..];
      }
    }
  }

  /** A lookup after a removal finds nothing at that key and the old map elsewhere. */
  lemma {:induction false} FindRemove(m: seq<Entry>, key: Value, k: Ty, at: Value)
    requires Ordered(m, k) && KeyOf(key, k) && KeyOf(at, k)
    ensures Find(Remove(m, key), at) == if at == key then None else Find(m, at)
  {
    if m != [] {
      CmpZero(key, m[0].key, k);
      CmpZero(at, m[0].key, k);
      TailOrdered(m, k);
      if Cmp(key, m[0].key) > 0 {
        FindRemove(m[1..], key, k, at);
        assert Remove(m, key)[1..] == Remove(m[1..], key);
      } else if Cmp(key, m[0].key) == 0 {
        if at == key {
          FindLarger(m[1..], at);
        } else if Cmp(at, key) < 0 {
          FindSmaller(m[1..], at, key, k);
        }
      }
    }
  }

  lemma {:induction false} FindSmaller(m: seq<Entry>, at: Value, key: Value, k: Ty)
    requires Ordered(m, k) && KeyOf(key, k) && KeyOf(at, k)
    requires Larger(key, m) && Cmp(at, key) < 0
    ensures Find(m, at) == None
  {
    if m != [] { CmpTransitive(at, key, m[0].key, k); }
  }

  // ---- lookup by the bindings themselves ----

  /** The key is bound to the value. */
  ghost predicate Binds(m: seq<Entry>, key: Value, val: Value) { Entry(key, val) in m }

  ghost predicate Bound(m: seq<Entry>, key: Value) { exists v :: Binds(m, key, v) }

  /** Lookup finds exactly the bindings. */
  lemma {:induction false} FindExactly(m: seq<Entry>, key: Value, k: Ty, val: Value)
    requires Ordered(m, k) && KeyOf(key, k)
    ensures Find(m, key) == Some(val) <==> Binds(m, key, val)
    decreases |m|
  {
    if m != [] {
      TailOrdered(m, k);
      CmpZero(key, m[0].key, k);
      FindExactly(m[1..], key, k, val);
      assert m == [m[0]] + m[1..];
      if Cmp(key, m[0].key) <= 0 {
        forall i | 1 <= i < |m| ensures m[i].key != key {
          CmpZero(key, m[i].key, k);
          if Cmp(key, m[0].key) < 0 { CmpTransitive(key, m[0].key, m[i].key, k); }
        }
      }
    }
  }

  /** Binding a key leaves every other binding alone. */
  lemma {:induction false} InsertBinds(m: seq<Entry>, key: Value, val: Value, k: Ty, at: Value, x: Value)
    requires Ordered(m, k) && KeyOf(key, k) && KeyOf(at, k)
    ensures Ordered(Insert(m, key, val), k)
    ensures Binds(Insert(m, key, val), at, x) <==> if at == key then x == val else Binds(m, at, x)
  {
    InsertOrdered(m, key, val, k);
    FindInsert(m, key, val, k, at);
    FindExactly(m, at, k, x);
    FindExactly(Insert(m, key, val), at, k, x);
  }

  lemma {:induction false} RemoveBinds(m: seq<Entry>, key: Value, k: Ty, at: Value, x: Value)
    requires Ordered(m, k) && KeyOf(key, k) && KeyOf(at, k)
    ensures Ordered(Remove(m, key), k)
    ensures Binds(Remove(m, key), at, x) <==> at != key && Binds(m, at, x)
  {
    RemoveOrdered(m, key, k);
    FindRemove(m, key, k, at);
    FindExactly(m, at, k, x);
    FindExactly(Remove(m, key), at, k, x);
  }
}
