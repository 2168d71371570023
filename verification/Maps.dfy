/** Map operations keep the type of the map. */
module Maps {
  import opened Syntax
  import opened Costs
  import opened Ops
  import opened Ordering
  import opened Typechecker

  /** A value of a comparable type can be a key. */
  lemma {:induction false} TypedIsKey(strict: bool, v: Value, t: Ty)
    requires HasType(strict, v, t) && Prop(t, Comparable)
    ensures KeyOf(v, t)
    decreases v
  {
    match v
    case VPair(x, y) => TypedIsKey(strict, x, t.fst); TypedIsKey(strict, y, t.snd);
    case VSome(x) => TypedIsKey(strict, x, t.elem);
    case VLeft(x) => TypedIsKey(strict, x, t.left);
    case VRight(x) => TypedIsKey(strict, x, t.right);
    case _ =>
  }

  lemma {:induction false} EntriesTail(strict: bool, m: seq<Entry>, k: Ty, t: Ty)
    requires EntriesHave(strict, m, k, t) && m != []
    ensures EntryHas(strict, m[0], k, t) && EntriesHave(strict, m[1..], k, t)
  {
    forall i | 0 <= i < |m[1..]| ensures EntryHas(strict, m[1..][i], k, t) {
      assert m[1..][i] == m[i + 1];
    }
  }

  lemma {:induction false} EntriesCons(strict: bool, e: Entry, m: seq<Entry>, k: Ty, t: Ty)
    requires EntriesHave(strict, m, k, t) && EntryHas(strict, e, k, t)
    ensures EntriesHave(strict, [e] + m, k, t)
  {
    forall i | 0 <= i < |[e] + m| ensures EntryHas(strict, ([e] + m)[i], k, t) {
      if i > 0 { assert ([e] + m)[i] == m[i - 1]; }
    }
  }

  lemma {:induction false} FindTyped(strict: bool, m: seq<Entry>, key: Value, k: Ty, t: Ty)
    requires EntriesHave(strict, m, k, t)
    ensures Find(m, key).Some? ==> HasType(strict, Find(m, key).value, t)
  {
    if m != [] {
      EntriesTail(strict, m, k, t);
      FindTyped(strict, m[1..], key, k, t);
    }
  }

  lemma {:induction false} InsertTyped(strict: bool, m: seq<Entry>, key: Value, val: Value, k: Ty, t: Ty)
    requires EntriesHave(strict, m, k, t) && HasType(strict, key, k) && HasType(strict, val, t)
    ensures EntriesHave(strict, Insert(m, key, val), k, t)
  {
    if m == [] || Cmp(key, m[0].key) < 0 {
      EntriesCons(strict, Entry(key, val), m, k, t);
    } else {
      EntriesTail(strict, m, k, t);
      if Cmp(key, m[0].key) == 0 {
        EntriesCons(strict, Entry(m[0].key, val), m[1..], k, t);
      } else {
        InsertTyped(strict, m[1..], key, val, k, t);
        EntriesCons(strict, m[0], Insert(m[1..], key, val), k, t);
      }
    }
  }

  lemma {:induction false} RemoveTyped(strict: bool, m: seq<Entry>, key: Value, k: Ty, t: Ty)
    requires EntriesHave(strict, m, k, t)
    ensures EntriesHave(strict, Remove(m, key), k, t)
  {
    if m != [] && Cmp(key, m[0].key) >= 0 {
      EntriesTail(strict, m, k, t);
      if Cmp(key, m[0].key) > 0 {
        RemoveTyped(strict, m[1..], key, k, t);
        EntriesCons(strict, m[0], Remove(m[1..], key), k, t);
      }
    }
  }

  lemma {:induction false} EntriesOrdered(strict: bool, m: seq<Entry>, k: Ty, t: Ty)
    requires HasType(strict, VMap(m), TMap(k, t))
    ensures Ordered(m, k)
  {
    forall i | 0 <= i < |m| ensures KeyOf(m[i].key, k) {
      assert EntryHas(strict, m[i], k, t);
      TypedIsKey(strict, m[i].key, k);
    }
  }

  /** UPDATE leaves a map of the same type. */
  lemma {:induction false} UpdatedTyped(strict: bool, m: seq<Entry>, key: Value, val: Value, k: Ty, t: Ty)
    requires HasType(strict, VMap(m), TMap(k, t)) && HasType(strict, key, k) && HasType(strict, val, TOption(t))
    ensures HasType(strict, VMap(Updated(m, key, val)), TMap(k, t))
  {
    EntriesOrdered(strict, m, k, t);
    TypedIsKey(strict, key, k);
    if val.VSome? {
      InsertTyped(strict, m, key, val.inner, k, t);
      InsertOrdered(m, key, val.inner, k);
    } else {
      RemoveTyped(strict, m, key, k, t);
      RemoveOrdered(m, key, k);
    }
  }

  lemma {:induction false} MapCostDefined(strict: bool, factor: nat, m: seq<Entry>, key: Value, k: Ty, t: Ty)
    requires HasType(strict, VMap(m), TMap(k, t)) && HasType(strict, key, k)
    ensures MapCost(factor, key, m).Some?
  {
    EntriesOrdered(strict, m, k, t);
    TypedIsKey(strict, key, k);
    CostDefined(key, key, k);
    forall i | 0 <= i < |m| ensures CompareCost(key, m[i].key).Some? {
      CostDefined(key, m[i].key, k);
    }
  }
}
