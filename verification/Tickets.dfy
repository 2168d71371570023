/** Amounts of tickets held inside values, and what single instructions do to them. */
module Tickets {
  import opened Syntax
  import opened Costs
  import opened Interpreter
  import opened Ops
  import opened Typechecker
  import opened Maps

  /** A way to weigh tickets, for instance the amount of one kind of ticket. */
  type Weight = Ticket -> nat

  predicate Parts(t: Ticket, a: nat, b: nat) { true }

  /** Splitting never gains weight, and neither does joining. */
  ghost predicate Fair(w: Weight) {
    forall t: Ticket, a: nat, b: nat {:trigger Parts(t, a, b)} :: Parts(t, a, b) ==>
      && w(t.(amount := a + b)) <= w(t.(amount := a)) + w(t.(amount := b))
      && (a > 0 && b > 0 ==> w(t.(amount := a)) + w(t.(amount := b)) <= w(t.(amount := a + b)))
  }

  /** The weight of all tickets inside a value, including those captured by closures and written in their code. */
  function Total(w: Weight, v: Value): nat
    decreases v
  {
    match v
    case VPair(x, y) => Total(w, x) + Total(w, y)
    case VSome(x) => Total(w, x)
    case VLeft(x) => Total(w, x)
    case VRight(x) => Total(w, x)
    case VList(vs) => TotalSeq(w, vs)
    case VMap(m) => TotalEntries(w, m)
    case VLambda(c) => TotalClosure(w, c)
    case VTicket(t) => w(t) + Total(w, t.content)
    case _ => 0
  }

  function TotalSeq(w: Weight, vs: seq<Value>): nat
    decreases vs
  {
    if vs == [] then 0 else Total(w, vs[0]) + TotalSeq(w, vs[1..])
  }

  function TotalEntries(w: Weight, m: seq<Entry>): nat
    decreases m
  {
    if m == [] then 0 else TotalEntry(w, m[0]) + TotalEntries(w, m[1..])
  }

  function TotalEntry(w: Weight, e: Entry): nat
    decreases e
  {
    Total(w, e.key) + Total(w, e.val)
  }

  function TotalClosure(w: Weight, c: Closure): nat
    decreases c
  {
    if c.Applied? then Total(w, c.arg) + TotalClosure(w, c.inner) else TotalCode(w, c.code)
  }

  /** The weight of the tickets written in a program. */
  function TotalCode(w: Weight, code: seq<Instr>): nat
    decreases code
  {
    if code == [] then 0 else TotalInstr(w, code[0]) + TotalCode(w, code[1..])
  }

  function TotalInstr(w: Weight, i: Instr): nat
    decreases i
  {
    match i
    case Simple(op) => TotalOp(w, op)
    case Block(body) => TotalCode(w, body)
    case If(a, b) => TotalCode(w, a) + TotalCode(w, b)
    case IfNone(a, b) => TotalCode(w, a) + TotalCode(w, b)
    case IfCons(a, b) => TotalCode(w, a) + TotalCode(w, b)
    case IfLeft(a, b) => TotalCode(w, a) + TotalCode(w, b)
    case Loop(body) => TotalCode(w, body)
    case LoopLeft(body) => TotalCode(w, body)
    case Iter(_, body) => TotalCode(w, body)
    case Map(_, body) => TotalCode(w, body)
    case Dip(_, body) => TotalCode(w, body)
    case Exec => 0
  }

  function TotalOp(w: Weight, op: Op): nat
    decreases op
  {
    match op
    case OnStack(o) => if o.Push? then Total(w, o.value) else 0
    case OnLinear(o) => if o.MkLambda? then TotalClosure(w, o.lambda) else 0
    case _ => 0
  }

  /** The weight of a log of minted tickets. */
  function TotalMinted(w: Weight, ts: seq<Ticket>): nat {
    if ts == [] then 0 else TotalMinted(w, ts[..|ts| - 1]) + w(ts[|ts| - 1])
  }

  lemma {:induction false} TotalAppend(w: Weight, a: seq<Value>, b: seq<Value>)
    ensures TotalSeq(w, a + b) == TotalSeq(w, a) + TotalSeq(w, b)
  {
    if a == [] {
      assert a + b == b;
    } else {
      TotalAppend(w, a[1..], b);
      assert (a + b)[1..] == a[1..] + b;
    }
  }

  lemma {:induction false} TotalCons(w: Weight, v: Value, s: seq<Value>)
    ensures TotalSeq(w, [v] + s) == Total(w, v) + TotalSeq(w, s)
  {
    assert ([v] + s)[1..] == s;
  }

  lemma {:induction false} TotalOne(w: Weight, v: Value)
    ensures TotalSeq(w, [v]) == Total(w, v)
  {
    assert [v][1..] == [];
  }

  lemma {:induction false} TotalTwo(w: Weight, u: Value, v: Value)
    ensures TotalSeq(w, [u, v]) == Total(w, u) + Total(w, v)
  {
    assert [u, v][1..] == [v];
    TotalOne(w, v);
  }

  /** The stack is its top elements followed by the rest. */
  lemma {:induction false} TotalSplit(w: Weight, s: seq<Value>, n: nat)
    requires n <= |s|
    ensures TotalSeq(w, s) == TotalSeq(w, s[..n]) + TotalSeq(w, s[n..])
  {
    assert s[..n] + s[n..] == s;
    TotalAppend(w, s[..n], s[n..]);
  }

  // ---- values without tickets ----

  /**
   * Values of a comparable, pushable or duplicable type hold no tickets: those written in a program under either rules,
   * and all values under the strict rules.
   */
  lemma {:induction false} NoTickets(w: Weight, strict: bool, v: Value, t: Ty, p: Property)
    requires HasType(strict, v, t) && Prop(t, p) && (strict || Written(v))
    ensures Total(w, v) == 0
    decreases v, 0
  {
    match v
    case VPair(x, y) => NoTickets(w, strict, x, t.fst, p); NoTickets(w, strict, y, t.snd, p);
    case VSome(x) => NoTickets(w, strict, x, t.elem, p);
    case VLeft(x) => NoTickets(w, strict, x, t.left, p);
    case VRight(x) => NoTickets(w, strict, x, t.right, p);
    case VList(vs) => NoTicketsSeq(w, strict, vs, t.elem, p);
    case VMap(m) => NoTicketsEntries(w, strict, m, t.key, t.val, p);
    case VLambda(c) => NoTicketsClosure(w, strict, c, t.arg, t.res);
    case _ =>
  }

  lemma {:induction false} NoTicketsSeq(w: Weight, strict: bool, vs: seq<Value>, t: Ty, p: Property)
    requires AllHave(strict, vs, t) && Prop(t, p) && (strict || forall i :: 0 <= i < |vs| ==> Written(vs[i]))
    ensures TotalSeq(w, vs) == 0
    decreases vs, 0
  {
    if vs != [] {
      NoTickets(w, strict, vs[0], t, p);
      assert AllHave(strict, vs[1..], t);
      NoTicketsSeq(w, strict, vs[1..], t, p);
    }
  }

  lemma {:induction false} NoTicketsEntries(w: Weight, strict: bool, m: seq<Entry>, k: Ty, t: Ty, p: Property)
    requires EntriesHave(strict, m, k, t) && Prop(k, Comparable) && Prop(t, p)
    requires strict || forall i :: 0 <= i < |m| ==> WrittenEntry(m[i])
    ensures TotalEntries(w, m) == 0
    decreases m, 0
  {
    if m != [] {
      EntriesTail(strict, m, k, t);
      NoTicketsEntry(w, strict, m[0], k, t, p);
      NoTicketsEntries(w, strict, m[1..], k, t, p);
    }
  }

  lemma {:induction false} NoTicketsEntry(w: Weight, strict: bool, e: Entry, k: Ty, t: Ty, p: Property)
    requires EntryHas(strict, e, k, t) && Prop(k, Comparable) && Prop(t, p) && (strict || WrittenEntry(e))
    ensures TotalEntry(w, e) == 0
    decreases e, 0
  {
    NoTickets(w, strict, e.key, k, Comparable);
    NoTickets(w, strict, e.val, t, p);
  }

  lemma {:induction false} NoTicketsClosure(w: Weight, strict: bool, c: Closure, a: Ty, b: Ty)
    requires ClosureHas(strict, c, a, b) && (strict || !c.Applied?)
    ensures TotalClosure(w, c) == 0
    decreases c, 0
  {
    match c
    case Plain(code) => NoTicketsCode(w, strict, code, [a]);
    case Recursive(code) => NoTicketsCode(w, strict, code, [a, TLambda(a, b)]);
    case Applied(t, x, inner) =>
      NoTickets(w, strict, x, t, Duplicable);
      NoTicketsClosure(w, strict, inner, TPair(t, a), b);
  }

  /** No ticket is written in a program that typechecks, under either rules. */
  lemma {:induction false} NoTicketsCode(w: Weight, strict: bool, code: seq<Instr>, tys: seq<Ty>)
    requires CheckSeq(strict, code, tys).Some?
    ensures TotalCode(w, code) == 0
    decreases code, 0
  {
    if code != [] {
      NoTicketsInstr(w, strict, code[0], tys);
      var r := Check(strict, code[0], tys).value;
      if r.Live? { NoTicketsCode(w, strict, code[1..], r.tys); }
    }
  }

  lemma {:induction false} NoTicketsInstr(w: Weight, strict: bool, i: Instr, tys: seq<Ty>)
    requires Check(strict, i, tys).Some?
    ensures TotalInstr(w, i) == 0
    decreases i, 1
  {
    if i.Simple? {
      NoTicketsOp(w, strict, i.op, tys);
    } else if i.Block? {
      NoTicketsCode(w, strict, i.body, tys);
    } else if i.Loop? {
      NoTicketsCode(w, strict, i.body, tys[1..]);
    } else if i.LoopLeft? {
      NoTicketsCode(w, strict, i.body, [tys[0].left] + tys[1..]);
    } else if i.Iter? || i.Map? {
      NoTicketsCode(w, strict, i.body, [ItemTy(i.over, tys[0]).value] + tys[1..]);
    } else if i.Dip? {
      NoTicketsCode(w, strict, i.body, tys[Height(i.height)..]);
    } else if IsBranch(i) {
      var (a, b) := BranchTys(i, tys).value;
      NoTicketsCode(w, strict, FirstCode(i), a);
      NoTicketsCode(w, strict, SecondCode(i), b);
    }
  }

  lemma {:induction false} NoTicketsOp(w: Weight, strict: bool, op: Op, tys: seq<Ty>)
    requires CheckOp(strict, op, tys).Some?
    ensures TotalOp(w, op) == 0
    decreases op, 0
  {
    if op.OnStack? && op.stackOp.Push? {
      NoTickets(w, strict, op.stackOp.value, op.stackOp.ty, Pushable);
    } else if op.OnLinear? && op.linearOp.MkLambda? {
      NoTicketsClosure(w, strict, op.linearOp.lambda, op.linearOp.arg, op.linearOp.res);
    }
  }

  // ---- maps ----

  lemma {:induction false} EntriesConsTotal(w: Weight, e: Entry, m: seq<Entry>)
    ensures TotalEntries(w, [e] + m) == TotalEntry(w, e) + TotalEntries(w, m)
  {
    assert ([e] + m)[1..] == m;
  }

  lemma {:induction false} FindTotal(w: Weight, m: seq<Entry>, key: Value)
    ensures Total(w, OptionValue(Find(m, key))) <= TotalEntries(w, m)
  {
    if m != [] && Cmp(key, m[0].key) > 0 { FindTotal(w, m[1..], key); }
  }

  lemma {:induction false} InsertTotal(w: Weight, m: seq<Entry>, key: Value, val: Value)
    ensures TotalEntries(w, Insert(m, key, val)) + Total(w, OptionValue(Find(m, key)))
            <= TotalEntries(w, m) + Total(w, key) + Total(w, val)
  {
    if m == [] || Cmp(key, m[0].key) < 0 {
      EntriesConsTotal(w, Entry(key, val), m);
    } else if Cmp(key, m[0].key) == 0 {
      EntriesConsTotal(w, Entry(m[0].key, val), m[1..]);
    } else {
      InsertTotal(w, m[1..], key, val);
      EntriesConsTotal(w, m[0], Insert(m[1..], key, val));
    }
  }

  lemma {:induction false} RemoveTotal(w: Weight, m: seq<Entry>, key: Value)
    ensures TotalEntries(w, Remove(m, key)) + Total(w, OptionValue(Find(m, key))) <= TotalEntries(w, m)
  {
    if m != [] && Cmp(key, m[0].key) > 0 {
      RemoveTotal(w, m[1..], key);
      EntriesConsTotal(w, m[0], Remove(m[1..], key));
    }
  }

  /** Updating a map and taking out the old value together hold no more than the map, the key and the new value. */
  lemma {:induction false} UpdatedTotal(w: Weight, m: seq<Entry>, key: Value, val: Value)
    ensures TotalEntries(w, Updated(m, key, val)) + Total(w, OptionValue(Find(m, key)))
            <= TotalEntries(w, m) + Total(w, key) + Total(w, val)
  {
    if val.VSome? { InsertTotal(w, m, key, val.inner); } else { RemoveTotal(w, m, key); }
  }

  // ---- combs ----

  lemma {:induction false} CombTotal(w: Weight, s: seq<Value>)
    requires s != []
    ensures Total(w, Comb(s)) == TotalSeq(w, s)
  {
    if |s| == 1 { TotalOne(w, s[0]); assert s == [s[0]]; } else { CombTotal(w, s[1..]); }
  }

  lemma {:induction false} UncombTotal(w: Weight, n: nat, v: Value)
    requires Uncomb(n, v).Some?
    ensures TotalSeq(w, Uncomb(n, v).value) == Total(w, v)
    decreases n
  {
    if n == 0 {
      TotalOne(w, v);
    } else {
      UncombTotal(w, n - 1, v.snd);
      TotalCons(w, v.fst, Uncomb(n - 1, v.snd).value);
    }
  }

  lemma {:induction false} NthTotal(w: Weight, n: nat, v: Value)
    requires NthField(n, v).Some?
    ensures Total(w, NthField(n, v).value) <= Total(w, v)
    decreases n
  {
    if n >= 2 { NthTotal(w, n - 2, v.snd); }
  }

  lemma {:induction false} WithNthTotal(w: Weight, n: nat, v: Value, x: Value)
    requires WithNthField(n, v, x).Some?
    ensures Total(w, WithNthField(n, v, x).value) <= Total(w, v) + Total(w, x)
    decreases n
  {
    if n >= 2 { WithNthTotal(w, n - 2, v.snd, x); }
  }

  // ---- single instructions ----

  /** What an effect leaves weighs no more than what it took and minted. */
  ghost predicate Conserves(w: Weight, s: seq<Value>, e: Effect)
    requires e.Fits(|s|)
  {
    e.after.Next? ==> TotalSeq(w, e.after.push) <= TotalSeq(w, s[..e.after.take]) + TotalMinted(w, e.after.minted)
  }

  /**
   * The weight that an instruction adds by copying: the value that DUP copies, the value that PUSH or LAMBDA takes from
   * the code, and the content that READ_TICKET and a successful SPLIT_TICKET write a second time.
   */
  function Copied(w: Weight, op: Op, s: seq<Value>): nat {
    match op
    case OnStack(Dup(h)) => if 1 <= Height(h) <= |s| then Total(w, s[Height(h) - 1]) else 0
    case OnStack(Push(_, v)) => Total(w, v)
    case OnLinear(MkLambda(_, _, c)) => TotalClosure(w, c)
    case OnLinear(ReadTicket) => if s != [] && s[0].VTicket? then Total(w, s[0].ticket.content) else 0
    case OnLinear(SplitTicket) =>
      if Splits(s) && Split(s[0].ticket, s[1].fst.n, s[1].snd.n).VSome? then Total(w, s[0].ticket.content) else 0
    case _ => 0
  }

  predicate Splits(s: seq<Value>) {
    |s| >= 2 && s[0].VTicket? && s[1].VPair? && s[1].fst.VNat? && s[1].snd.VNat?
  }

  /** The effect gains no more than the copies weigh, and it does gain if they weigh anything. */
  ghost predicate Ledger(w: Weight, s: seq<Value>, e: Effect, copied: nat)
    requires e.Fits(|s|)
  {
    e.after.Next? ==>
      var before := TotalSeq(w, s[..e.after.take]) + TotalMinted(w, e.after.minted);
      TotalSeq(w, e.after.push) <= before + copied && (copied > 0 ==> TotalSeq(w, e.after.push) > before)
  }

  lemma {:induction false} TopOne(w: Weight, s: seq<Value>)
    requires |s| >= 1
    ensures TotalSeq(w, s[..1]) == Total(w, s[0])
  {
    assert s[..1] == [s[0]];
    TotalOne(w, s[0]);
  }

  lemma {:induction false} TopTwo(w: Weight, s: seq<Value>)
    requires |s| >= 2
    ensures TotalSeq(w, s[..2]) == Total(w, s[0]) + Total(w, s[1])
  {
    assert s[..2] == [s[0], s[1]];
    TotalTwo(w, s[0], s[1]);
  }

  lemma {:induction false} TopThree(w: Weight, s: seq<Value>)
    requires |s| >= 3
    ensures TotalSeq(w, s[..3]) == Total(w, s[0]) + Total(w, s[1]) + Total(w, s[2])
  {
    assert s[..3] == [s[0]] + [s[1], s[2]];
    TotalCons(w, s[0], [s[1], s[2]]);
    TotalTwo(w, s[1], s[2]);
  }

  lemma {:induction false} DigTotal(w: Weight, n: nat, s: seq<Value>)
    requires 0 < n < |s|
    ensures TotalSeq(w, [s[n]] + s[..n]) == TotalSeq(w, s[..n + 1])
  {
    assert s[..n + 1] == s[..n] + [s[n]];
    TotalAppend(w, s[..n], [s[n]]);
    TotalAppend(w, [s[n]], s[..n]);
  }

  lemma {:induction false} DugTotal(w: Weight, n: nat, s: seq<Value>)
    requires 0 < n < |s|
    ensures TotalSeq(w, s[1..n + 1] + [s[0]]) == TotalSeq(w, s[..n + 1])
  {
    assert s[..n + 1] == [s[0]] + s[1..n + 1];
    TotalAppend(w, s[1..n + 1], [s[0]]);
    TotalAppend(w, [s[0]], s[1..n + 1]);
  }

  lemma {:induction false} StackLedger(w: Weight, op: StackOp, s: seq<Value>)
    ensures Ledger(w, s, StackEffect(op, s), Copied(w, OnStack(op), s))
  {
    if op.Dup? && 1 <= Height(op.height) <= |s| {
      TotalOne(w, s[Height(op.height) - 1]);
    } else if op.Dig? && 0 < op.depth < |s| {
      DigTotal(w, op.depth, s);
    } else if op.Dug? && 0 < op.depth < |s| {
      DugTotal(w, op.depth, s);
    } else if op.Swap? && |s| >= 2 {
      TopTwo(w, s);
      TotalTwo(w, s[1], s[0]);
    } else if op.Push? {
      TotalOne(w, op.value);
    } else if op.MkUnit? {
      TotalOne(w, VUnit);
    }
  }

  lemma {:induction false} PairConserves(w: Weight, op: PairOp, s: seq<Value>)
    ensures Conserves(w, s, PairEffect(op, s))
  {
    var e := PairEffect(op, s);
    if e.after.Next? {
      if op.PairN? {
        CombTotal(w, s[..op.n]);
        TotalOne(w, Comb(s[..op.n]));
      } else if op.UnpairN? {
        TopOne(w, s);
        UncombTotal(w, op.n - 1, s[0]);
      } else {
        CombConserves(w, op, s);
      }
    }
  }

  lemma {:induction false} CombConserves(w: Weight, op: PairOp, s: seq<Value>)
    requires !op.PairN? && !op.UnpairN? && PairEffect(op, s).after.Next?
    ensures Conserves(w, s, PairEffect(op, s))
  {
    TopOne(w, s);
    TotalOne(w, PairEffect(op, s).after.push[0]);
    if op.MkPair? || op.UpdateN? { TopTwo(w, s); }
    if op.Unpair? { TotalTwo(w, s[0].fst, s[0].snd); }
    if op.GetN? { NthTotal(w, op.n, s[0]); }
    if op.UpdateN? { WithNthTotal(w, op.n, s[1], s[0]); }
  }

  lemma {:induction false} NumConserves(w: Weight, op: NumOp, ctx: Context, s: seq<Value>)
    ensures Conserves(w, s, NumEffect(op, ctx, s))
  {
    var e := NumEffect(op, ctx, s);
    if e.after.Next? {
      TotalOne(w, e.after.push[0]);
      if e.after.push[0].VSome? { assert Total(w, e.after.push[0].inner) == 0; }
      assert Total(w, e.after.push[0]) == 0;
    }
  }

  lemma {:induction false} DataConserves(w: Weight, op: DataOp, s: seq<Value>)
    ensures Conserves(w, s, DataEffect(op, s))
  {
    var e := DataEffect(op, s);
    if e.after.Next? {
      if op.Mem? || op.Get? {
        TopTwo(w, s);
        TotalOne(w, e.after.push[0]);
        FindTotal(w, s[1].entries, s[0]);
      } else if op.Update? || op.GetAndUpdate? {
        UpdateConserves(w, op, s);
      } else {
        BuildConserves(w, op, s);
      }
    }
  }

  lemma {:induction false} UpdateConserves(w: Weight, op: DataOp, s: seq<Value>)
    requires (op.Update? || op.GetAndUpdate?) && DataEffect(op, s).after.Next?
    ensures Conserves(w, s, DataEffect(op, s))
  {
    hide Find, Updated;
    var m := Updated(s[2].entries, s[0], s[1]);
    TopThree(w, s);
    UpdatedTotal(w, s[2].entries, s[0], s[1]);
    TotalOne(w, VMap(m));
    TotalTwo(w, OptionValue(Find(s[2].entries, s[0])), VMap(m));
  }

  lemma {:induction false} BuildConserves(w: Weight, op: DataOp, s: seq<Value>)
    requires !op.Mem? && !op.Get? && !op.Update? && !op.GetAndUpdate? && DataEffect(op, s).after.Next?
    ensures Conserves(w, s, DataEffect(op, s))
  {
    TotalOne(w, DataEffect(op, s).after.push[0]);
    if op.Cons? {
      TopTwo(w, s);
      TotalCons(w, s[0], s[1].elems);
    } else if !op.MkNone? && !op.Nil? {
      TopOne(w, s);
    }
  }

  /** A successful split writes the content a second time and otherwise neither gains nor loses. */
  lemma {:induction false} SplitTotal(w: Weight, t: Ticket, l: nat, r: nat)
    requires Fair(w)
    ensures Split(t, l, r).VSome? ==> Total(w, Split(t, l, r)) == Total(w, VTicket(t)) + Total(w, t.content)
    ensures Split(t, l, r).VNone? ==> Total(w, Split(t, l, r)) == 0
  {
    assert Parts(t, l, r);
    if Split(t, l, r).VSome? {
      assert t.(amount := l + r) == t;
      var x, y, c := t.(amount := l), t.(amount := r), Total(w, t.content);
      assert Total(w, VTicket(x)) == w(x) + c && Total(w, VTicket(y)) == w(y) + c;
      assert Total(w, VPair(VTicket(x), VTicket(y))) == w(x) + c + w(y) + c;
    }
  }

  /** A join of one kind of ticket loses nothing but the content that is written once; others give None. */
  lemma {:induction false} JoinTotal(w: Weight, x: Ticket, y: Ticket)
    requires Fair(w)
    ensures Total(w, Join(x, y)) <= Total(w, VTicket(x)) + Total(w, VTicket(y))
    ensures x.ticketer == y.ticketer && x.content == y.content && x.amount > 0 && y.amount > 0 ==>
              Total(w, Join(x, y)) + Total(w, x.content) == Total(w, VTicket(x)) + Total(w, VTicket(y))
    ensures x.ticketer != y.ticketer || x.content != y.content ==> Total(w, Join(x, y)) == 0
  {
    assert Parts(x, x.amount, y.amount);
    if Join(x, y).VSome? {
      var z := x.(amount := x.amount + y.amount);
      assert x.(amount := x.amount) == x && x.(amount := y.amount) == y;
      assert Total(w, VTicket(z)) == w(z) + Total(w, x.content);
    }
  }

  lemma {:induction false} LinearLedger(w: Weight, op: LinearOp, ctx: Context, s: seq<Value>)
    requires Fair(w)
    ensures Ledger(w, s, LinearEffect(op, ctx, s), Copied(w, OnLinear(op), s))
  {
    var e := LinearEffect(op, ctx, s);
    if e.after.Next? {
      TotalOne(w, e.after.push[0]);
      if op.Apply? {
        TopTwo(w, s);
      } else if op.MkTicket? {
        MintLedger(w, ctx, s);
      } else if op.SplitTicket? {
        TopTwo(w, s);
        assert Total(w, s[1]) == 0;
        SplitTotal(w, s[0].ticket, s[1].fst.n, s[1].snd.n);
      } else if op.JoinTickets? {
        TopOne(w, s);
        JoinTotal(w, s[0].fst.ticket, s[0].snd.ticket);
      } else if op.ReadTicket? {
        ReadTotal(w, s[0].ticket);
      }
    }
  }

  lemma {:induction false} ReadTotal(w: Weight, t: Ticket)
    ensures Total(w, Unwrapped(t)) == Total(w, t.content)
  {
    assert Total(w, VPair(t.content, VNat(t.amount))) == Total(w, t.content);
  }

  lemma {:induction false} MintLedger(w: Weight, ctx: Context, s: seq<Value>)
    ensures Ledger(w, s, LinearEffect(MkTicket, ctx, s), 0)
  {
    var e := LinearEffect(MkTicket, ctx, s);
    if e.after.Next? {
      TotalOne(w, e.after.push[0]);
      TopTwo(w, s);
      if e.after.push[0].VSome? {
        var t := e.after.push[0].inner.ticket;
        assert e.after.minted == [t] && [t][..0] == [];
        assert Total(w, VTicket(t)) == w(t) + Total(w, s[0]);
      }
    }
  }

  /** For every instruction and every stack: what it adds is accounted for by minting and copying. */
  lemma {:induction false} OpLedger(w: Weight, op: Op, ctx: Context, s: seq<Value>)
    requires Fair(w)
    ensures Ledger(w, s, OpEffect(op, ctx, s), Copied(w, op, s))
  {
    match op
    case OnStack(o) => StackLedger(w, o, s);
    case OnPair(o) => PairConserves(w, o, s);
    case OnNum(o) => NumConserves(w, o, ctx, s);
    case OnData(o) => DataConserves(w, o, s);
    case OnLinear(o) => LinearLedger(w, o, ctx, s);
  }

  /** An instruction that goes on conserves the weight if and only if it copies none of it. */
  lemma {:induction false} ConservesExactly(w: Weight, op: Op, ctx: Context, s: seq<Value>)
    requires Fair(w) && OpEffect(op, ctx, s).after.Next?
    ensures Conserves(w, s, OpEffect(op, ctx, s)) <==> Copied(w, op, s) == 0
  {
    OpLedger(w, op, ctx, s);
  }

  /** What is copied lies on the stack or is written in the instruction. */
  lemma {:induction false} CopiedFrom(w: Weight, op: Op, s: seq<Value>)
    ensures Copied(w, op, s) <= TotalSeq(w, s) + TotalOp(w, op)
  {
    if op.OnStack? && op.stackOp.Dup? && 1 <= Height(op.stackOp.height) <= |s| {
      ElementTotal(w, s, Height(op.stackOp.height) - 1);
    } else if op.OnLinear? && s != [] {
      ElementTotal(w, s, 0);
    }
  }

  lemma {:induction false} ElementTotal(w: Weight, s: seq<Value>, n: nat)
    requires n < |s|
    ensures Total(w, s[n]) <= TotalSeq(w, s)
  {
    if n > 0 { ElementTotal(w, s[1..], n - 1); }
  }

  /** Under the strict rules nothing with tickets is copied. */
  lemma {:induction false} NothingCopied(w: Weight, op: Op, s: seq<Value>, tys: seq<Ty>)
    requires StackHas(true, s, tys) && CheckOp(true, op, tys).Some?
    ensures Copied(w, op, s) == 0
  {
    if op.OnStack? && op.stackOp.Dup? {
      var n := Height(op.stackOp.height) - 1;
      NoTickets(w, true, s[n], tys[n], Duplicable);
    } else if (op.OnStack? && op.stackOp.Push?) || (op.OnLinear? && op.linearOp.MkLambda?) {
      NoTicketsOp(w, true, op, tys);
    } else if op.OnLinear? && (op.linearOp.ReadTicket? || op.linearOp.SplitTicket?) {
      ContentTotal(w, s[0], tys[0]);
    }
  }

  lemma {:induction false} ContentTotal(w: Weight, v: Value, t: Ty)
    requires HasType(true, v, t) && v.VTicket?
    ensures Total(w, v.ticket.content) == 0
  {
    NoTickets(w, true, v.ticket.content, t.content, Comparable);
  }
}
