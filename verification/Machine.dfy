/**
 * The interpreter as the source runs it: a mutable stack, a gas counter, and loops.  Every method is proved against
 * the function it implements; a run that would stop abruptly is excluded by the precondition.
 */
module Machines {
  import opened Syntax
  import opened Costs
  import opened Ops
  import opened Interpreter
  import opened Stacks

  datatype Result = Ok | Err(error: Error)

  /** A right comb from its heads and its tail. */
  function Onto(heads: seq<Value>, tail: Value): Value {
    if heads == [] then tail else VPair(heads[0], Onto(heads[1..], tail))
  }

  lemma {:induction false} OntoSnoc(heads: seq<Value>, x: Value, tail: Value)
    ensures Onto(heads + [x], tail) == Onto(heads, VPair(x, tail))
  {
    if heads == [] {
      assert [] + [x] == [x] && [x][1..] == [];
    } else {
      OntoSnoc(heads[1..], x, tail);
      assert (heads + [x])[1..] == heads[1..] + [x];
    }
  }

  class Machine {
    const ctx: Context
    /** None once the gas is exhausted. */
    var milligas: Option<nat>
    /** The tickets made so far. */
    ghost var minted: seq<Ticket>
    /** The number of loop turns and EXECs so far. */
    ghost var ticks: nat

    constructor (ctx: Context, limit: nat)
      ensures this.ctx == ctx && milligas == Some(limit) && minted == [] && ticks == 0
    {
      this.ctx := ctx;
      milligas := Some(limit);
      minted := [];
      ticks := 0;
    }

    ghost function Gas(): nat
      reads this
    {
      if milligas.Some? then milligas.value else 0
    }

    /** A price that does not fit a machine word is refused before it reaches the gas; one that is too high marks
        the gas as exhausted. */
    method Consume(cost: nat) returns (ok: bool)
      requires milligas.Some?
      modifies this`milligas
      ensures ok == Affordable(cost, old(Gas()))
      ensures milligas == if ok then Some(old(Gas()) - cost) else if cost > MAX_U32 then old(milligas) else None
    {
      if cost > MAX_U32 { return false; }
      ok := cost <= milligas.value;
      milligas := if ok then Some(milligas.value - cost) else None;
    }

    /** The effect can be carried out: it does not stop abruptly once it is paid for. */
    ghost predicate Runs(e: Effect)
      reads this
    {
      milligas.Some? && !(Affordable(e.cost, Gas()) && e.after.Halt?)
    }

    /** The stack, the gas and the log are as the effect says, starting from s, gas and log. */
    ghost predicate Carried(e: Effect, s: seq<Value>, gas: nat, log: seq<Ticket>, stack: Stack<Value>, r: Result)
      requires e.Fits(|s|)
      reads this, stack
    {
      if !Affordable(e.cost, gas) then r == Err(OutOfGas)
      else
        match e.after
        case Next(take, push, made) =>
          && r == Ok && milligas == Some(gas - e.cost)
          && stack.View() == push + s[take..] && minted == log + made
        case Raise(error) => r == Err(error)
        case Halt(_) => false
    }

    method RunDig(n: nat, stack: Stack<Value>) returns (r: Result)
      requires Runs(StackEffect(Dig(n), stack.View()))
      modifies this`milligas, stack
      ensures Carried(StackEffect(Dig(n), old(stack.View())), old(stack.View()), old(Gas()), old(minted), stack, r)
    {
      ghost var s := stack.View();
      var ok := Consume(DigCost(n));
      if !ok { return Err(OutOfGas); }
      if n > 0 {
        var x := stack.Remove(n);
        stack.Push(x);
        assert [s[n]] + (s[..n] + s[n + 1..]) == ([s[n]] + s[..n]) + s[n + 1..];
      }
      return Ok;
    }

    method RunDug(n: nat, stack: Stack<Value>) returns (r: Result)
      requires Runs(StackEffect(Dug(n), stack.View()))
      modifies this`milligas, stack
      ensures Carried(StackEffect(Dug(n), old(stack.View())), old(stack.View()), old(Gas()), old(minted), stack, r)
    {
      ghost var s := stack.View();
      var ok := Consume(DugCost(n));
      if !ok { return Err(OutOfGas); }
      if n > 0 {
        var x := stack.Pop();
        stack.Insert(n, x);
        assert s[1..][..n] == s[1..n + 1] && s[1..][n..] == s[n + 1..];
      }
      return Ok;
    }

    method RunStackOp(op: StackOp, stack: Stack<Value>) returns (r: Result)
      requires Runs(StackEffect(op, stack.View()))
      modifies this`milligas, stack
      ensures Carried(StackEffect(op, old(stack.View())), old(stack.View()), old(Gas()), old(minted), stack, r)
    {
      match op
      case Drop(h) =>
        var ok := Consume(DropCost(h));
        if !ok { return Err(OutOfGas); }
        stack.DropTop(Height(h));
        return Ok;
      case Dup(h) =>
        var ok := Consume(DupCost(h));
        if !ok { return Err(OutOfGas); }
        var x := stack.Get(Height(h) - 1);
        stack.Push(x);
        return Ok;
      case Dig(n) => r := RunDig(n, stack);
      case Dug(n) => r := RunDug(n, stack);
      case Swap =>
        var ok := Consume(10);
        if !ok { return Err(OutOfGas); }
        stack.Swap(0, 1);
        return Ok;
      case Push(_, v) =>
        var ok := Consume(10);
        if !ok { return Err(OutOfGas); }
        stack.Push(v);
        return Ok;
      case MkUnit =>
        var ok := Consume(10);
        if !ok { return Err(OutOfGas); }
        stack.Push(VUnit);
        return Ok;
      case Failwith(ty) =>
        var x := stack.Pop();
        return Err(FailedWith(ty, x));
      case Never =>
        assert false;
    }

    method RunPairOp(op: PairOp, stack: Stack<Value>) returns (r: Result)
      requires Runs(PairEffect(op, stack.View()))
      modifies this`milligas, stack
      ensures Carried(PairEffect(op, old(stack.View())), old(stack.View()), old(Gas()), old(minted), stack, r)
    {
      ghost var s := stack.View();
      match op
      case Car =>
        var ok := Consume(10);
        if !ok { return Err(OutOfGas); }
        var p := stack.Pop();
        stack.Push(p.fst);
        return Ok;
      case Cdr =>
        var ok := Consume(10);
        if !ok { return Err(OutOfGas); }
        var p := stack.Pop();
        stack.Push(p.snd);
        return Ok;
      case MkPair =>
        var ok := Consume(10);
        if !ok { return Err(OutOfGas); }
        var x := stack.Pop();
        var y := stack.Pop();
        stack.Push(VPair(x, y));
        assert s[1..][1..] == s[2..];
        return Ok;
      case Unpair =>
        var ok := Consume(10);
        if !ok { return Err(OutOfGas); }
        var p := stack.Pop();
        stack.Push(p.snd);
        stack.Push(p.fst);
        assert [s[0].fst] + ([s[0].snd] + s[1..]) == [s[0].fst, s[0].snd] + s[1..];
        return Ok;
      case PairN(n) => r := RunPairN(n, stack);
      case UnpairN(n) => r := RunUnpairN(n, stack);
      case GetN(n) => r := RunGetN(n, stack);
      case UpdateN(n) => r := RunUpdateN(n, stack);
    }

    /** The drained elements are folded from the bottom into a right comb. */
    method RunPairN(n: nat, stack: Stack<Value>) returns (r: Result)
      requires Runs(PairEffect(PairN(n), stack.View()))
      modifies this`milligas, stack
      ensures Carried(PairEffect(PairN(n), old(stack.View())), old(stack.View()), old(Gas()), old(minted), stack, r)
    {
      var ok := Consume(PairNCost(n));
      if !ok { return Err(OutOfGas); }
      var items := stack.DrainTop(n);
      var i := n - 1;
      var acc := items[i];
      while i > 0
        invariant 0 <= i < n == |items| && acc == Comb(items[i..])
      {
        i := i - 1;
        assert items[i..][1..] == items[i + 1..];
        acc := VPair(items[i], acc);
      }
      assert items[0..] == items;
      stack.Push(acc);
      return Ok;
    }

    /** Pushes the fields of a comb, the last one first. */
    method Fill(n: nat, stack: Stack<Value>, p: Value)
      requires Uncomb(n, p).Some?
      modifies stack
      ensures stack.View() == Uncomb(n, p).value + old(stack.View())
      decreases n
    {
      if n == 0 {
        stack.Push(p);
      } else {
        Fill(n - 1, stack, p.snd);
        stack.Push(p.fst);
      }
    }

    method RunUnpairN(n: nat, stack: Stack<Value>) returns (r: Result)
      requires Runs(PairEffect(UnpairN(n), stack.View()))
      modifies this`milligas, stack
      ensures Carried(PairEffect(UnpairN(n), old(stack.View())), old(stack.View()), old(Gas()), old(minted), stack, r)
    {
      var ok := Consume(UnpairNCost(n));
      if !ok { return Err(OutOfGas); }
      var p := stack.Pop();
      Fill(n - 1, stack, p);
      return Ok;
    }

    /** Walks down the tails of a comb. */
    method NthFieldOf(n: nat, v: Value) returns (x: Value)
      requires NthField(n, v).Some?
      ensures NthField(n, v) == Some(x)
    {
      var m, w := n, v;
      while m >= 2
        invariant NthField(m, w) == NthField(n, v)
      {
        m, w := m - 2, w.snd;
      }
      x := if m == 0 then w else w.fst;
    }

    method RunGetN(n: nat, stack: Stack<Value>) returns (r: Result)
      requires Runs(PairEffect(GetN(n), stack.View()))
      modifies this`milligas, stack
      ensures Carried(PairEffect(GetN(n), old(stack.View())), old(stack.View()), old(Gas()), old(minted), stack, r)
    {
      var ok := Consume(GetNCost(n));
      if !ok { return Err(OutOfGas); }
      var v := stack.Get(0);
      var x := NthFieldOf(n, v);
      stack.Set(0, x);
      return Ok;
    }

    method RunUpdateN(n: nat, stack: Stack<Value>) returns (r: Result)
      requires Runs(PairEffect(UpdateN(n), stack.View()))
      modifies this`milligas, stack
      ensures Carried(PairEffect(UpdateN(n), old(stack.View())), old(stack.View()), old(Gas()), old(minted), stack, r)
    {
      var ok := Consume(UpdateNCost(n));
      if !ok { return Err(OutOfGas); }
      ghost var s := stack.View();
      var x := stack.Pop();
      var v := stack.Get(0);
      var y := WriteNthField(n, v, x);
      stack.Set(0, y);
      assert s[1..][0 := y] == [y] + s[2..];
      return Ok;
    }

    /** The walk to the field, the write, and the pairs passed on the way around the new field. */
    method WriteNthField(n: nat, v: Value, x: Value) returns (y: Value)
      requires WithNthField(n, v, x).Some?
      ensures WithNthField(n, v, x) == Some(y)
    {
      var m, w, heads := n, v, [];
      while m >= 2
        invariant WithNthField(m, w, x).Some?
        invariant WithNthField(n, v, x) == Some(Onto(heads, WithNthField(m, w, x).value))
      {
        OntoSnoc(heads, w.fst, WithNthField(m - 2, w.snd, x).value);
        heads := heads + [w.fst];
        m, w := m - 2, w.snd;
      }
      y := if m == 0 then x else VPair(x, w.snd);
      while heads != []
        invariant WithNthField(n, v, x) == Some(Onto(heads, y))
      {
        var last := |heads| - 1;
        OntoSnoc(heads[..last], heads[last], y);
        assert heads[..last] + [heads[last]] == heads;
        y, heads := VPair(heads[last], y), heads[..last];
      }
    }

    method RunAddMul(op: NumOp, stack: Stack<Value>) returns (r: Result)
      requires op.Add? || op.Mul?
      requires Runs(NumEffect(op, ctx, stack.View()))
      modifies this`milligas, stack
      ensures Carried(NumEffect(op, ctx, old(stack.View())), old(stack.View()), old(Gas()), old(minted), stack, r)
    {
      ghost var s := stack.View();
      var a := stack.Pop();
      var b := stack.Pop();
      var x, y := Number(a), Number(b);
      var ok := Consume(if op.Add? then AddCost(x, y) else MulCost(x, y));
      if !ok { return Err(OutOfGas); }
      stack.Push(NumberValue(op.operands, if op.Add? then x + y else x * y));
      assert s[1..][1..] == s[2..];
      return Ok;
    }

    method RunAddMutez(stack: Stack<Value>) returns (r: Result)
      requires Runs(NumEffect(AddMutez, ctx, stack.View()))
      modifies this`milligas, stack
      ensures Carried(NumEffect(AddMutez, ctx, old(stack.View())), old(stack.View()), old(Gas()), old(minted), stack, r)
    {
      ghost var s := stack.View();
      var a := stack.Pop();
      var b := stack.Pop();
      var ok := Consume(20);
      if !ok { return Err(OutOfGas); }
      var sum := a.mutez + b.mutez;
      if sum < -MAX_MUTEZ - 1 || sum > MAX_MUTEZ { return Err(MutezOverflow); }
      stack.Push(VMutez(sum));
      assert s[1..][1..] == s[2..];
      return Ok;
    }

    method RunSubMutez(stack: Stack<Value>) returns (r: Result)
      requires Runs(NumEffect(SubMutez, ctx, stack.View()))
      modifies this`milligas, stack
      ensures Carried(NumEffect(SubMutez, ctx, old(stack.View())), old(stack.View()), old(Gas()), old(minted), stack, r)
    {
      ghost var s := stack.View();
      var ok := Consume(15);
      if !ok { return Err(OutOfGas); }
      var a := stack.Pop();
      var b := stack.Pop();
      if a.mutez >= b.mutez {
        stack.Push(VSome(VMutez(a.mutez - b.mutez)));
      } else {
        stack.Push(VNone);
      }
      assert s[1..][1..] == s[2..];
      return Ok;
    }

    method RunMulMutez(op: NumOp, stack: Stack<Value>) returns (r: Result)
      requires op.MulMutezNat? || op.MulNatMutez?
      requires Runs(NumEffect(op, ctx, stack.View()))
      modifies this`milligas, stack
      ensures Carried(NumEffect(op, ctx, old(stack.View())), old(stack.View()), old(Gas()), old(minted), stack, r)
    {
      ghost var s := stack.View();
      var ok := Consume(50);
      if !ok { return Err(OutOfGas); }
      var a := stack.Pop();
      if op.MulNatMutez? && a.n > MAX_MUTEZ { return Err(MutezOverflow); }
      var b := stack.Pop();
      if op.MulMutezNat? && b.n > MAX_MUTEZ { return Err(MutezOverflow); }
      var product := if op.MulMutezNat? then a.mutez * b.n else a.n * b.mutez;
      if product < -MAX_MUTEZ - 1 || product > MAX_MUTEZ { return Err(MutezOverflow); }
      stack.Push(VMutez(product));
      assert s[1..][1..] == s[2..];
      return Ok;
    }

    method RunUnary(op: NumOp, stack: Stack<Value>) returns (r: Result)
      requires op.Neg? || op.Abs? || op.IsNat? || op.IntOfNat?
      requires Runs(NumEffect(op, ctx, stack.View()))
      modifies this`milligas, stack
      ensures Carried(NumEffect(op, ctx, old(stack.View())), old(stack.View()), old(Gas()), old(minted), stack, r)
    {
      var v := stack.Pop();
      var x := Number(v);
      var ok := Consume(
        if op.Neg? then 25 + ByteSize(x) / 2 else if op.Abs? then 20 + ByteSize(x) / 2 else 10);
      if !ok { return Err(OutOfGas); }
      if op.Neg? {
        stack.Push(VInt(-x));
      } else if op.Abs? {
        stack.Push(VNat(if x < 0 then -x else x));
      } else if op.IsNat? {
        stack.Push(if x >= 0 then VSome(VNat(x)) else VNone);
      } else {
        stack.Push(VInt(x));
      }
      return Ok;
    }

    method RunLogic(op: NumOp, stack: Stack<Value>) returns (r: Result)
      requires op.Logic? || op.NotBool? || op.Test?
      requires Runs(NumEffect(op, ctx, stack.View()))
      modifies this`milligas, stack
      ensures Carried(NumEffect(op, ctx, old(stack.View())), old(stack.View()), old(Gas()), old(minted), stack, r)
    {
      ghost var s := stack.View();
      if op.Logic? {
        var a := stack.Pop();
        var b := stack.Get(0);
        var ok := Consume(if op.connective.Xor? then 15 else 10);
        if !ok { return Err(OutOfGas); }
        stack.Set(0, VBool(Connect(op.connective, a.b, b.b)));
        assert s[1..][0 := VBool(Connect(op.connective, a.b, b.b))]
            == [VBool(Connect(op.connective, a.b, b.b))] + s[2..];
      } else if op.NotBool? {
        var a := stack.Get(0);
        var ok := Consume(10);
        if !ok { return Err(OutOfGas); }
        stack.Set(0, VBool(!a.b));
      } else {
        var ok := Consume(10);
        if !ok { return Err(OutOfGas); }
        var a := stack.Pop();
        stack.Push(VBool(Holds(op.relation, a.i)));
      }
      return Ok;
    }

    method RunCompare(stack: Stack<Value>) returns (r: Result)
      requires Runs(NumEffect(Compare, ctx, stack.View()))
      modifies this`milligas, stack
      ensures Carried(NumEffect(Compare, ctx, old(stack.View())), old(stack.View()), old(Gas()), old(minted), stack, r)
    {
      ghost var s := stack.View();
      var a := stack.Pop();
      var b := stack.Pop();
      var ok := Consume(CompareCost(a, b).value);
      if !ok { return Err(OutOfGas); }
      stack.Push(VInt(Cmp(a, b)));
      assert s[1..][1..] == s[2..];
      return Ok;
    }

    method RunNumOp(op: NumOp, stack: Stack<Value>) returns (r: Result)
      requires Runs(NumEffect(op, ctx, stack.View()))
      modifies this`milligas, stack
      ensures Carried(NumEffect(op, ctx, old(stack.View())), old(stack.View()), old(Gas()), old(minted), stack, r)
    {
      if op.Add? || op.Mul? {
        r := RunAddMul(op, stack);
      } else if op.AddMutez? {
        r := RunAddMutez(stack);
      } else if op.SubMutez? {
        r := RunSubMutez(stack);
      } else if op.MulMutezNat? || op.MulNatMutez? {
        r := RunMulMutez(op, stack);
      } else if op.Neg? || op.Abs? || op.IsNat? || op.IntOfNat? {
        r := RunUnary(op, stack);
      } else if op.Logic? || op.NotBool? || op.Test? {
        r := RunLogic(op, stack);
      } else if op.Compare? {
        r := RunCompare(stack);
      } else {
        var ok := Consume(10);
        if !ok { return Err(OutOfGas); }
        stack.Push(VMutez(if op.Amount? then ctx.amount else ctx.balance));
        return Ok;
      }
    }

    method RunBuild(op: DataOp, stack: Stack<Value>) returns (r: Result)
      requires op.MkSome? || op.MkLeft? || op.MkRight? || op.MkNone? || op.Nil?
      requires Runs(DataEffect(op, stack.View()))
      modifies this`milligas, stack
      ensures Carried(DataEffect(op, old(stack.View())), old(stack.View()), old(Gas()), old(minted), stack, r)
    {
      var ok := Consume(10);
      if !ok { return Err(OutOfGas); }
      if op.MkNone? {
        stack.Push(VNone);
      } else if op.Nil? {
        stack.Push(VList([]));
      } else {
        var v := stack.Pop();
        stack.Push(if op.MkSome? then VSome(v) else if op.MkLeft? then VLeft(v) else VRight(v));
      }
      return Ok;
    }

    method RunList(op: DataOp, stack: Stack<Value>) returns (r: Result)
      requires op.Cons? || op.SizeList? || op.SizeMap?
      requires Runs(DataEffect(op, stack.View()))
      modifies this`milligas, stack
      ensures Carried(DataEffect(op, old(stack.View())), old(stack.View()), old(Gas()), old(minted), stack, r)
    {
      ghost var s := stack.View();
      if op.Cons? {
        var ok := Consume(15);
        if !ok { return Err(OutOfGas); }
        var x := stack.Pop();
        var l := stack.Pop();
        stack.Push(VList([x] + l.elems));
        assert s[1..][1..] == s[2..];
      } else {
        var v := stack.Pop();
        var ok := Consume(10);
        if !ok { return Err(OutOfGas); }
        stack.Push(VNat(if op.SizeList? then |v.elems| else |v.entries|));
      }
      return Ok;
    }

    method RunLookup(op: DataOp, stack: Stack<Value>) returns (r: Result)
      requires op.Mem? || op.Get?
      requires Runs(DataEffect(op, stack.View()))
      modifies this`milligas, stack
      ensures Carried(DataEffect(op, old(stack.View())), old(stack.View()), old(Gas()), old(minted), stack, r)
    {
      ghost var s := stack.View();
      var key := stack.Pop();
      var m := stack.Pop();
      var ok := Consume(MapCost(1, key, m.entries).value);
      if !ok { return Err(OutOfGas); }
      var found := Find(m.entries, key);
      stack.Push(if op.Mem? then VBool(found.Some?) else OptionValue(found));
      assert s[1..][1..] == s[2..];
      return Ok;
    }

    method RunUpdate(op: DataOp, stack: Stack<Value>) returns (r: Result)
      requires op.Update? || op.GetAndUpdate?
      requires Runs(DataEffect(op, stack.View()))
      modifies this`milligas, stack
      ensures Carried(DataEffect(op, old(stack.View())), old(stack.View()), old(Gas()), old(minted), stack, r)
    {
      ghost var s := stack.View();
      var key := stack.Pop();
      var val := stack.Pop();
      var m := stack.Get(0);
      var ok := Consume(MapCost(if op.Update? then 2 else 3, key, m.entries).value);
      if !ok { return Err(OutOfGas); }
      var next := VMap(Updated(m.entries, key, val));
      stack.Set(0, next);
      assert s[1..][1..][0 := next] == [next] + s[3..];
      if op.GetAndUpdate? {
        var found := OptionValue(Find(m.entries, key));
        stack.Push(found);
        assert [found] + ([next] + s[3..]) == [found, next] + s[3..];
      }
      return Ok;
    }

    method RunDataOp(op: DataOp, stack: Stack<Value>) returns (r: Result)
      requires Runs(DataEffect(op, stack.View()))
      modifies this`milligas, stack
      ensures Carried(DataEffect(op, old(stack.View())), old(stack.View()), old(Gas()), old(minted), stack, r)
    {
      if op.Mem? || op.Get? {
        r := RunLookup(op, stack);
      } else if op.Update? || op.GetAndUpdate? {
        r := RunUpdate(op, stack);
      } else if op.Cons? || op.SizeList? || op.SizeMap? {
        r := RunList(op, stack);
      } else {
        r := RunBuild(op, stack);
      }
    }

    method RunLambda(op: LinearOp, stack: Stack<Value>) returns (r: Result)
      requires op.MkLambda? || op.Apply?
      requires Runs(LinearEffect(op, ctx, stack.View()))
      modifies this`milligas, stack
      ensures Carried(LinearEffect(op, ctx, old(stack.View())), old(stack.View()), old(Gas()), old(minted), stack, r)
    {
      ghost var s := stack.View();
      if op.MkLambda? {
        var ok := Consume(10);
        if !ok { return Err(OutOfGas); }
        stack.Push(VLambda(op.lambda));
      } else {
        var x := stack.Pop();
        var f := stack.Pop();
        var ok := Consume(140);
        if !ok { return Err(OutOfGas); }
        stack.Push(VLambda(Applied(op.argTy, x, f.closure)));
        assert s[1..][1..] == s[2..];
      }
      return Ok;
    }

    method RunTicket(stack: Stack<Value>) returns (r: Result)
      requires Runs(LinearEffect(MkTicket, ctx, stack.View()))
      modifies this`milligas, this`minted, stack
      ensures Carried(LinearEffect(MkTicket, ctx, old(stack.View())), old(stack.View()), old(Gas()), old(minted),
                      stack, r)
    {
      ghost var s := stack.View();
      var content := stack.Pop();
      var amount := stack.Pop();
      assert s[1..][1..] == s[2..];
      var ok := Consume(10);
      if !ok { return Err(OutOfGas); }
      if amount.n == 0 {
        stack.Push(VNone);
      } else {
        var t := Ticket(ctx.self, content, amount.n);
        stack.Push(VSome(VTicket(t)));
        minted := minted + [t];
      }
      return Ok;
    }

    method RunTicketOp(op: LinearOp, stack: Stack<Value>) returns (r: Result)
      requires op.ReadTicket? || op.SplitTicket? || op.JoinTickets?
      requires Runs(LinearEffect(op, ctx, stack.View()))
      modifies this`milligas, stack
      ensures Carried(LinearEffect(op, ctx, old(stack.View())), old(stack.View()), old(Gas()), old(minted), stack, r)
    {
      ghost var s := stack.View();
      if op.ReadTicket? {
        var ok := Consume(10);
        if !ok { return Err(OutOfGas); }
        var v := stack.Get(0);
        stack.Push(Unwrapped(v.ticket));
      } else if op.SplitTicket? {
        var v := stack.Pop();
        var amounts := stack.Pop();
        var left, right := amounts.fst.n, amounts.snd.n;
        var ok := Consume(52);
        if !ok { return Err(OutOfGas); }
        if left + right == v.ticket.amount && left > 0 && right > 0 {
          stack.Push(VSome(VPair(VTicket(v.ticket.(amount := left)), VTicket(v.ticket.(amount := right)))));
        } else {
          stack.Push(VNone);
        }
        assert s[1..][1..] == s[2..];
      } else {
        var v := stack.Pop();
        var x, y := v.fst.ticket, v.snd.ticket;
        var ok := Consume(JoinCost(x, y).value);
        if !ok { return Err(OutOfGas); }
        if x.content == y.content && x.ticketer == y.ticketer {
          stack.Push(VSome(VTicket(x.(amount := x.amount + y.amount))));
        } else {
          stack.Push(VNone);
        }
      }
      return Ok;
    }

    method RunLinearOp(op: LinearOp, stack: Stack<Value>) returns (r: Result)
      requires Runs(LinearEffect(op, ctx, stack.View()))
      modifies this`milligas, this`minted, stack
      ensures Carried(LinearEffect(op, ctx, old(stack.View())), old(stack.View()), old(Gas()), old(minted), stack, r)
    {
      if op.MkLambda? || op.Apply? {
        r := RunLambda(op, stack);
      } else if op.MkTicket? {
        r := RunTicket(stack);
      } else {
        r := RunTicketOp(op, stack);
      }
    }

    /** One instruction without nested code. */
    method RunSimple(op: Op, stack: Stack<Value>) returns (r: Result)
      requires Runs(OpEffect(op, ctx, stack.View()))
      modifies this`milligas, this`minted, stack
      ensures Carried(OpEffect(op, ctx, old(stack.View())), old(stack.View()), old(Gas()), old(minted), stack, r)
    {
      match op
      case OnStack(o) => r := RunStackOp(o, stack);
      case OnPair(o) => r := RunPairOp(o, stack);
      case OnNum(o) => r := RunNumOp(o, stack);
      case OnData(o) => r := RunDataOp(o, stack);
      case OnLinear(o) => r := RunLinearOp(o, stack);
    }
  }
}
