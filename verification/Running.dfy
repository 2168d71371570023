/**
 * Code sequences, conditionals, loops, DIP, MAP, ITER and EXEC on the machine.  Each method gives the outcome of the
 * interpreter function, and counts loop turns and EXECs: ten milligas are spent for each of them.
 */
module Running {
  import opened Syntax
  import opened Costs
  import opened Ops
  import opened Interpreter
  import opened Stacks
  import opened Machines

  ghost function Current(m: Machine, stack: Stack<Value>): State
    reads m, stack
  {
    State(stack.View(), m.Gas(), m.minted)
  }

  ghost predicate Agrees(o: Outcome, m: Machine, stack: Stack<Value>, r: Result)
    reads m, stack
  {
    match o
    case Done(st) => r == Ok && m.milligas.Some? && Current(m, stack) == st
    case Failed(error) => r == Err(error)
    case Panicked(_) => false
  }

  /** Every tick since the start has been paid for with ten milligas. */
  ghost predicate Paid(m: Machine, ticks: nat, gas: nat, r: Result)
    reads m
  {
    m.ticks >= ticks && 10 * (m.ticks - ticks) + (if r.Ok? then m.Gas() else 0) <= gas
  }

  method InterpretSeq(m: Machine, code: seq<Instr>, stack: Stack<Value>) returns (r: Result)
    requires m.milligas.Some? && !InterpSeq(m.ctx, code, Current(m, stack)).Panicked?
    modifies m, stack
    ensures Agrees(InterpSeq(m.ctx, code, old(Current(m, stack))), m, stack, r)
    ensures Paid(m, old(m.ticks), old(m.Gas()), r)
    decreases m.Gas(), code, 0
  {
    ghost var o := InterpSeq(m.ctx, code, Current(m, stack));
    var i := 0;
    while i < |code|
      invariant 0 <= i <= |code| && m.milligas.Some?
      invariant InterpSeq(m.ctx, code[i..], Current(m, stack)) == o
      invariant Paid(m, old(m.ticks), old(m.Gas()), Ok)
    {
      assert code[i..][1..] == code[i + 1..];
      r := Interpret(m, code[i], stack);
      if r.Err? { return; }
      i := i + 1;
    }
    var ok := m.Consume(INTERPRET_RET);
    return if ok then Ok else Err(OutOfGas);
  }

  method Interpret(m: Machine, i: Instr, stack: Stack<Value>) returns (r: Result)
    requires m.milligas.Some? && !Interp(m.ctx, i, Current(m, stack)).Panicked?
    modifies m, stack
    ensures Agrees(Interp(m.ctx, i, old(Current(m, stack))), m, stack, r)
    ensures Paid(m, old(m.ticks), old(m.Gas()), r)
    decreases m.Gas(), i, 1
  {
    if i.Simple? {
      r := m.RunSimple(i.op, stack);
    } else if i.Block? {
      r := InterpretSeq(m, i.body, stack);
    } else if i.Loop? || i.LoopLeft? {
      var ok := m.Consume(STEP);
      if !ok { return Err(OutOfGas); }
      r := RunLoop(m, i.LoopLeft?, i.body, stack);
    } else if i.Iter? {
      r := RunIter(m, i.over, i.body, stack);
    } else if i.Map? {
      r := RunMapInstr(m, i.over, i.body, stack);
    } else if i.Dip? {
      r := RunDipInstr(m, i.height, i.body, stack);
    } else if i.Exec? {
      r := RunExec(m, stack);
    } else {
      r := RunBranch(m, i, stack);
    }
  }

  /** IF, IF_NONE, IF_CONS and IF_LEFT. */
  method RunBranch(m: Machine, i: Instr, stack: Stack<Value>) returns (r: Result)
    requires IsBranch(i)
    requires m.milligas.Some? && !Interp(m.ctx, i, Current(m, stack)).Panicked?
    modifies m, stack
    ensures Agrees(Interp(m.ctx, i, old(Current(m, stack))), m, stack, r)
    ensures Paid(m, old(m.ticks), old(m.Gas()), r)
    decreases m.Gas(), i, 0
  {
    ghost var s := stack.View();
    var ok := m.Consume(STEP);
    if !ok { return Err(OutOfGas); }
    var top := stack.Pop();
    var code: seq<Instr>;
    if i.If? {
      code := if top.b then i.yes else i.no;
    } else if i.IfNone? {
      if top.VSome? { stack.Push(top.inner); }
      code := if top.VSome? then i.some else i.none;
    } else if i.IfCons? {
      if top.elems != [] {
        stack.Push(VList(top.elems[1..]));
        stack.Push(top.elems[0]);
        assert stack.View() == [top.elems[0], VList(top.elems[1..])] + s[1..];
      }
      code := if top.elems != [] then i.cons else i.nil;
    } else {
      stack.Push(top.inner);
      code := if top.VLeft? then i.left else i.right;
    }
    assert ChooseBranch(i, s) == Some(Branch(code, stack.View()));
    r := InterpretSeq(m, code, stack);
  }

  /** LOOP and LOOP_LEFT: a turn costs ten milligas, whatever the body does. */
  method RunLoop(m: Machine, left: bool, body: seq<Instr>, stack: Stack<Value>) returns (r: Result)
    requires m.milligas.Some? && !LoopRun(m.ctx, left, body, Current(m, stack)).Panicked?
    modifies m, stack
    ensures Agrees(LoopRun(m.ctx, left, body, old(Current(m, stack))), m, stack, r)
    ensures Paid(m, old(m.ticks), old(m.Gas()), r)
    decreases m.Gas(), body, 1
  {
    hide InterpSeq;
    ghost var o := LoopRun(m.ctx, left, body, Current(m, stack));
    var again := true;
    while again
      invariant m.milligas.Some? && Paid(m, old(m.ticks), old(m.Gas()), Ok)
      invariant if again then LoopRun(m.ctx, left, body, Current(m, stack)) == o else o == Pay(STEP, Current(m, stack))
      decreases again, m.Gas()
    {
      var ok := m.Consume(STEP);
      if !ok { return Err(OutOfGas); }
      m.ticks := m.ticks + 1;
      var top := stack.Pop();
      if left { stack.Push(top.inner); }
      again := if left then top.VLeft? else top.b;
      if again {
        r := InterpretSeq(m, body, stack);
        if r.Err? { return; }
      }
    }
    var ok := m.Consume(STEP);
    return if ok then Ok else Err(OutOfGas);
  }

  method RunIter(m: Machine, over: Container, body: seq<Instr>, stack: Stack<Value>) returns (r: Result)
    requires m.milligas.Some? && !Interp(m.ctx, Iter(over, body), Current(m, stack)).Panicked?
    modifies m, stack
    ensures Agrees(Interp(m.ctx, Iter(over, body), old(Current(m, stack))), m, stack, r)
    ensures Paid(m, old(m.ticks), old(m.Gas()), r)
    decreases m.Gas(), body, 3
  {
    var ok := m.Consume(ITER);
    if !ok { return Err(OutOfGas); }
    var top := stack.Pop();
    r := IterItems(m, body, Items(over, top).value, stack);
  }

  method IterItems(m: Machine, body: seq<Instr>, items: seq<Value>, stack: Stack<Value>) returns (r: Result)
    requires m.milligas.Some? && !IterRun(m.ctx, body, items, Current(m, stack)).Panicked?
    modifies m, stack
    ensures Agrees(IterRun(m.ctx, body, items, old(Current(m, stack))), m, stack, r)
    ensures Paid(m, old(m.ticks), old(m.Gas()), r)
    decreases m.Gas(), body, 2
  {
    ghost var o := IterRun(m.ctx, body, items, Current(m, stack));
    var i := 0;
    while i < |items|
      invariant 0 <= i <= |items| && m.milligas.Some?
      invariant IterRun(m.ctx, body, items[i..], Current(m, stack)) == o
      invariant Paid(m, old(m.ticks), old(m.Gas()), Ok)
    {
      assert items[i..][1..] == items[i + 1..];
      var ok := m.Consume(STEP);
      if !ok { return Err(OutOfGas); }
      stack.Push(items[i]);
      r := InterpretSeq(m, body, stack);
      if r.Err? { return; }
      i := i + 1;
    }
    return Ok;
  }

  method RunMapInstr(m: Machine, over: Container, body: seq<Instr>, stack: Stack<Value>) returns (r: Result)
    requires m.milligas.Some? && !RunMap(m.ctx, over, body, Current(m, stack)).Panicked?
    modifies m, stack
    ensures Agrees(RunMap(m.ctx, over, body, old(Current(m, stack))), m, stack, r)
    ensures Paid(m, old(m.ticks), old(m.Gas()), r)
    decreases m.Gas(), body, 3
  {
    var ok := m.Consume(MapEntryCost(over));
    if !ok { return Err(OutOfGas); }
    var top := stack.Pop();
    var results;
    r, results := MapItems(m, body, Items(over, top).value, stack);
    if r.Ok? { stack.Push(Rebuild(over, top, results)); }
  }

  /** Runs the body on every item and takes its result off the stack. */
  method MapItems(m: Machine, body: seq<Instr>, items: seq<Value>, stack: Stack<Value>)
    returns (r: Result, results: seq<Value>)
    requires m.milligas.Some? && !MapRun(m.ctx, body, items, [], Current(m, stack)).Panicked?
    modifies m, stack
    ensures match MapRun(m.ctx, body, items, [], old(Current(m, stack)))
            case Done(st) =>
              && r == Ok && m.milligas.Some? && st == Current(m, stack).(stack := [VList(results)] + stack.View())
            case Failed(error) => r == Err(error)
            case Panicked(_) => false
    ensures Paid(m, old(m.ticks), old(m.Gas()), r)
    decreases m.Gas(), body, 2
  {
    ghost var o := MapRun(m.ctx, body, items, [], Current(m, stack));
    results := [];
    var i := 0;
    while i < |items|
      invariant 0 <= i <= |items| && m.milligas.Some?
      invariant MapRun(m.ctx, body, items[i..], results, Current(m, stack)) == o
      invariant Paid(m, old(m.ticks), old(m.Gas()), Ok)
    {
      assert items[i..][1..] == items[i + 1..];
      var ok := m.Consume(STEP);
      if !ok { return Err(OutOfGas), []; }
      stack.Push(items[i]);
      r := InterpretSeq(m, body, stack);
      if r.Err? { return; }
      var x := stack.Pop();
      results := results + [x];
      i := i + 1;
    }
    r := Ok;
  }

  /** DIP: the protected elements are set aside while the body runs. */
  method RunDipInstr(m: Machine, height: Option<nat>, body: seq<Instr>, stack: Stack<Value>) returns (r: Result)
    requires m.milligas.Some? && !RunDip(m.ctx, height, body, Current(m, stack)).Panicked?
    modifies m, stack
    ensures Agrees(RunDip(m.ctx, height, body, old(Current(m, stack))), m, stack, r)
    ensures Paid(m, old(m.ticks), old(m.Gas()), r)
    decreases m.Gas(), body, 1
  {
    var ok := m.Consume(DipCost(height));
    if !ok { return Err(OutOfGas); }
    var protected := stack.SplitOff(Height(height));
    r := InterpretSeq(m, body, stack);
    if r.Err? { return; }
    ok := m.Consume(UndipCost(Height(height)));
    if !ok { return Err(OutOfGas); }
    stack.Append(protected);
    return Ok;
  }

  /** EXEC: unfolds the captured arguments, then runs the code on a stack of its own. */
  method RunExec(m: Machine, stack: Stack<Value>) returns (r: Result)
    requires m.milligas.Some? && !Interp(m.ctx, Exec, Current(m, stack)).Panicked?
    modifies m, stack
    ensures Agrees(Interp(m.ctx, Exec, old(Current(m, stack))), m, stack, r)
    ensures Paid(m, old(m.ticks), old(m.Gas()), r)
    decreases m.Gas(), Exec, 0
  {
    hide InterpSeq;
    ghost var s := stack.View();
    ghost var o := Interp(m.ctx, Exec, Current(m, stack));
    var ok := m.Consume(STEP);
    if !ok { return Err(OutOfGas); }
    m.ticks := m.ticks + 1;
    var arg := stack.Pop();
    var f := stack.Pop();
    assert s[1..][1..] == s[2..];
    var c := f.closure;
    while c.Applied?
      invariant m.milligas.Some? && m.Gas() < old(m.Gas())
      invariant ExecRun(m.ctx, c, arg, Current(m, stack)) == o
      invariant Paid(m, old(m.ticks), old(m.Gas()), Ok)
      decreases c
    {
      ok := m.Consume(STEP);
      if !ok { return Err(OutOfGas); }
      c, arg := c.inner, VPair(c.arg, arg);
    }
    var own := new Stack<Value>(if c.Recursive? then [arg, VLambda(c)] else [arg]);
    r := InterpretSeq(m, c.code, own);
    if r.Err? { return; }
    var x := own.Pop();
    stack.Push(x);
    return Ok;
  }
}
