/** A checked program on the machine: the theorems about the interpreter function, carried over to the running code. */
module Contracts {
  import opened Syntax
  import opened Interpreter
  import opened Typechecker
  import opened OpSafety
  import opened TypeSafety
  import opened Tickets
  import opened Results
  import opened Stacks
  import opened Machines
  import opened Running

  /**
   * Nothing is assumed about the run itself: a checked program on a stack of the right types leaves the predicted
   * types or an error, never gains foreign tickets, and makes at most one loop turn or EXEC per ten milligas.
   */
  method RunChecked(m: Machine, code: seq<Instr>, stack: Stack<Value>, ghost tys: seq<Ty>) returns (r: Result)
    requires m.milligas.Some? && ContextOk(m.ctx)
    requires StackHas(true, stack.View(), tys) && CheckSeq(true, code, tys).Some?
    modifies m, stack
    ensures r.Ok? ==> CheckSeq(true, code, tys).value.Live?
    ensures r.Ok? ==> StackHas(true, stack.View(), CheckSeq(true, code, tys).value.tys)
    ensures forall ticketer: nat, content: Value :: r.Ok? && ticketer != m.ctx.self ==>
              TotalSeq(AmountOf(ticketer, content), stack.View())
              <= TotalSeq(AmountOf(ticketer, content), old(stack.View()))
    ensures 10 * (m.ticks - old(m.ticks)) <= old(m.Gas())
  {
    ghost var st := Current(m, stack);
    SeqSafe(true, m.ctx, code, st, tys);
    forall ticketer: nat, content: Value | ticketer != m.ctx.self
      ensures var o := InterpSeq(m.ctx, code, st);
              o.Done? ==> TotalSeq(AmountOf(ticketer, content), o.state.stack)
                          <= TotalSeq(AmountOf(ticketer, content), st.stack)
    {
      ForeignTicketsNeverGrow(m.ctx, code, st, tys, ticketer, content);
    }
    r := InterpretSeq(m, code, stack);
  }
}
