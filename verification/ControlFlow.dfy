/**
 * What the instructions with nested code compute, from what their bodies compute on a stack of their own: MAP applies a
 * function to every element, ITER folds one over the elements, and LOOP and LOOP_LEFT repeat one until the top of the
 * stack says stop.  What lies below is carried along by the frame property.
 */
module ControlFlow {
  import opened Syntax
  import opened Interpreter
  import opened Framing

  /** No panic, and s on the stack if there is no error. */
  ghost predicate Leaves(o: Outcome, s: seq<Value>) {
    !o.Panicked? && (o.Done? ==> o.state.stack == s)
  }

  /** A body that leaves `out` when it runs on `s` alone leaves `out` above whatever lies below. */
  lemma {:induction false} BodyAbove(
      ctx: Context, body: seq<Instr>, s: seq<Value>, out: seq<Value>, rest: seq<Value>, st: State)
    requires st.stack == s + rest
    requires Leaves(InterpSeq(ctx, body, st.(stack := s)), out)
    ensures Leaves(InterpSeq(ctx, body, st), out + rest)
  {
    hide InterpSeq;
    var alone := st.(stack := s);
    SeqFramed(ctx, body, alone, rest);
    assert Over(alone, rest) == st;
  }

  // ---- MAP ----

  /** On every element with P alone on the stack the body leaves its image under f. */
  ghost predicate Maps(ctx: Context, body: seq<Instr>, P: Value -> bool, f: Value -> Value) {
    forall x: Value, gas: nat, minted: seq<Ticket> | P(x) ::
      Leaves(InterpSeq(ctx, body, State([x], gas, minted)), [f(x)])
  }

  predicate All(P: Value -> bool, vs: seq<Value>) {
    forall i :: 0 <= i < |vs| ==> P(vs[i])
  }

  function Mapped(f: Value -> Value, vs: seq<Value>): (r: seq<Value>)
    ensures |r| == |vs| && forall i :: 0 <= i < |vs| ==> r[i] == f(vs[i])
  {
    seq(|vs|, i requires 0 <= i < |vs| => f(vs[i]))
  }

  lemma {:induction false} MapItems(
      ctx: Context, body: seq<Instr>, P: Value -> bool, f: Value -> Value, items: seq<Value>, done: seq<Value>,
      st: State)
    requires Maps(ctx, body, P, f) && All(P, items)
    ensures Leaves(MapRun(ctx, body, items, done, st), [VList(done + Mapped(f, items))] + st.stack)
    decreases |items|
  {
    hide InterpSeq;
    if items == [] {
      assert done + Mapped(f, items) == done;
    } else if Affordable(STEP, st.gas) {
      var x, s := items[0], st.stack;
      var next := Spend(STEP, st).(stack := [x] + s);
      assert next.(stack := [x]) == State([x], next.gas, next.minted);
      BodyAbove(ctx, body, [x], [f(x)], s, next);
      var o := InterpSeq(ctx, body, next);
      if o.Done? {
        assert ([f(x)] + s)[1..] == s;
        MapItems(ctx, body, P, f, items[1..], done + [f(x)], o.state.(stack := s));
        assert done + [f(x)] + Mapped(f, items[1..]) == done + Mapped(f, items);
      }
    }
  }

  function MappedEntries(f: Value -> Value, m: seq<Entry>): (r: seq<Entry>)
    ensures |r| == |m| && forall i :: 0 <= i < |m| ==> r[i] == Entry(m[i].key, f(VPair(m[i].key, m[i].val)))
  {
    seq(|m|, i requires 0 <= i < |m| => Entry(m[i].key, f(VPair(m[i].key, m[i].val))))
  }

  /** The function on containers: on maps it sees the binding and gives the new value for the same key. */
  function MapValue(f: Value -> Value, v: Value): Value {
    if v.VList? then VList(Mapped(f, v.elems))
    else if v.VSome? then VSome(f(v.inner))
    else if v.VMap? then VMap(MappedEntries(f, v.entries))
    else v
  }

  /** MAP applies its body to every element, in a list, an option or a map, and leaves the rest of the stack alone. */
  lemma {:induction false} MapLaw(
      ctx: Context, over: Container, body: seq<Instr>, P: Value -> bool, f: Value -> Value, st: State)
    requires st.stack != [] && Items(over, st.stack[0]).Some? && All(P, Items(over, st.stack[0]).value)
    requires Maps(ctx, body, P, f)
    ensures Leaves(Interp(ctx, Map(over, body), st), [MapValue(f, st.stack[0])] + st.stack[1..])
  {
    hide InterpSeq, MapRun, Maps, All;
    if Affordable(MapEntryCost(over), st.gas) {
      var v, s := st.stack[0], st.stack[1..];
      var items, next := Items(over, v).value, Spend(MapEntryCost(over), st).(stack := s);
      MapItems(ctx, body, P, f, items, [], next);
      assert [] + Mapped(f, items) == Mapped(f, items);
      Rebuilt(over, f, v, items);
      assert ([VList(Mapped(f, items))] + s)[1..] == s;
    }
  }

  lemma {:induction false} Rebuilt(over: Container, f: Value -> Value, v: Value, items: seq<Value>)
    requires Items(over, v) == Some(items)
    ensures Rebuild(over, v, Mapped(f, items)) == MapValue(f, v)
  {
    if over.OverMap? {
      assert WithValues(v.entries, Mapped(f, items)) == MappedEntries(f, v.entries);
    }
  }

  // ---- ITER ----

  /** On an element with P and a value with Q the body leaves the folded value, which has Q again. */
  ghost predicate Folds(
      ctx: Context, body: seq<Instr>, P: Value -> bool, Q: Value -> bool, g: (Value, Value) -> Value) {
    forall x: Value, acc: Value, gas: nat, minted: seq<Ticket> | P(x) && Q(acc) ::
      Leaves(InterpSeq(ctx, body, State([x, acc], gas, minted)), [g(acc, x)]) && Q(g(acc, x))
  }

  function Fold(g: (Value, Value) -> Value, acc: Value, items: seq<Value>): Value
    decreases |items|
  {
    if items == [] then acc else Fold(g, g(acc, items[0]), items[1..])
  }

  lemma {:induction false} IterItems(
      ctx: Context, body: seq<Instr>, P: Value -> bool, Q: Value -> bool, g: (Value, Value) -> Value,
      items: seq<Value>, acc: Value, rest: seq<Value>, st: State)
    requires Folds(ctx, body, P, Q, g) && All(P, items) && Q(acc) && st.stack == [acc] + rest
    ensures Leaves(IterRun(ctx, body, items, st), [Fold(g, acc, items)] + rest)
    decreases |items|
  {
    hide InterpSeq;
    if items != [] && Affordable(STEP, st.gas) {
      var x := items[0];
      var next := Spend(STEP, st).(stack := [x] + st.stack);
      assert next.(stack := [x, acc]) == State([x, acc], next.gas, next.minted);
      assert [x] + ([acc] + rest) == [x, acc] + rest;
      BodyAbove(ctx, body, [x, acc], [g(acc, x)], rest, next);
      var o := InterpSeq(ctx, body, next);
      if o.Done? { IterItems(ctx, body, P, Q, g, items[1..], g(acc, x), rest, o.state); }
    }
  }

  /** The elements of a list, or the bindings of a map as pairs, in order. */
  function Elements(v: Value): seq<Value>
    requires v.VList? || v.VMap?
  {
    if v.VList? then v.elems
    else seq(|v.entries|, i requires 0 <= i < |v.entries| => VPair(v.entries[i].key, v.entries[i].val))
  }

  /** ITER folds its body over the elements in order, starting from the value below the container. */
  lemma {:induction false} IterLaw(
      ctx: Context, over: Container, body: seq<Instr>, P: Value -> bool, Q: Value -> bool,
      g: (Value, Value) -> Value, st: State)
    requires |st.stack| >= 2 && ((over.OverList? && st.stack[0].VList?) || (over.OverMap? && st.stack[0].VMap?))
    requires All(P, Elements(st.stack[0])) && Q(st.stack[1]) && Folds(ctx, body, P, Q, g)
    ensures Leaves(Interp(ctx, Iter(over, body), st),
                   [Fold(g, st.stack[1], Elements(st.stack[0]))] + st.stack[2..])
  {
    hide InterpSeq, IterRun, Folds, All, Fold;
    var items := Elements(st.stack[0]);
    assert Items(over, st.stack[0]) == Some(items);
    if Affordable(ITER, st.gas) {
      var next := Spend(ITER, st).(stack := st.stack[1..]);
      assert next.stack == [st.stack[1]] + st.stack[2..];
      IterItems(ctx, body, P, Q, g, items, st.stack[1], st.stack[2..], next);
    }
  }

  // ---- LOOP and LOOP_LEFT ----

  /** On a stack with Q the body leaves one with a decision on top; if that is to go on, the next turn has Q again. */
  ghost predicate Turns(
      ctx: Context, left: bool, body: seq<Instr>, Q: seq<Value> -> bool, h: seq<Value> -> seq<Value>) {
    forall s: seq<Value>, gas: nat, minted: seq<Ticket> | Q(s) ::
      Leaves(InterpSeq(ctx, body, State(s, gas, minted)), h(s)) && Decides(left, Q, h(s))
  }

  /** A boolean or an or on top; the stack of the next turn has Q. */
  ghost predicate Decides(left: bool, Q: seq<Value> -> bool, s: seq<Value>) {
    && s != []
    && (left ==> s[0].VLeft? || s[0].VRight?)
    && (!left ==> s[0].VBool?)
    && (GoesOn(left, s[0]) ==> Q(Body(left, s)))
  }

  /** True and Left go on; false and Right stop. */
  predicate GoesOn(left: bool, v: Value) {
    if left then v.VLeft? else v == VBool(true)
  }

  /** The stack without the decision: LOOP_LEFT keeps what the or holds. */
  function Body(left: bool, s: seq<Value>): seq<Value>
    requires s != [] && (left ==> s[0].VLeft? || s[0].VRight?)
  {
    if left then [s[0].inner] + s[1..] else s[1..]
  }

  /** From s, n turns of h and then the decision to stop lead to t. */
  ghost predicate AfterTurns(left: bool, h: seq<Value> -> seq<Value>, n: nat, s: seq<Value>, t: seq<Value>)
    decreases n
  {
    && s != [] && (if left then s[0].VLeft? || s[0].VRight? else s[0].VBool?)
    && if GoesOn(left, s[0]) then n > 0 && AfterTurns(left, h, n - 1, h(Body(left, s)), t)
       else n == 0 && t == Body(left, s)
  }

  /** The interpreter decides by the value on top. */
  lemma {:induction false} HeadDecides(left: bool, s: seq<Value>)
    requires s != [] && if left then s[0].VLeft? || s[0].VRight? else s[0].VBool?
    ensures LoopHead(left, s) == Some(if GoesOn(left, s[0]) then Again(Body(left, s)) else Leave(Body(left, s)))
  {
  }

  lemma {:induction false} HeadAbove(left: bool, s: seq<Value>, rest: seq<Value>)
    requires LoopHead(left, s).Some?
    ensures var turn := LoopHead(left, s).value;
            LoopHead(left, s + rest) == Some(if turn.Again? then Again(turn.stack + rest) else Leave(turn.stack + rest))
  {
    assert (s + rest)[1..] == s[1..] + rest;
    if left { assert [s[0].inner] + (s[1..] + rest) == ([s[0].inner] + s[1..]) + rest; }
  }

  lemma {:induction false} LoopTurns(
      ctx: Context, left: bool, body: seq<Instr>, Q: seq<Value> -> bool, h: seq<Value> -> seq<Value>,
      s: seq<Value>, rest: seq<Value>, st: State) returns (n: nat, t: seq<Value>)
    requires Turns(ctx, left, body, Q, h) && Decides(left, Q, s) && st.stack == s + rest
    ensures var o := LoopRun(ctx, left, body, st);
            && !o.Panicked?
            && (o.Done? ==> AfterTurns(left, h, n, s, t) && o.state.stack == t + rest && 10 * n + o.state.gas <= st.gas)
    decreases st.gas
  {
    hide InterpSeq, LoopHead;
    n, t := 0, [];
    HeadDecides(left, s);
    if Affordable(STEP, st.gas) {
      HeadAbove(left, s, rest);
      var turn := LoopHead(left, s).value;
      t := turn.stack;
      if turn.Again? {
        var u := turn.stack;
        var next := Spend(STEP, st).(stack := u + rest);
        assert next.(stack := u) == State(u, next.gas, next.minted);
        BodyAbove(ctx, body, u, h(u), rest, next);
        var o := InterpSeq(ctx, body, next);
        if o.Done? {
          n, t := LoopTurns(ctx, left, body, Q, h, h(u), rest, o.state);
          n := n + 1;
        }
      }
    }
  }

  /**
   * LOOP and LOOP_LEFT repeat their body as long as the top of the stack says so: a loop that ends has made some number
   * n of turns, one for each ten milligas or more, and leaves what n applications of the body leave.
   */
  lemma {:induction false} LoopLaw(
      ctx: Context, left: bool, body: seq<Instr>, Q: seq<Value> -> bool, h: seq<Value> -> seq<Value>,
      s: seq<Value>, rest: seq<Value>, st: State) returns (n: nat, t: seq<Value>)
    requires Turns(ctx, left, body, Q, h) && Decides(left, Q, s) && st.stack == s + rest
    ensures var o := Interp(ctx, if left then LoopLeft(body) else Loop(body), st);
            && !o.Panicked?
            && (o.Done? ==> AfterTurns(left, h, n, s, t) && o.state.stack == t + rest && 10 * n + o.state.gas <= st.gas)
  {
    hide InterpSeq, LoopRun, LoopHead, AfterTurns, Turns, Decides;
    n, t := 0, [];
    if Affordable(STEP, st.gas) {
      n, t := LoopTurns(ctx, left, body, Q, h, s, rest, Spend(STEP, st));
    }
  }
}
