/** Instructions that undo each other. */
module Laws {
  import opened Syntax
  import opened Ops

  function StackAfter(e: Effect, s: seq<Value>): seq<Value>
    requires e.after.Next? && e.Fits(|s|)
  {
    e.after.push + s[e.after.take..]
  }

  /** DIG n; DUG n leaves the stack as it was, and so does DUG n; DIG n. */
  lemma {:induction false} DigDug(n: nat, s: seq<Value>)
    requires n < |s|
    ensures StackEffect(Dig(n), s).after.Next? && StackEffect(Dug(n), s).after.Next?
    ensures var t := StackAfter(StackEffect(Dig(n), s), s);
            StackEffect(Dug(n), t).after.Next? && StackAfter(StackEffect(Dug(n), t), t) == s
    ensures var t := StackAfter(StackEffect(Dug(n), s), s);
            StackEffect(Dig(n), t).after.Next? && StackAfter(StackEffect(Dig(n), t), t) == s
  {
    if n > 0 {
      var t := StackAfter(StackEffect(Dig(n), s), s);
      assert t == [s[n]] + s[..n] + s[n + 1..];
      assert t[1..n + 1] == s[..n] && t[n + 1..] == s[n + 1..];
      assert s[..n] + [s[n]] + s[n + 1..] == s;
      var u := StackAfter(StackEffect(Dug(n), s), s);
      assert u == s[1..n + 1] + [s[0]] + s[n + 1..];
      assert u[..n] == s[1..n + 1] && u[n + 1..] == s[n + 1..];
      assert [s[0]] + s[1..n + 1] + s[n + 1..] == s;
    }
  }

  /** UNPAIR n undoes PAIR n. */
  lemma {:induction false} UncombComb(s: seq<Value>)
    requires s != []
    ensures Uncomb(|s| - 1, Comb(s)) == Some(s)
  {
    if |s| > 1 {
      UncombComb(s[1..]);
      assert [s[0]] + s[1..] == s;
    } else {
      assert s == [s[0]];
    }
  }

  /** PAIR n undoes UNPAIR n. */
  lemma {:induction false} CombUncomb(n: nat, v: Value)
    requires Uncomb(n, v).Some?
    ensures |Uncomb(n, v).value| == n + 1 && Comb(Uncomb(n, v).value) == v
    decreases n
  {
    if n > 0 {
      CombUncomb(n - 1, v.snd);
      assert Uncomb(n, v).value[1..] == Uncomb(n - 1, v.snd).value;
    }
  }

  /** GET n after UPDATE n reads what was written; other heads, and tails further left, are as before. */
  lemma {:induction false} GetAfterUpdate(n: nat, v: Value, x: Value, m: nat)
    requires NthField(n, v).Some?
    ensures WithNthField(n, v, x).Some?
    ensures NthField(n, WithNthField(n, v, x).value) == Some(x)
    ensures m % 2 == 1 && m != n && (m < n || n % 2 == 1) ==>
              NthField(m, WithNthField(n, v, x).value) == NthField(m, v)
    ensures WithNthField(n, v, NthField(n, v).value) == Some(v)
    decreases n
  {
    if n >= 2 {
      GetAfterUpdate(n - 2, v.snd, x, if m >= 2 then m - 2 else 0);
    }
  }
}
