/** The interpreter's stack: a vector that grows at its end, addressed from the top. */
module Stacks {
  import opened Syntax

  function Reversed<T>(s: seq<T>): (r: seq<T>)
    ensures |r| == |s|
    ensures forall i :: 0 <= i < |s| ==> r[i] == s[|s| - 1 - i]
  {
    seq(|s|, i requires 0 <= i < |s| => s[|s| - 1 - i])
  }

  class Stack<T> {
    /** The backing vector; the top of the stack is its last element. */
    var data: seq<T>

    /** The contents from the top. */
    ghost function View(): seq<T>
      reads this
    {
      Reversed(data)
    }

    constructor (top: seq<T>)
      ensures View() == top
    {
      data := Reversed(top);
      new;
      assert Reversed(data) == top;
    }

    function Len(): (n: nat)
      reads this
      ensures n == |View()|
    {
      |data|
    }

    /** The position in the vector of the i-th element from the top. */
    function VecIndex(i: nat): (j: nat)
      requires i < Len()
      reads this
      ensures j < |data| && data[j] == View()[i]
    {
      |data| - (i + 1)
    }

    method Push(x: T)
      modifies this
      ensures View() == [x] + old(View())
    {
      data := data + [x];
    }

    method TryPop() returns (x: Option<T>)
      modifies this
      ensures if old(Len()) == 0 then x == None && View() == []
              else x == Some(old(View())[0]) && View() == old(View())[1..]
    {
      if data == [] { return None; }
      x := Some(data[|data| - 1]);
      data := data[..|data| - 1];
    }

    /** The interpreter's forced pop, which panics on an empty stack. */
    method Pop() returns (x: T)
      requires Len() > 0
      modifies this
      ensures x == old(View())[0] && View() == old(View())[1..]
    {
      var top := TryPop();
      x := top.value;
    }

    method Get(i: nat) returns (x: T)
      requires i < Len()
      ensures x == View()[i]
    {
      x := data[VecIndex(i)];
    }

    method Set(i: nat, x: T)
      requires i < Len()
      modifies this
      ensures View() == old(View())[i := x]
    {
      data := data[VecIndex(i) := x];
    }

    method Remove(i: nat) returns (x: T)
      requires i < Len()
      modifies this
      ensures x == old(View())[i] && View() == old(View())[..i] + old(View())[i + 1..]
    {
      var j := VecIndex(i);
      x := data[j];
      data := data[..j] + data[j + 1..];
    }

    /** After the call i elements lie above the new one. */
    method Insert(i: nat, x: T)
      requires i <= Len()
      modifies this
      ensures View() == old(View())[..i] + [x] + old(View())[i..]
    {
      if i > 0 {
        var j := VecIndex(i - 1);
        data := data[..j] + [x] + data[j..];
      } else {
        Push(x);
      }
    }

    method DropTop(n: nat)
      requires n <= Len()
      modifies this
      ensures View() == old(View())[n..]
    {
      data := data[..|data| - n];
    }

    /** Removes the top n elements and returns them from the top. */
    method DrainTop(n: nat) returns (items: seq<T>)
      requires n <= Len()
      modifies this
      ensures items == old(View())[..n] && View() == old(View())[n..]
    {
      items := Reversed(data[|data| - n..]);
      data := data[..|data| - n];
    }

    /** Moves the top n elements into a new stack. */
    method SplitOff(n: nat) returns (top: Stack<T>)
      requires n <= Len()
      modifies this
      ensures fresh(top) && top.View() == old(View())[..n] && View() == old(View())[n..]
    {
      top := new Stack<T>([]);
      top.data := data[|data| - n..];
      data := data[..|data| - n];
    }

    /** Moves all elements of the other stack on top of this one. */
    method Append(other: Stack<T>)
      requires other != this
      modifies this, other
      ensures View() == old(other.View()) + old(View()) && other.View() == []
    {
      data := data + other.data;
      other.data := [];
    }

    method Swap(i: nat, j: nat)
      requires i < Len() && j < Len()
      modifies this
      ensures View() == old(View())[i := old(View())[j]][j := old(View())[i]]
    {
      var a, b := VecIndex(i), VecIndex(j);
      data := data[a := data[b]][b := data[a]];
    }
  }
}
