/**
 * `stack.Stack` of the Go toolchain (stack/stack.go): a slice of integers whose last element
 * is the top. It is total: popping or peeking an empty stack gives 0 and changes nothing.
 */
module GoStack {
  /** The value `Pop` and `Peek` return: the top, or 0 when there is none. */
  function Top(items: seq<int>): int
  {
    if |items| == 0 then 0 else items[|items| - 1]
  }

  /** What `Pop` leaves behind: everything but the top (and nothing from nothing). */
  function Below(items: seq<int>): seq<int>
  {
    if |items| == 0 then [] else items[..|items| - 1]
  }

  /** The top sits on what `Pop` leaves behind. */
  lemma TopOnBelow(items: seq<int>)
    requires |items| > 0
    ensures items == Below(items) + [Top(items)]
  {
  }

  /** Popping what was just pushed gives it back and restores the contents. */
  lemma PopAfterPush(items: seq<int>, x: int)
    ensures Top(items + [x]) == x && Below(items + [x]) == items
  {
    assert (items + [x])[..|items|] == items;
  }

  class Stack {
    var items: seq<int>

    /** `New`: an empty stack. */
    constructor ()
      ensures items == []
    {
      items := [];
    }

    /** `Push` appends the item as the new top. */
    method Push(item: int)
      modifies this
      ensures items == old(items) + [item]
    {
      items := items + [item];
    }

    /**
     * `Pop` removes the top and returns it; only the top is removed. On an empty stack it
     * returns 0 and the stack stays empty.
     */
    method Pop() returns (popped: int)
      modifies this
      ensures |old(items)| > 0 ==> old(items) == items + [popped]
      ensures |old(items)| == 0 ==> popped == 0 && items == []
      ensures popped == Top(old(items)) && items == Below(old(items))
    {
      if |items| == 0 {
        return 0;
      }
      var topIndex := |items| - 1;
      popped := items[topIndex];
      items := items[..topIndex];
    }

    /** `Peek` returns what `Pop` would, without changing the stack. */
    function Peek(): (top: int)
      reads this
      ensures |items| > 0 ==> items == Below(items) + [top]
      ensures |items| == 0 ==> top == 0
    {
      if |items| == 0 then 0 else items[|items| - 1]
    }

    function IsEmpty(): (empty: bool)
      reads this
      ensures empty <==> items == []
    {
      |items| == 0
    }
  }

  /** `Push(x)` then `Pop()` returns `x` and leaves the stack as it was. */
  method PushThenPop(s: Stack, x: int) returns (popped: int)
    modifies s
    ensures popped == x && s.items == old(s.items)
  {
    s.Push(x);
    popped := s.Pop();
    PopAfterPush(old(s.items), x);
  }
}
