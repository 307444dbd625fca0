/**
 * `crossreference_blocks` of the C++ compilers (identical in wis.cpp and gollo.cpp): one
 * pass over the program with a stack of indices of open blocks, writing `JumpTo` of the
 * ops it links in place.
 */
module WisCrossref {
  import opened Wrappers
  import opened Location
  import opened WisSyntax

  datatype XrefError =
    | ElseOutsideIf(loc: Loc)       // `else` with no open block
    | DoOutsideWhile(loc: Loc)      // `do` with no open block
    | EndWithoutBlock(loc: Loc)     // `end` with no open block
    | EndClosesOther(loc: Loc)      // `end` whose block is opened by neither `if`, `else` nor `do`
    | UnclosedBlock(loc: Loc)       // a block left open, reported at the most recent one

  /** The open-block stack, top last: indices of ops already passed. */
  predicate StackBelow(stack: seq<nat>, i: nat)
  {
    forall k :: 0 <= k < |stack| ==> stack[k] < i
  }

  function SetJump(p: seq<Operation>, k: nat, target: int): (q: seq<Operation>)
    requires k < |p|
    ensures |q| == |p|
  {
    p[k := p[k].(jumpTo := target)]
  }

  /** `q` is `p` with at most the `JumpTo` fields rewritten. */
  predicate SameExceptJumps(p: seq<Operation>, q: seq<Operation>)
  {
    |q| == |p| && forall k :: 0 <= k < |p| ==> q[k] == p[k].(jumpTo := q[k].jumpTo)
  }

  /** Every `JumpTo` lies in `[0, n]`. */
  predicate JumpsWithin(p: seq<Operation>, n: int)
  {
    forall k :: 0 <= k < |p| ==> 0 <= p[k].jumpTo <= n
  }

  predicate Opens(k: OpType) { k == If || k == While }

  /**
   * One iteration of the loop, on op `i`: the program and the stack after it.
   */
  function XrefStep(p: seq<Operation>, i: nat, stack: seq<nat>): (r: Result<(seq<Operation>, seq<nat>), XrefError>)
    requires i < |p| && StackBelow(stack, i)
    ensures r.Ok? ==> |r.value.0| == |p| && StackBelow(r.value.1, i + 1)
  {
    var op := p[i];
    if Opens(op.kind) then Ok((p, stack + [i]))
    else if op.kind == Else then
      if stack == [] then Err(ElseOutsideIf(op.loc))
      else
        var pos := stack[|stack| - 1];
        Ok((SetJump(p, pos, i + 1), stack[..|stack| - 1] + [i]))
    else if op.kind == Do then
      if stack == [] then Err(DoOutsideWhile(op.loc))
      else
        var top := stack[|stack| - 1];
        Ok((SetJump(p, i, top), stack[..|stack| - 1] + [i]))
    else if op.kind == End then
      if stack == [] then Err(EndWithoutBlock(op.loc))
      else
        var pos := stack[|stack| - 1];
        var rest := stack[..|stack| - 1];
        if p[pos].kind == If || p[pos].kind == Else then Ok((SetJump(p, pos, i), rest))
        else if p[pos].kind == Do then Ok((SetJump(SetJump(p, i, p[pos].jumpTo), pos, i + 1), rest))
        else Err(EndClosesOther(op.loc))
    else Ok((p, stack))
  }

  /** The loop of `crossreference_blocks` from op `i`, then the check that every block is closed. */
  function XrefFrom(p: seq<Operation>, i: nat, stack: seq<nat>): Result<seq<Operation>, XrefError>
    requires i <= |p| && StackBelow(stack, i)
    decreases |p| - i
  {
    if i == |p| then
      if stack == [] then Ok(p) else Err(UnclosedBlock(p[stack[|stack| - 1]].loc))
    else
      match XrefStep(p, i, stack)
      case Err(e) => Err(e)
      case Ok((q, stack')) => XrefFrom(q, i + 1, stack')
  }

  function Xref(p: seq<Operation>): Result<seq<Operation>, XrefError>
  {
    XrefFrom(p, 0, [])
  }

  /** One iteration of the loop, once its outcome is known. */
  lemma XrefFromStep(p: seq<Operation>, i: nat, stack: seq<nat>, q: seq<Operation>, stack': seq<nat>)
    requires i < |p| && StackBelow(stack, i)
    requires XrefStep(p, i, stack) == Ok((q, stack'))
    ensures StackBelow(stack', i + 1) && |q| == |p|
    ensures XrefFrom(p, i, stack) == XrefFrom(q, i + 1, stack')
  {
  }

  /** One iteration of the loop of `crossreference_blocks`, on op `i`; yields the new stack. */
  method XrefIteration(program: array<Operation>, i: nat, stack0: seq<nat>) returns (r: Result<seq<nat>, XrefError>)
    requires i < program.Length && StackBelow(stack0, i)
    modifies program
    ensures XrefStep(old(program[..]), i, stack0).Ok? <==> r.Ok?
    ensures r.Ok? ==> XrefStep(old(program[..]), i, stack0) == Ok((program[..], r.value))
    ensures r.Err? ==> XrefStep(old(program[..]), i, stack0) == Err(r.error)
  {
    var stack := stack0;
    var op := program[i];
    if op.kind == If || op.kind == While {
      stack := stack + [i];
    } else if op.kind == Else {
      if stack == [] {
        return Err(ElseOutsideIf(op.loc));
      }
      var pos := stack[|stack| - 1];
      stack := stack[..|stack| - 1];
      program[pos] := program[pos].(jumpTo := i + 1);
      stack := stack + [i];
    } else if op.kind == Do {
      if stack == [] {
        return Err(DoOutsideWhile(op.loc));
      }
      var top := stack[|stack| - 1];
      program[i] := program[i].(jumpTo := top);
      stack := stack[..|stack| - 1];
      stack := stack + [i];
    } else if op.kind == End {
      if stack == [] {
        return Err(EndWithoutBlock(op.loc));
      }
      var pos := stack[|stack| - 1];
      stack := stack[..|stack| - 1];
      if program[pos].kind == If || program[pos].kind == Else {
        program[pos] := program[pos].(jumpTo := i);
      } else if program[pos].kind == Do {
        program[i] := program[i].(jumpTo := program[pos].jumpTo);
        program[pos] := program[pos].(jumpTo := i + 1);
      } else {
        return Err(EndClosesOther(op.loc));
      }
    }
    r := Ok(stack);
  }

  /** `crossreference_blocks`, rewriting `JumpTo` of the program's ops in place. */
  method CrossreferenceBlocks(program: array<Operation>) returns (r: Result<(), XrefError>)
    modifies program
    ensures r.Ok? <==> Xref(old(program[..])).Ok?
    ensures r.Ok? ==> program[..] == Xref(old(program[..])).value
    ensures r.Err? ==> Xref(old(program[..])) == Err(r.error)
  {
    ghost var p0 := program[..];
    var stack: seq<nat> := [];
    var i := 0;
    while i < program.Length
      invariant 0 <= i <= program.Length
      invariant StackBelow(stack, i)
      invariant XrefFrom(program[..], i, stack) == Xref(p0)
    {
      ghost var before := program[..];
      ghost var stack0 := stack;
      var next := XrefIteration(program, i, stack);
      if next.Err? {
        return Err(next.error);
      }
      stack := next.value;
      XrefFromStep(before, i, stack0, program[..], stack);
      i := i + 1;
    }
    if stack != [] {
      var latest := stack[|stack| - 1];
      return Err(UnclosedBlock(program[latest].loc));
    }
    r := Ok(());
  }

  /**
   * From op `i` on, every `do` takes over a block a `while` opened, and no `else` takes over
   * the block of a `do`. The pass itself checks neither: `do` takes whatever block is open,
   * and so does `else`.
   */
  predicate DoFollowsWhileFrom(p: seq<Operation>, i: nat, stack: seq<nat>)
    requires i <= |p| && StackBelow(stack, i)
    decreases |p| - i
  {
    i < |p| ==>
      (stack != [] && p[i].kind.Do? ==> p[stack[|stack| - 1]].kind.While?) &&
      (stack != [] && p[i].kind.Else? ==> !p[stack[|stack| - 1]].kind.Do?) &&
      (XrefStep(p, i, stack).Ok? ==>
         DoFollowsWhileFrom(XrefStep(p, i, stack).value.0, i + 1, XrefStep(p, i, stack).value.1))
  }

  predicate DoFollowsWhile(p: seq<Operation>)
  {
    DoFollowsWhileFrom(p, 0, [])
  }

  // ---------------------------------------------------------------------------------
  // What the pass may change

  /**
   * One iteration changes only `JumpTo` fields, and only to targets within `[0, len]`;
   * an `if` or `while` pushes one index, an `end` pops one, the others keep the height.
   */
  lemma XrefStepInvariants(p: seq<Operation>, i: nat, stack: seq<nat>)
    requires i < |p| && StackBelow(stack, i) && XrefStep(p, i, stack).Ok?
    ensures SameExceptJumps(p, XrefStep(p, i, stack).value.0)
    ensures JumpsWithin(p, |p|) ==> JumpsWithin(XrefStep(p, i, stack).value.0, |p|)
    ensures |XrefStep(p, i, stack).value.1|
            == |stack| + (if Opens(p[i].kind) then 1 else 0) - (if p[i].kind == End then 1 else 0)
  {
  }

  lemma {:induction false} XrefFromKeepsOps(p: seq<Operation>, i: nat, stack: seq<nat>)
    requires i <= |p| && StackBelow(stack, i)
    requires XrefFrom(p, i, stack).Ok?
    ensures SameExceptJumps(p, XrefFrom(p, i, stack).value)
    decreases |p| - i
  {
    if i < |p| {
      var (q, stack') := XrefStep(p, i, stack).value;
      XrefFromStep(p, i, stack, q, stack');
      XrefStepInvariants(p, i, stack);
      XrefFromKeepsOps(q, i + 1, stack');
    }
  }

  /** Cross-referencing keeps every op, its kind, values and location; only `JumpTo` changes. */
  lemma XrefKeepsOps(p: seq<Operation>)
    requires Xref(p).Ok?
    ensures SameExceptJumps(p, Xref(p).value)
  {
    XrefFromKeepsOps(p, 0, []);
  }

  lemma {:induction false} XrefFromJumpsWithin(p: seq<Operation>, i: nat, stack: seq<nat>)
    requires i <= |p| && StackBelow(stack, i) && JumpsWithin(p, |p|)
    requires XrefFrom(p, i, stack).Ok?
    ensures JumpsWithin(XrefFrom(p, i, stack).value, |p|)
    decreases |p| - i
  {
    if i < |p| {
      var (q, stack') := XrefStep(p, i, stack).value;
      XrefFromStep(p, i, stack, q, stack');
      XrefStepInvariants(p, i, stack);
      XrefFromJumpsWithin(q, i + 1, stack');
    }
  }

  /**
   * Starting from targets within `[0, len]` (the parser leaves them all 0), every
   * `JumpTo` written lies in `[0, len]`: an index of the program, or one past its end.
   */
  lemma XrefJumpsWithin(p: seq<Operation>)
    requires JumpsWithin(p, |p|)
    requires Xref(p).Ok?
    ensures JumpsWithin(Xref(p).value, |p|)
  {
    XrefFromJumpsWithin(p, 0, []);
  }

  // ---------------------------------------------------------------------------------
  // Balance

  /** The number of ops with a kind in `ks` from index `i` on. */
  function CountFrom(p: seq<Operation>, i: nat, ks: set<OpType>): nat
    requires i <= |p|
    decreases |p| - i
  {
    if i == |p| then 0 else (if p[i].kind in ks then 1 else 0) + CountFrom(p, i + 1, ks)
  }

  lemma {:induction false} CountFromSameKinds(p: seq<Operation>, q: seq<Operation>, i: nat, ks: set<OpType>)
    requires i <= |p| && SameExceptJumps(p, q)
    ensures CountFrom(q, i, ks) == CountFrom(p, i, ks)
    decreases |p| - i
  {
    if i < |p| {
      assert q[i].kind == p[i].kind;
      CountFromSameKinds(p, q, i + 1, ks);
    }
  }

  lemma CountFromStep(p: seq<Operation>, q: seq<Operation>, i: nat, ks: set<OpType>)
    requires i < |p| && SameExceptJumps(p, q)
    ensures CountFrom(p, i, ks) == (if p[i].kind in ks then 1 else 0) + CountFrom(q, i + 1, ks)
  {
    CountFromSameKinds(p, q, i + 1, ks);
  }

  lemma {:induction false} XrefFromBalanced(p: seq<Operation>, i: nat, stack: seq<nat>)
    requires i <= |p| && StackBelow(stack, i)
    requires XrefFrom(p, i, stack).Ok?
    ensures |stack| + CountFrom(p, i, {If, While}) == CountFrom(p, i, {End})
    decreases |p| - i
  {
    if i < |p| {
      var (q, stack') := XrefStep(p, i, stack).value;
      XrefFromStep(p, i, stack, q, stack');
      XrefStepInvariants(p, i, stack);
      XrefFromBalanced(q, i + 1, stack');
      CountFromStep(p, q, i, {If, While});
      CountFromStep(p, q, i, {End});
    }
  }

  /** A program that cross-references has exactly as many `end`s as `if`s and `while`s. */
  lemma XrefBalanced(p: seq<Operation>)
    requires Xref(p).Ok?
    ensures CountFrom(p, 0, {If, While}) == CountFrom(p, 0, {End})
  {
    XrefFromBalanced(p, 0, []);
  }

  // ---------------------------------------------------------------------------------
  // The links of single blocks

  predicate IsBlockOp(k: OpType) { k == If || k == While || k == Else || k == Do || k == End }

  lemma {:induction false} XrefSkip(p: seq<Operation>, i: nat, j: nat, stack: seq<nat>)
    requires i <= j <= |p| && StackBelow(stack, i)
    requires forall k :: i <= k < j ==> !IsBlockOp(p[k].kind)
    ensures StackBelow(stack, j)
    ensures XrefFrom(p, i, stack) == XrefFrom(p, j, stack)
    decreases j - i
  {
    if i < j {
      XrefStepPlain(p, i, stack);
      XrefFromStep(p, i, stack, p, stack);
      XrefSkip(p, i + 1, j, stack);
    }
  }

  /** An op that opens or closes no block changes neither the program nor the stack. */
  lemma XrefStepPlain(p: seq<Operation>, i: nat, stack: seq<nat>)
    requires i < |p| && StackBelow(stack, i) && !IsBlockOp(p[i].kind)
    ensures XrefStep(p, i, stack) == Ok((p, stack))
  {
  }

  /** The ops other than those at the listed indices open or close no block. */
  predicate OnlyBlocksAt(p: seq<Operation>, at: set<nat>)
  {
    forall k :: 0 <= k < |p| && k !in at ==> !IsBlockOp(p[k].kind)
  }

  /** Up to and over the first block op, an opener at `a`. */
  lemma XrefOpenFirst(p: seq<Operation>, a: nat)
    requires a < |p| && Opens(p[a].kind)
    requires forall k :: 0 <= k < a ==> !IsBlockOp(p[k].kind)
    ensures Xref(p) == XrefFrom(p, a + 1, [a])
  {
    XrefSkip(p, 0, a, []);
    assert [] + [a] == [a];
    XrefFromStep(p, a, [], p, [a]);
  }

  /** Up to `b`, past the only block op before it, an opener at `a`. */
  lemma XrefOpenUpTo(p: seq<Operation>, a: nat, b: nat)
    requires a < b <= |p| && Opens(p[a].kind)
    requires forall k :: 0 <= k < b && k != a ==> !IsBlockOp(p[k].kind)
    ensures Xref(p) == XrefFrom(p, b, [a])
  {
    XrefOpenFirst(p, a);
    XrefSkip(p, a + 1, b, [a]);
  }

  /** An `else` at `i` replacing the single open block `pos`. */
  lemma XrefElse(p: seq<Operation>, i: nat, pos: nat)
    requires pos < i < |p| && p[i].kind == Else
    ensures XrefFrom(p, i, [pos]) == XrefFrom(SetJump(p, pos, i + 1), i + 1, [i])
  {
    assert [pos][|[pos]| - 1] == pos && [pos][..0] + [i] == [i];
    assert XrefStep(p, i, [pos]) == Ok((SetJump(p, pos, i + 1), [i]));
    XrefFromStep(p, i, [pos], SetJump(p, pos, i + 1), [i]);
  }

  /** A `do` at `i` replacing the single open block `pos`. */
  lemma XrefDo(p: seq<Operation>, i: nat, pos: nat)
    requires pos < i < |p| && p[i].kind == Do
    ensures XrefFrom(p, i, [pos]) == XrefFrom(SetJump(p, i, pos), i + 1, [i])
  {
    assert [pos][|[pos]| - 1] == pos && [pos][..0] + [i] == [i];
    assert XrefStep(p, i, [pos]) == Ok((SetJump(p, i, pos), [i]));
    XrefFromStep(p, i, [pos], SetJump(p, i, pos), [i]);
  }

  /** After the last block op, the run to the end of the program with no block open. */
  lemma XrefFinish(p: seq<Operation>, q: seq<Operation>, c: nat)
    requires c < |p| && |q| == |p|
    requires forall k :: c < k < |p| ==> !IsBlockOp(p[k].kind) && q[k].kind == p[k].kind
    ensures XrefFrom(q, c + 1, []) == Ok(q)
  {
    XrefSkip(q, c + 1, |q|, []);
  }

  /** The `end` at `c` closing the single open block `pos`, an `if` or `else`, with no block op after it. */
  lemma XrefCloseIf(p: seq<Operation>, c: nat, pos: nat)
    requires pos < c < |p| && p[c].kind == End && (p[pos].kind == If || p[pos].kind == Else)
    requires forall k :: c < k < |p| ==> !IsBlockOp(p[k].kind)
    ensures XrefFrom(p, c, [pos]) == Ok(SetJump(p, pos, c))
  {
    var q := SetJump(p, pos, c);
    assert [pos][|[pos]| - 1] == pos && [pos][..0] == [];
    assert XrefStep(p, c, [pos]) == Ok((q, []));
    XrefFromStep(p, c, [pos], q, []);
    XrefFinish(p, q, c);
  }

  /** The `end` at `c` closing the single open block `pos`, a `do`, with no block op after it. */
  lemma XrefCloseDo(p: seq<Operation>, c: nat, pos: nat)
    requires pos < c < |p| && p[c].kind == End && p[pos].kind == Do
    requires forall k :: c < k < |p| ==> !IsBlockOp(p[k].kind)
    ensures XrefFrom(p, c, [pos]) == Ok(SetJump(SetJump(p, c, p[pos].jumpTo), pos, c + 1))
  {
    var q := SetJump(SetJump(p, c, p[pos].jumpTo), pos, c + 1);
    assert [pos][|[pos]| - 1] == pos && [pos][..0] == [];
    assert XrefStep(p, c, [pos]) == Ok((q, []));
    XrefFromStep(p, c, [pos], q, []);
    XrefFinish(p, q, c);
  }

  /** From just past the open block `b`, an `if` or `else`, to the end: closed by the `end` at `c`. */
  lemma XrefCloseIfAfter(p: seq<Operation>, b: nat, c: nat)
    requires b < c < |p| && p[c].kind == End && (p[b].kind == If || p[b].kind == Else)
    requires forall k :: b < k < |p| && k != c ==> !IsBlockOp(p[k].kind)
    ensures XrefFrom(p, b + 1, [b]) == Ok(SetJump(p, b, c))
  {
    calc {
      XrefFrom(p, b + 1, [b]);
      { XrefSkip(p, b + 1, c, [b]); }
      XrefFrom(p, c, [b]);
      { XrefCloseIf(p, c, b); }
      Ok(SetJump(p, b, c));
    }
  }

  /** From just past the open block `b`, a `do`, to the end: closed by the `end` at `c`. */
  lemma XrefCloseDoAfter(p: seq<Operation>, b: nat, c: nat)
    requires b < c < |p| && p[c].kind == End && p[b].kind == Do
    requires forall k :: b < k < |p| && k != c ==> !IsBlockOp(p[k].kind)
    ensures XrefFrom(p, b + 1, [b]) == Ok(SetJump(SetJump(p, c, p[b].jumpTo), b, c + 1))
  {
    calc {
      XrefFrom(p, b + 1, [b]);
      { XrefSkip(p, b + 1, c, [b]); }
      XrefFrom(p, c, [b]);
      { XrefCloseDo(p, c, b); }
      Ok(SetJump(SetJump(p, c, p[b].jumpTo), b, c + 1));
    }
  }

  /** `r` is `p` with `JumpTo` of the ops at the keys of `targets` set as it says, nothing else changed. */
  predicate LinkedAs(p: seq<Operation>, r: seq<Operation>, targets: map<nat, int>)
  {
    |r| == |p| &&
    forall k :: 0 <= k < |p| ==>
      r[k] == (if k in targets then p[k].(jumpTo := targets[k]) else p[k])
  }

  lemma LinkedTwo(p: seq<Operation>, a: nat, x: int, b: nat, y: int)
    requires a < |p| && b < |p| && a != b
    ensures LinkedAs(p, SetJump(SetJump(p, a, x), b, y), map[a := x, b := y])
  {
  }

  /**
   * `if … end`: the `if` jumps to its `end`; the `end` keeps its `JumpTo` (0 as the
   * parser leaves it), since nothing writes the `JumpTo` of an `end` closing an `if`.
   */
  lemma XrefIfEnd(p: seq<Operation>, a: nat, b: nat)
    requires a < b < |p| && p[a].kind == If && p[b].kind == End && OnlyBlocksAt(p, {a, b})
    ensures Xref(p).Ok? && LinkedAs(p, Xref(p).value, map[a := b])
  {
    XrefOpenUpTo(p, a, b);
    XrefCloseIf(p, b, a);
  }

  /** `if … else … end`: the `if` jumps just past the `else`, the `else` to the `end`. */
  lemma XrefIfElseEnd(p: seq<Operation>, a: nat, b: nat, c: nat)
    requires a < b < c < |p| && p[a].kind == If && p[b].kind == Else && p[c].kind == End
    requires OnlyBlocksAt(p, {a, b, c})
    ensures Xref(p).Ok? && LinkedAs(p, Xref(p).value, map[a := b + 1, b := c])
  {
    XrefIfElseEndRun(p, a, b, c);
    LinkedTwo(p, a, b + 1, b, c);
  }

  lemma XrefIfElseEndRun(p: seq<Operation>, a: nat, b: nat, c: nat)
    requires a < b < c < |p| && p[a].kind == If && p[b].kind == Else && p[c].kind == End
    requires OnlyBlocksAt(p, {a, b, c})
    ensures Xref(p) == Ok(SetJump(SetJump(p, a, b + 1), b, c))
  {
    XrefOpenUpTo(p, a, b);
    XrefElse(p, b, a);
    var q := SetJump(p, a, b + 1);
    assert forall k :: a < k < |p| ==> q[k] == p[k];
    XrefCloseIfAfter(q, b, c);
  }

  /**
   * `while … do … end`: the `do` jumps just past the `end`, and the `end` jumps back to
   * the `while`.
   */
  lemma XrefWhileDoEnd(p: seq<Operation>, a: nat, b: nat, c: nat)
    requires a < b < c < |p| && p[a].kind == While && p[b].kind == Do && p[c].kind == End
    requires OnlyBlocksAt(p, {a, b, c})
    ensures Xref(p).Ok? && LinkedAs(p, Xref(p).value, map[b := c + 1, c := a])
  {
    XrefOpenDoEndRun(p, a, b, c);
    LinkedTwo(p, c, a, b, c + 1);
  }

  /**
   * `do` takes whatever block is open, `if` included: `… do … end` after either opener links
   * the same way.
   */
  lemma XrefOpenDoEndRun(p: seq<Operation>, a: nat, b: nat, c: nat)
    requires a < b < c < |p| && Opens(p[a].kind) && p[b].kind == Do && p[c].kind == End
    requires OnlyBlocksAt(p, {a, b, c})
    ensures Xref(p) == Ok(SetJump(SetJump(p, c, a), b, c + 1))
  {
    XrefOpenUpTo(p, a, b);
    XrefDo(p, b, a);
    var q := SetJump(p, b, a);
    assert forall k :: b < k < |p| ==> q[k] == p[k];
    assert q[b].kind == Do && q[b].jumpTo == a;
    XrefCloseDoAfter(q, b, c);
    assert SetJump(SetJump(q, c, a), b, c + 1) == SetJump(SetJump(p, c, a), b, c + 1);
  }

  /** A lone `if` is reported as an unclosed block at the `if`. */
  lemma XrefUnclosedIf(p: seq<Operation>, a: nat)
    requires a < |p| && p[a].kind == If && OnlyBlocksAt(p, {a})
    ensures Xref(p) == Err(UnclosedBlock(p[a].loc))
  {
    XrefOpenUpTo(p, a, |p|);
  }

  /** `while … end` without `do` is rejected at the `end`. */
  lemma XrefWhileEnd(p: seq<Operation>, a: nat, b: nat)
    requires a < b < |p| && p[a].kind == While && p[b].kind == End && OnlyBlocksAt(p, {a, b})
    ensures Xref(p) == Err(EndClosesOther(p[b].loc))
  {
    XrefOpenUpTo(p, a, b);
    assert [a][|[a]| - 1] == a;
    assert XrefStep(p, b, [a]) == Err(EndClosesOther(p[b].loc));
  }

  /** A program that opens no block is left as it is. */
  lemma XrefWithoutBlocks(p: seq<Operation>)
    requires OnlyBlocksAt(p, {})
    ensures Xref(p) == Ok(p)
  {
    XrefSkip(p, 0, |p|, []);
  }
}
