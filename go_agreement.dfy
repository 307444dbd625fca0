/**
 * The interpreter (internal/runner/runner.go) and the x86-64 generator
 * (internal/compiler/x86_64.go) agree on what each op does to the height of the stack: the
 * `push`es less the `pop`s of an op's fixed text are the change in height the interpreter
 * makes for it, whenever the stack holds what the op takes.
 */
module GoAgreement {
  import opened GoSyntax
  import Decimal
  import GoStack
  import GoRunner
  import GoX86

  function Effect(i: GoX86.Instruction): int
  {
    match i
    case Push(_) => 1
    case Pop(_) => -1
    case Other(_) => 0
  }

  /** The pushes less the pops of a fixed text. */
  function StackEffect(text: seq<GoX86.Instruction>): int
  {
    if text == [] then 0 else StackEffect(text[..|text| - 1]) + Effect(text[|text| - 1])
  }

  lemma EffectPrefix(t: seq<GoX86.Instruction>, k: nat)
    requires 0 < k <= |t|
    ensures StackEffect(t[..k]) == StackEffect(t[..k - 1]) + Effect(t[k - 1])
  {
    assert t[..k][..k - 1] == t[..k - 1];
  }

  /** The effect of a text of at most eight lines, line by line. */
  lemma Expand(t: seq<GoX86.Instruction>)
    requires |t| <= 8
    ensures StackEffect(t) ==
              (if |t| > 0 then Effect(t[0]) else 0) + (if |t| > 1 then Effect(t[1]) else 0)
              + (if |t| > 2 then Effect(t[2]) else 0) + (if |t| > 3 then Effect(t[3]) else 0)
              + (if |t| > 4 then Effect(t[4]) else 0) + (if |t| > 5 then Effect(t[5]) else 0)
              + (if |t| > 6 then Effect(t[6]) else 0) + (if |t| > 7 then Effect(t[7]) else 0)
  {
    var k := 0;
    while k < |t|
      invariant 0 <= k <= |t|
      invariant StackEffect(t[..k]) ==
              (if k > 0 then Effect(t[0]) else 0) + (if k > 1 then Effect(t[1]) else 0)
              + (if k > 2 then Effect(t[2]) else 0) + (if k > 3 then Effect(t[3]) else 0)
              + (if k > 4 then Effect(t[4]) else 0) + (if k > 5 then Effect(t[5]) else 0)
              + (if k > 6 then Effect(t[6]) else 0) + (if k > 7 then Effect(t[7]) else 0)
    {
      EffectPrefix(t, k + 1);
      k := k + 1;
    }
    assert t[..|t|] == t;
  }

  /** How many entries an op takes from the stack. */
  function Arity(c: Code): nat
  {
    if GoRunner.IsBinary(c) then 2
    else if c.Put? || c.Copy? || c.Drop? then 1
    else if c.TwoCopy? || c.Swap? || c.Over? then 2
    else if GoRunner.IsSyscall(c) then GoX86.SyscallArgCount(c) + 1
    else 0
  }

  lemma FixedSyscall(c: Code)
    requires GoX86.IsSyscall(c)
    ensures GoX86.FixedText(c) == GoX86.SyscallText(c)
  {
  }

  lemma BinaryTextEffect(comment: string, first: string, second: string, operation: string, result: string)
    ensures StackEffect(GoX86.BinaryText(comment, first, second, operation, result)) == -1
  {
    Expand(GoX86.BinaryText(comment, first, second, operation, result));
  }

  lemma ComparisonTextEffect(comment: string, compare: string, move: string)
    ensures StackEffect(GoX86.ComparisonText(comment, compare, move)) == -1
  {
    Expand(GoX86.ComparisonText(comment, compare, move));
  }

  lemma ArithmeticEffects(c: Code)
    requires GoX86.IsArithmetic(c)
    ensures StackEffect(GoX86.ArithmeticText(c)) == -1
  {
    if c.Div? || c.Mod? {
      Expand(GoX86.ArithmeticText(c));
    } else {
      forall comment, first, second, operation, result
        ensures StackEffect(GoX86.BinaryText(comment, first, second, operation, result)) == -1
      {
        BinaryTextEffect(comment, first, second, operation, result);
      }
    }
  }

  lemma ComparisonEffects(c: Code)
    requires GoX86.IsComparison(c)
    ensures StackEffect(GoX86.CompareText(c)) == -1
  {
    forall comment, compare, move
      ensures StackEffect(GoX86.ComparisonText(comment, compare, move)) == -1
    {
      ComparisonTextEffect(comment, compare, move);
    }
  }

  /** Every binary op pops two and pushes one. */
  lemma BinaryEffects(c: Code)
    requires GoRunner.IsBinary(c)
    ensures StackEffect(GoX86.FixedText(c)) == -1
  {
    if GoX86.IsArithmetic(c) {
      ArithmeticEffects(c);
    } else {
      ComparisonEffects(c);
    }
  }

  lemma ShuffleEffects()
    ensures StackEffect(GoX86.FixedText(Copy)) == 1 && StackEffect(GoX86.FixedText(TwoCopy)) == 2
    ensures StackEffect(GoX86.FixedText(Swap)) == 0 && StackEffect(GoX86.FixedText(Drop)) == -1
    ensures StackEffect(GoX86.FixedText(Over)) == 1 && StackEffect(GoX86.FixedText(Put)) == -1
  {
    Expand(GoX86.FixedText(Copy));
    Expand(GoX86.FixedText(TwoCopy));
    Expand(GoX86.FixedText(Swap));
    Expand(GoX86.FixedText(Drop));
    Expand(GoX86.FixedText(Over));
    Expand(GoX86.FixedText(Put));
  }

  lemma {:induction false} EffectAppend(a: seq<GoX86.Instruction>, b: seq<GoX86.Instruction>)
    ensures StackEffect(a + b) == StackEffect(a) + StackEffect(b)
    decreases |b|
  {
    if b == [] {
      assert a + b == a;
    } else {
      assert (a + b)[..|a + b| - 1] == a + b[..|b| - 1];
      EffectAppend(a, b[..|b| - 1]);
    }
  }

  lemma {:induction false} PopsEffect(t: seq<GoX86.Instruction>)
    requires forall j | 0 <= j < |t| :: t[j].Pop?
    ensures StackEffect(t) == -|t|
  {
    if t != [] {
      PopsEffect(t[..|t| - 1]);
    }
  }

  /** `syscallN` pops the number and `N` arguments and pushes the result. */
  lemma SyscallEffects(c: Code)
    requires GoRunner.IsSyscall(c)
    ensures StackEffect(GoX86.FixedText(c)) == -(GoX86.SyscallArgCount(c) as int)
  {
    var n := GoX86.SyscallArgCount(c);
    var head: seq<GoX86.Instruction> := [GoX86.Comment("syscall" + Decimal.IntToString(n)), GoX86.Pop("rax")];
    var pops := seq(n, j requires 0 <= j < n => GoX86.Pop(GoX86.ArgumentRegisters[j]));
    var tail: seq<GoX86.Instruction> := [GoX86.Other("    syscall"), GoX86.Push("rax")];
    FixedSyscall(c);
    assert GoX86.SyscallText(c) == head + pops + tail;
    EffectAppend(head + pops, tail);
    EffectAppend(head, pops);
    PopsEffect(pops);
    Expand(head);
    Expand(tail);
  }

  lemma BelowHeight(s: seq<int>)
    requires |s| > 0
    ensures |GoStack.Below(s)| == |s| - 1
  {
  }

  /** A binary op that succeeds leaves one entry where there were two. */
  lemma BinaryHeight(c: Code, s: seq<int>)
    requires GoRunner.IsBinary(c) && |s| >= 2 && GoRunner.BinaryStack(c, s).Ok?
    ensures |GoRunner.BinaryStack(c, s).value| == |s| - 1
  {
    BelowHeight(s);
    BelowHeight(GoStack.Below(s));
  }

  lemma ShuffleHeight(c: Code, s: seq<int>)
    requires GoRunner.IsShuffle(c) && |s| >= Arity(c)
    ensures |GoRunner.Shuffle(c, s)| ==
              |s| + (if c.Copy? || c.Over? then 1 else if c.TwoCopy? then 2 else if c.Swap? then 0 else -1)
  {
    BelowHeight(s);
    if !c.Copy? && !c.Drop? {
      BelowHeight(GoStack.Below(s));
    }
  }

  /** `syscallN` takes the number and `N` arguments and leaves one result. */
  lemma SyscallHeight(c: Code, kernel: GoRunner.Kernel, s: seq<int>, memory: string)
    requires GoRunner.IsSyscall(c) && |s| >= Arity(c) && GoRunner.SyscallStep(c, kernel, s, memory).Ok?
    ensures |GoRunner.SyscallStep(c, kernel, s, memory).value.0| == |s| - GoX86.SyscallArgCount(c)
  {
    var s1 := GoStack.Below(s);
    BelowHeight(s);
    if !c.Syscall0? {
      BelowHeight(s1);
      if !c.Syscall1? {
        BelowHeight(GoStack.Below(s1));
        if !c.Syscall2? {
          BelowHeight(GoStack.Below(GoStack.Below(s1)));
        }
      }
    }
  }

  lemma BinaryAgrees(c: Code, s: seq<int>)
    requires GoRunner.IsBinary(c) && |s| >= 2 && GoRunner.BinaryStack(c, s).Ok?
    ensures |GoRunner.BinaryStack(c, s).value| == |s| + StackEffect(GoX86.FixedText(c))
  {
    BinaryHeight(c, s);
    BinaryEffects(c);
  }

  lemma ShuffleAgrees(c: Code, s: seq<int>)
    requires GoRunner.IsShuffle(c) && |s| >= Arity(c)
    ensures |GoRunner.Shuffle(c, s)| == |s| + StackEffect(GoX86.FixedText(c))
  {
    ShuffleHeight(c, s);
    ShuffleEffects();
  }

  lemma SyscallAgrees(c: Code, kernel: GoRunner.Kernel, s: seq<int>, memory: string)
    requires GoRunner.IsSyscall(c) && |s| >= Arity(c) && GoRunner.SyscallStep(c, kernel, s, memory).Ok?
    ensures |GoRunner.SyscallStep(c, kernel, s, memory).value.0| == |s| + StackEffect(GoX86.FixedText(c))
  {
    SyscallHeight(c, kernel, s, memory);
    SyscallEffects(c);
  }

  lemma PutAgrees(s: seq<int>)
    requires |s| >= 1
    ensures |GoStack.Below(s)| == |s| + StackEffect(GoX86.FixedText(Put))
  {
    BelowHeight(s);
    ShuffleEffects();
  }

  /**
   * The interpreter and the generator agree on every op with fixed text: when the stack holds
   * what the op takes and the interpreter's step succeeds, the stack grows by the pushes less
   * the pops of the op's x86-64 text.
   */
  lemma StepAgrees(program: seq<Op>, kernel: GoRunner.Kernel, m: GoRunner.Machine)
    requires 0 <= m.pc < |program| && GoX86.IsFixed(program[m.pc].code)
    requires |m.stack| >= Arity(program[m.pc].code)
    requires GoRunner.Step(program, kernel, m).Ok?
    ensures |GoRunner.Step(program, kernel, m).value.stack| ==
              |m.stack| + StackEffect(GoX86.FixedText(program[m.pc].code))
  {
    var c := program[m.pc].code;
    if GoRunner.IsBinary(c) {
      BinaryAgrees(c, m.stack);
    } else if GoRunner.IsShuffle(c) {
      ShuffleAgrees(c, m.stack);
    } else if GoRunner.IsSyscall(c) {
      SyscallAgrees(c, kernel, m.stack, m.memory);
    } else {
      PutAgrees(m.stack);
    }
  }
}
