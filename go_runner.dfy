/**
 * The interpreter of the Go rewrite (internal/runner/runner.go): a program counter walks the
 * cross-referenced program, values live on a `stack.Stack`, string literals are copied into
 * a byte buffer, and `put` and the emulated `write` system call produce output. Real system
 * calls are answered by a `Kernel` passed in; the number of steps is bounded by `fuel`.
 */
module GoRunner {
  import opened Wrappers
  import opened Decimal
  import opened GoSyntax
  import GoStack

  /** A write to standard output (fd 1) or standard error (fd 2). */
  datatype Write = Write(fd: int, text: string)

  /** The result `syscall.Syscall` returns for a call number and its arguments. */
  type Kernel = (int, seq<int>) -> int

  /** The capacity `make([]byte, 0, 640000)` gives the string buffer. */
  const MemoryCapacity := 640000

  /** The runtime panics and fatal errors of `Run`. */
  datatype Fault =
    | IntegerDivideByZero
    | NegativeShiftAmount
    | IndexOutOfRange        // `program[i]` or `program[op.JumpTo]` outside the program
    | SliceBoundsOutOfRange  // `memory[buf : buf+n]` outside the buffer
    | UnknownFileDescriptor  // an emulated write to neither fd 1 nor fd 2
    | Unreachable            // an opcode `Run` has no case for (`puts`)

  /** The loop variables of `Run`: `i`, the stack, `memory`, `strintsSize`, and the output so far. */
  datatype Machine = Machine(pc: int, stack: seq<int>, memory: string, stringsSize: int, output: seq<Write>)

  datatype Outcome =
    | Halted(final: Machine)            // the program counter left the program
    | Failed(at: Machine, fault: Fault) // the step from `at` failed
    | OutOfFuel(last: Machine)

  // ---------------------------------------------------------------------------------
  // Go's integer operators on unbounded integers

  function Abs(x: int): nat { if x < 0 then -x else x }

  /** Go's `/`: the quotient truncated toward zero. */
  function Quot(b: int, a: int): int
    requires a != 0
  {
    var q := Abs(b) / Abs(a);
    if (b < 0) == (a < 0) then q else -q
  }

  /** Go's `%`: what `Quot` leaves over. */
  function Rem(b: int, a: int): int
    requires a != 0
  {
    b - a * Quot(b, a)
  }

  /** The remainder is smaller than the divisor and takes the sign of the dividend. */
  lemma QuotRem(b: int, a: int)
    requires a != 0
    ensures b == a * Quot(b, a) + Rem(b, a)
    ensures Abs(Rem(b, a)) < Abs(a)
    ensures b >= 0 ==> Rem(b, a) >= 0
    ensures b < 0 ==> Rem(b, a) <= 0
  {
    var q := Abs(b) / Abs(a);
    var r := Abs(b) % Abs(a);
    assert Abs(b) == Abs(a) * q + r && 0 <= r < Abs(a);
    if b >= 0 && a > 0 {
      assert Rem(b, a) == r;
    } else if b >= 0 {
      assert a * Quot(b, a) == (-a) * q;
      assert Rem(b, a) == r;
    } else if a > 0 {
      assert a * Quot(b, a) == -(a * q);
      assert Rem(b, a) == -r;
    } else {
      assert a * Quot(b, a) == -((-a) * q);
      assert Rem(b, a) == -r;
    }
  }

  function Pow2(n: nat): nat
  {
    if n == 0 then 1 else 2 * Pow2(n - 1)
  }

  /** Go's `>>` on a signed value: an arithmetic shift, the quotient by `2^a` rounded down. */
  function ShiftRight(b: int, a: nat): (r: int)
    ensures Pow2(a) * r <= b < Pow2(a) * (r + 1)
  {
    PowPositive(a);
    b / Pow2(a)
  }

  lemma {:induction false} PowPositive(n: nat)
    ensures Pow2(n) > 0
  {
    if n > 0 {
      PowPositive(n - 1);
    }
  }

  lemma HalfSmaller(x: int)
    requires x != 0 && x != -1
    ensures Abs(x / 2) < Abs(x)
  {
  }

  /** `&` on two's complement integers of unbounded width, bit by bit from the lowest. */
  function BitAnd(x: int, y: int): int
    decreases Abs(x) + Abs(y)
  {
    if x == 0 || y == 0 then 0
    else if x == -1 then y
    else if y == -1 then x
    else
      HalfSmaller(x);
      HalfSmaller(y);
      2 * BitAnd(x / 2, y / 2) + (x % 2) * (y % 2)
  }

  /** `|`. */
  function BitOr(x: int, y: int): int
    decreases Abs(x) + Abs(y)
  {
    if x == 0 then y
    else if y == 0 then x
    else if x == -1 || y == -1 then -1
    else
      HalfSmaller(x);
      HalfSmaller(y);
      2 * BitOr(x / 2, y / 2) + (if x % 2 == 1 || y % 2 == 1 then 1 else 0)
  }

  /** `^`. */
  function BitXor(x: int, y: int): int
    decreases Abs(x) + Abs(y)
  {
    if x == 0 then y
    else if y == 0 then x
    else if x == -1 then -1 - y
    else if y == -1 then -1 - x
    else
      HalfSmaller(x);
      HalfSmaller(y);
      2 * BitXor(x / 2, y / 2) + (x % 2 + y % 2) % 2
  }

  /** The runner pushes `a | b`, `a & b` and `a ^ b`; the order of the operands does not matter. */
  lemma {:induction false} BitwiseCommute(x: int, y: int)
    ensures BitAnd(x, y) == BitAnd(y, x) && BitOr(x, y) == BitOr(y, x) && BitXor(x, y) == BitXor(y, x)
    decreases Abs(x) + Abs(y)
  {
    if x != 0 && y != 0 && x != -1 && y != -1 {
      HalfSmaller(x);
      HalfSmaller(y);
      BitwiseCommute(x / 2, y / 2);
    }
  }

  /** `x ^ x` is 0 and `x & x`, `x | x` are `x`. */
  lemma {:induction false} BitwiseSelf(x: int)
    ensures BitXor(x, x) == 0 && BitAnd(x, x) == x && BitOr(x, x) == x
    decreases Abs(x)
  {
    if x != 0 && x != -1 {
      HalfSmaller(x);
      BitwiseSelf(x / 2);
    }
  }

  // ---------------------------------------------------------------------------------
  // The cases of the switch

  predicate IsComparison(c: Code) { c.Eq? || c.Ne? || c.Lt? || c.Gt? || c.Le? || c.Ge? }

  predicate IsBinary(c: Code)
  {
    c.Plus? || c.Minus? || c.Mul? || c.Div? || c.Mod? || c.Bor? || c.Band? || c.Xor? || c.Shl? || c.Shr?
    || IsComparison(c)
  }

  predicate IsShuffle(c: Code) { c.Copy? || c.TwoCopy? || c.Swap? || c.Drop? || c.Over? }

  predicate IsSyscall(c: Code) { c.Syscall0? || c.Syscall1? || c.Syscall2? || c.Syscall3? }

  function Compare(c: Code, b: int, a: int): bool
    requires IsComparison(c)
  {
    if c.Eq? then a == b else if c.Ne? then a != b
    else if c.Lt? then b < a else if c.Gt? then b > a
    else if c.Le? then b <= a else b >= a
  }

  /** The value a binary op computes from the entry `b` below the top `a`. */
  function BinaryValue(c: Code, b: int, a: int): Result<int, Fault>
    requires IsBinary(c)
  {
    if IsComparison(c) then Ok(if Compare(c, b, a) then 1 else 0)
    else if c.Div? || c.Mod? then
      if a == 0 then Err(IntegerDivideByZero) else Ok(if c.Div? then Quot(b, a) else Rem(b, a))
    else if c.Shl? || c.Shr? then
      if a < 0 then Err(NegativeShiftAmount) else Ok(if c.Shl? then b * Pow2(a) else ShiftRight(b, a))
    else if c.Plus? then Ok(a + b)
    else if c.Minus? then Ok(b - a)
    else if c.Mul? then Ok(b * a)
    else if c.Bor? then Ok(BitOr(a, b))
    else if c.Band? then Ok(BitAnd(a, b))
    else Ok(BitXor(a, b))
  }

  /** A binary op pops `a`, then `b`, and pushes its value. */
  function BinaryStack(c: Code, s: seq<int>): Result<seq<int>, Fault>
    requires IsBinary(c)
  {
    var a := GoStack.Top(s);
    var b := GoStack.Top(GoStack.Below(s));
    var v := BinaryValue(c, b, a);
    if v.Err? then Err(v.error) else Ok(GoStack.Below(GoStack.Below(s)) + [v.value])
  }

  /** The stack shuffles. */
  function Shuffle(c: Code, s: seq<int>): seq<int>
    requires IsShuffle(c)
  {
    var a := GoStack.Top(s);
    var b := GoStack.Top(GoStack.Below(s));
    var rest := GoStack.Below(GoStack.Below(s));
    if c.Copy? then s + [a]
    else if c.Drop? then GoStack.Below(s)
    else if c.TwoCopy? then rest + [b] + [a] + [b] + [a]
    else if c.Swap? then rest + [a] + [b]
    else rest + [b] + [a] + [b]
  }

  /** The program counter and stack after a block op at `pc`. */
  function FlowStep(program: seq<Op>, pc: nat, s: seq<int>): Result<(int, seq<int>), Fault>
    requires pc < |program| && IsBlockCode(program[pc].code)
  {
    var op := program[pc];
    if op.code.If? || op.code.Do? then
      Ok((if GoStack.Top(s) == 0 then op.jumpTo else pc + 1, GoStack.Below(s)))
    else if op.code.Else? then Ok((op.jumpTo, s))
    else if op.code.End? then
      if op.jumpTo < 0 || op.jumpTo >= |program| then Err(IndexOutOfRange)
      else Ok((if program[op.jumpTo].code.While? then op.jumpTo else pc + 1, s))
    else Ok((pc + 1, s))
  }

  /**
   * `memory[buf : buf+n]`: within the buffer's capacity; bytes past its length read as 0.
   * Past the initial capacity, the capacity `append` grows to is up to Go's runtime; it is
   * taken to be the length.
   */
  function MemorySlice(memory: string, buf: int, n: int): Option<string>
  {
    var capacity := if |memory| > MemoryCapacity then |memory| else MemoryCapacity;
    if 0 <= buf && 0 <= n && buf + n <= capacity then
      Some(seq(n, k requires 0 <= k < n => if buf + k < |memory| then memory[buf + k] else '\0'))
    else None
  }

  /** A slice within the bytes stored reads them back. */
  lemma MemorySliceStored(memory: string, buf: int, n: int)
    requires 0 <= buf && 0 <= n && buf + n <= |memory|
    ensures MemorySlice(memory, buf, n) == Some(memory[buf..buf + n])
  {
    var capacity := if |memory| > MemoryCapacity then |memory| else MemoryCapacity;
    assert buf + n <= capacity;
    var sl := seq(n, k requires 0 <= k < n => if buf + k < |memory| then memory[buf + k] else '\0');
    assert MemorySlice(memory, buf, n) == Some(sl);
    assert sl == memory[buf..buf + n];
  }

  /** The emulated `write(fd, buf, n)`: the bytes and a newline go to fd 1 or 2, and `n` is pushed. */
  function WriteCall(s: seq<int>, memory: string, fd: int, buf: int, n: int): Result<(seq<int>, seq<Write>), Fault>
  {
    var text := MemorySlice(memory, buf, n);
    if text.None? then Err(SliceBoundsOutOfRange)
    else if fd == 1 || fd == 2 then Ok((s + [n], [Write(fd, text.value + "\n")]))
    else Err(UnknownFileDescriptor)
  }

  /** `syscallN` pops the number, then `N` arguments; only `syscall3` of number 1 is emulated. */
  function SyscallStep(c: Code, kernel: Kernel, s: seq<int>, memory: string): Result<(seq<int>, seq<Write>), Fault>
    requires IsSyscall(c)
  {
    var number := GoStack.Top(s);
    var s1 := GoStack.Below(s);
    var arg1 := GoStack.Top(s1);
    var s2 := GoStack.Below(s1);
    var arg2 := GoStack.Top(s2);
    var s3 := GoStack.Below(s2);
    var arg3 := GoStack.Top(s3);
    var s4 := GoStack.Below(s3);
    if c.Syscall0? then Ok((s1 + [kernel(number, [])], []))
    else if c.Syscall1? then Ok((s2 + [kernel(number, [arg1])], []))
    else if c.Syscall2? then Ok((s3 + [kernel(number, [arg1, arg2])], []))
    else if number == 1 then WriteCall(s4, memory, arg1, arg2, arg3)
    else Ok((s4 + [kernel(number, [arg1, arg2, arg3])], []))
  }

  /** Pushes, `put`, and the opcode with no case. */
  function DataStep(op: Op, m: Machine): Result<Machine, Fault>
  {
    if op.code.PushInt? then Ok(m.(pc := m.pc + 1, stack := m.stack + [op.intValue]))
    else if op.code.PushString? then
      var n := |op.stringValue|;
      Ok(m.(pc := m.pc + 1, stack := m.stack + [n, m.stringsSize],
            memory := m.memory + op.stringValue, stringsSize := m.stringsSize + n))
    else if op.code.Put? then
      Ok(m.(pc := m.pc + 1, stack := GoStack.Below(m.stack),
            output := m.output + [Write(1, IntToString(GoStack.Top(m.stack)) + "\n")]))
    else Err(Unreachable)
  }

  function OtherStep(op: Op, kernel: Kernel, m: Machine): Result<Machine, Fault>
  {
    if IsShuffle(op.code) then Ok(m.(pc := m.pc + 1, stack := Shuffle(op.code, m.stack)))
    else if IsSyscall(op.code) then
      var r := SyscallStep(op.code, kernel, m.stack, m.memory);
      if r.Err? then Err(r.error) else Ok(m.(pc := m.pc + 1, stack := r.value.0, output := m.output + r.value.1))
    else DataStep(op, m)
  }

  /** One iteration of the loop of `Run`, at op `m.pc`. */
  function Step(program: seq<Op>, kernel: Kernel, m: Machine): Result<Machine, Fault>
    requires 0 <= m.pc < |program|
  {
    var op := program[m.pc];
    if IsBinary(op.code) then
      var r := BinaryStack(op.code, m.stack);
      if r.Err? then Err(r.error) else Ok(m.(pc := m.pc + 1, stack := r.value))
    else if IsBlockCode(op.code) then
      var r := FlowStep(program, m.pc, m.stack);
      if r.Err? then Err(r.error) else Ok(m.(pc := r.value.0, stack := r.value.1))
    else OtherStep(op, kernel, m)
  }

  /** The loop of `Run` from `m`, for at most `fuel` iterations. */
  function Exec(program: seq<Op>, kernel: Kernel, m: Machine, fuel: nat): Outcome
    decreases fuel
  {
    if m.pc >= |program| then Halted(m)
    else if m.pc < 0 then Failed(m, IndexOutOfRange)
    else if fuel == 0 then OutOfFuel(m)
    else
      var r := Step(program, kernel, m);
      if r.Err? then Failed(m, r.error) else Exec(program, kernel, r.value, fuel - 1)
  }

  function Start(): Machine { Machine(0, [], "", 0, []) }

  // ---------------------------------------------------------------------------------
  // Run itself

  /** The arithmetic, bitwise and comparison cases: `a := Pop()`, `b := Pop()`, push the value. */
  method ExecuteBinary(c: Code, stack: GoStack.Stack) returns (fault: Option<Fault>)
    requires IsBinary(c)
    modifies stack
    ensures fault.None? ==> BinaryStack(c, old(stack.items)) == Ok(stack.items)
    ensures fault.Some? ==> BinaryStack(c, old(stack.items)) == Err(fault.value)
  {
    var a := stack.Pop();
    var b := stack.Pop();
    var v := BinaryValue(c, b, a);
    if v.Err? {
      return Some(v.error);
    }
    stack.Push(v.value);
    return None;
  }

  /** The block cases; the result is the next value of `i`. */
  method ExecuteFlow(program: seq<Op>, i: nat, stack: GoStack.Stack) returns (next: Result<int, Fault>)
    requires i < |program| && IsBlockCode(program[i].code)
    modifies stack
    ensures next.Ok? ==> FlowStep(program, i, old(stack.items)) == Ok((next.value, stack.items))
    ensures next.Err? ==> FlowStep(program, i, old(stack.items)) == Err(next.error)
  {
    var op := program[i];
    if op.code.If? || op.code.Do? {
      var a := stack.Pop();
      next := Ok(if a == 0 then op.jumpTo else i + 1);
    } else if op.code.Else? {
      next := Ok(op.jumpTo);
    } else if op.code.End? {
      if op.jumpTo < 0 || op.jumpTo >= |program| {
        return Err(IndexOutOfRange);
      }
      next := Ok(if program[op.jumpTo].code.While? then op.jumpTo else i + 1);
    } else {
      next := Ok(i + 1);
    }
  }

  /** `copy`, `2copy`, `swap`, `drop` and `over`. */
  method ExecuteShuffle(c: Code, stack: GoStack.Stack)
    requires IsShuffle(c)
    modifies stack
    ensures stack.items == Shuffle(c, old(stack.items))
  {
    if c.Copy? {
      stack.Push(stack.Peek());
    } else if c.Drop? {
      var _ := stack.Pop();
    } else {
      ExecuteReorder(c, stack);
    }
  }

  /** `2copy`, `swap` and `over`: `a := Pop()`, `b := Pop()`, then pushes of the two. */
  method ExecuteReorder(c: Code, stack: GoStack.Stack)
    requires c.TwoCopy? || c.Swap? || c.Over?
    modifies stack
    ensures stack.items == Shuffle(c, old(stack.items))
  {
    var a := stack.Pop();
    var b := stack.Pop();
    if c.TwoCopy? {
      stack.Push(b);
      stack.Push(a);
      stack.Push(b);
      stack.Push(a);
    } else if c.Swap? {
      stack.Push(a);
      stack.Push(b);
    } else {
      stack.Push(b);
      stack.Push(a);
      stack.Push(b);
    }
  }

  /** The system call cases; the result is what the call writes. */
  method ExecuteSyscall(c: Code, kernel: Kernel, stack: GoStack.Stack, memory: string)
    returns (r: Result<seq<Write>, Fault>)
    requires IsSyscall(c)
    modifies stack
    ensures r.Ok? ==> SyscallStep(c, kernel, old(stack.items), memory) == Ok((stack.items, r.value))
    ensures r.Err? ==> SyscallStep(c, kernel, old(stack.items), memory) == Err(r.error)
  {
    var number := stack.Pop();
    if c.Syscall0? {
      stack.Push(kernel(number, []));
      return Ok([]);
    }
    var arg1 := stack.Pop();
    if c.Syscall1? {
      stack.Push(kernel(number, [arg1]));
      return Ok([]);
    }
    var arg2 := stack.Pop();
    if c.Syscall2? {
      stack.Push(kernel(number, [arg1, arg2]));
      return Ok([]);
    }
    var arg3 := stack.Pop();
    if number != 1 {
      stack.Push(kernel(number, [arg1, arg2, arg3]));
      return Ok([]);
    }
    var text := MemorySlice(memory, arg2, arg3);
    if text.None? {
      return Err(SliceBoundsOutOfRange);
    }
    if arg1 != 1 && arg1 != 2 {
      return Err(UnknownFileDescriptor);
    }
    stack.Push(arg3);
    return Ok([Write(arg1, text.value + "\n")]);
  }

  /** One iteration of the loop of `Run`, on the loop's variables. */
  method Iterate(program: seq<Op>, kernel: Kernel, stack: GoStack.Stack, i: nat,
                 memory: string, stringsSize: int, output: seq<Write>)
    returns (r: Result<Machine, Fault>)
    requires i < |program|
    modifies stack
    ensures r == Step(program, kernel, Machine(i, old(stack.items), memory, stringsSize, output))
    ensures r.Ok? ==> r.value.stack == stack.items
  {
    ghost var m := Machine(i, stack.items, memory, stringsSize, output);
    var op := program[i];
    if IsBinary(op.code) {
      var fault := ExecuteBinary(op.code, stack);
      if fault.Some? {
        return Err(fault.value);
      }
      return Ok(Machine(i + 1, stack.items, memory, stringsSize, output));
    } else if IsBlockCode(op.code) {
      var next := ExecuteFlow(program, i, stack);
      if next.Err? {
        return Err(next.error);
      }
      return Ok(Machine(next.value, stack.items, memory, stringsSize, output));
    } else if IsShuffle(op.code) {
      ExecuteShuffle(op.code, stack);
      return Ok(Machine(i + 1, stack.items, memory, stringsSize, output));
    } else if IsSyscall(op.code) {
      var written := ExecuteSyscall(op.code, kernel, stack, memory);
      if written.Err? {
        return Err(written.error);
      }
      return Ok(Machine(i + 1, stack.items, memory, stringsSize, output + written.value));
    } else if op.code.PushInt? {
      stack.Push(op.intValue);
      return Ok(Machine(i + 1, stack.items, memory, stringsSize, output));
    } else if op.code.PushString? {
      var n := |op.stringValue|;
      stack.Push(n);
      stack.Push(stringsSize);
      assert stack.items == old(stack.items) + [n, stringsSize];
      return Ok(Machine(i + 1, stack.items, memory + op.stringValue, stringsSize + n, output));
    } else if op.code.Put? {
      var v := stack.Pop();
      return Ok(Machine(i + 1, stack.items, memory, stringsSize, output + [Write(1, IntToString(v) + "\n")]));
    } else {
      return Err(Unreachable);
    }
  }

  /**
   * `Run`: executes the program from its first op until the program counter leaves it, a step
   * fails, or `fuel` iterations have been made.
   */
  method Run(program: seq<Op>, kernel: Kernel, fuel: nat) returns (outcome: Outcome)
    ensures outcome == Exec(program, kernel, Start(), fuel)
  {
    var stack := new GoStack.Stack();
    var m := Start();
    var steps := fuel;
    var fault: Option<Fault> := None;
    ghost var target := Exec(program, kernel, Start(), fuel);
    while fault.None? && 0 <= m.pc < |program| && steps > 0
      invariant fault.None? ==> m.stack == stack.items && Leads(program, kernel, m, steps, target)
      invariant fault.Some? ==> Failed(m, fault.value) == target
      decreases steps, if fault.None? then 1 else 0
    {
      m, steps, fault := Advance(program, kernel, stack, m, steps, target);
    }
    if fault.Some? {
      outcome := Failed(m, fault.value);
    } else {
      outcome := Finish(program, kernel, m, steps, target);
    }
  }

  /** The run from `m` with `steps` iterations left ends in `target`. */
  ghost predicate Leads(program: seq<Op>, kernel: Kernel, m: Machine, steps: nat, target: Outcome)
  {
    Exec(program, kernel, m, steps) == target
  }

  /** Where a run ends at once: past the program, before it, or out of fuel. */
  lemma ExecStops(program: seq<Op>, kernel: Kernel, m: Machine, fuel: nat)
    ensures m.pc >= |program| ==> Exec(program, kernel, m, fuel) == Halted(m)
    ensures m.pc < 0 ==> Exec(program, kernel, m, fuel) == Failed(m, IndexOutOfRange)
    ensures 0 <= m.pc < |program| && fuel == 0 ==> Exec(program, kernel, m, fuel) == OutOfFuel(m)
  {
  }

  /** The end of `Run` once the loop stops without a fault: the program counter left the program, or the fuel ran out. */
  method Finish(program: seq<Op>, kernel: Kernel, m: Machine, steps: nat, ghost target: Outcome)
    returns (outcome: Outcome)
    requires !(0 <= m.pc < |program| && steps > 0) && Leads(program, kernel, m, steps, target)
    ensures outcome == target
  {
    ExecStops(program, kernel, m, steps);
    if m.pc >= |program| {
      outcome := Halted(m);
    } else if m.pc < 0 {
      outcome := Failed(m, IndexOutOfRange);
    } else {
      outcome := OutOfFuel(m);
    }
  }

  /**
   * One iteration of `Run`'s loop: `Iterate` from `m`, as a step of `Exec`. A failure ends the
   * run there; otherwise the run goes on from the next machine with one iteration fewer.
   */
  method Advance(program: seq<Op>, kernel: Kernel, stack: GoStack.Stack, m: Machine, steps: nat, ghost target: Outcome)
    returns (m': Machine, steps': nat, fault: Option<Fault>)
    requires 0 <= m.pc < |program| && steps > 0 && m.stack == stack.items
    requires Leads(program, kernel, m, steps, target)
    modifies stack
    ensures fault.Some? ==> m' == m && steps' == steps && Failed(m, fault.value) == target
    ensures fault.None? ==> steps' == steps - 1 && m'.stack == stack.items && Leads(program, kernel, m', steps', target)
  {
    var r := Iterate(program, kernel, stack, m.pc, m.memory, m.stringsSize, m.output);
    ExecUnfold(program, kernel, m, steps);
    if r.Err? {
      m', steps', fault := m, steps, Some(r.error);
    } else {
      m', steps', fault := r.value, steps - 1, None;
    }
  }

  lemma ExecUnfold(program: seq<Op>, kernel: Kernel, m: Machine, fuel: nat)
    requires 0 <= m.pc < |program| && fuel > 0
    ensures var r := Step(program, kernel, m);
            Exec(program, kernel, m, fuel)
              == if r.Err? then Failed(m, r.error) else Exec(program, kernel, r.value, fuel - 1)
  {
  }

  // ---------------------------------------------------------------------------------
  // Properties of a step

  /** The only ways a step fails. An empty stack is never one: `Pop` and `Peek` give 0. */
  lemma StepFaults(program: seq<Op>, kernel: Kernel, m: Machine)
    requires 0 <= m.pc < |program|
    ensures var c := program[m.pc].code;
            Step(program, kernel, m) == Err(IntegerDivideByZero) <==> (c.Div? || c.Mod?) && GoStack.Top(m.stack) == 0
    ensures var c := program[m.pc].code;
            Step(program, kernel, m) == Err(NegativeShiftAmount) <==> (c.Shl? || c.Shr?) && GoStack.Top(m.stack) < 0
    ensures var op := program[m.pc];
            Step(program, kernel, m) == Err(IndexOutOfRange) <==> op.code.End? && !(0 <= op.jumpTo < |program|)
    ensures Step(program, kernel, m) == Err(Unreachable) <==> program[m.pc].code.Puts?
    ensures Step(program, kernel, m) == Err(SliceBoundsOutOfRange) || Step(program, kernel, m) == Err(UnknownFileDescriptor)
            ==> program[m.pc].code.Syscall3? && GoStack.Top(m.stack) == 1
  {
  }

  /** Where the program counter goes: the next op, or the `JumpTo` of a block op. */
  lemma StepPc(program: seq<Op>, kernel: Kernel, m: Machine)
    requires 0 <= m.pc < |program| && Step(program, kernel, m).Ok?
    ensures var op, pc := program[m.pc], Step(program, kernel, m).value.pc;
            && (!(op.code.If? || op.code.Do? || op.code.Else? || op.code.End?) ==> pc == m.pc + 1)
            && (op.code.Else? ==> pc == op.jumpTo)
            && (op.code.If? || op.code.Do? ==> pc == if GoStack.Top(m.stack) == 0 then op.jumpTo else m.pc + 1)
            && (op.code.End? ==> pc == if program[op.jumpTo].code.While? then op.jumpTo else m.pc + 1)
  {
  }

  /**
   * An `end` whose `JumpTo` was left at 0 (an `end` closing an `if`) jumps back to the start
   * when the program begins with `while`, instead of falling through.
   */
  lemma EndOfIfAfterLeadingWhile(program: seq<Op>, kernel: Kernel, m: Machine)
    requires 0 <= m.pc < |program| && program[m.pc].code.End? && program[m.pc].jumpTo == 0
    requires program[0].code.While?
    ensures Step(program, kernel, m) == Ok(m.(pc := 0))
  {
  }

  /** With `b` under the top `a`, a binary op replaces the two by its value. */
  lemma BinaryShape(c: Code, rest: seq<int>, b: int, a: int)
    requires IsBinary(c)
    ensures BinaryValue(c, b, a).Ok? ==> BinaryStack(c, rest + [b, a]) == Ok(rest + [BinaryValue(c, b, a).value])
    ensures BinaryValue(c, b, a).Err? ==> BinaryStack(c, rest + [b, a]) == Err(BinaryValue(c, b, a).error)
  {
    assert (rest + [b, a])[..|rest| + 1] == rest + [b];
    assert (rest + [b])[..|rest|] == rest;
  }

  /** The shuffles on a stack `... b a`. */
  lemma ShuffleShape(rest: seq<int>, b: int, a: int)
    ensures Shuffle(Copy, rest + [b, a]) == rest + [b, a, a]
    ensures Shuffle(TwoCopy, rest + [b, a]) == rest + [b, a, b, a]
    ensures Shuffle(Swap, rest + [b, a]) == rest + [a, b]
    ensures Shuffle(Drop, rest + [b, a]) == rest + [b]
    ensures Shuffle(Over, rest + [b, a]) == rest + [b, a, b]
  {
    assert (rest + [b, a])[..|rest| + 1] == rest + [b];
    assert (rest + [b])[..|rest|] == rest;
  }

  /** The signed operations, in Go's terms. */
  lemma BinaryArithmetic(b: int, a: int)
    ensures BinaryValue(Minus, b, a) == Ok(b - a)
    ensures a != 0 ==> BinaryValue(Div, b, a).Ok? && BinaryValue(Mod, b, a).Ok?
                       && b == a * BinaryValue(Div, b, a).value + BinaryValue(Mod, b, a).value
                       && Abs(BinaryValue(Mod, b, a).value) < Abs(a)
    ensures a >= 0 ==> BinaryValue(Shl, b, a) == Ok(b * Pow2(a))
    ensures BinaryValue(Lt, b, a) == Ok(if b < a then 1 else 0)
  {
    if a != 0 {
      QuotRem(b, a);
    }
  }

  /** `n` extends the memory and output of `m`, and keeps `strintsSize` in step with memory. */
  predicate Grows(m: Machine, n: Machine)
  {
    && m.memory <= n.memory && m.output <= n.output
    && n.stringsSize - |n.memory| == m.stringsSize - |m.memory|
  }

  /** A step only appends to memory and output. */
  lemma StepGrows(program: seq<Op>, kernel: Kernel, m: Machine)
    requires 0 <= m.pc < |program| && Step(program, kernel, m).Ok?
    ensures Grows(m, Step(program, kernel, m).value)
  {
  }

  /**
   * `PUSH_STRING` pushes the length and then the address of the literal, and the memory at
   * that address holds the literal.
   */
  lemma PushStringAddress(program: seq<Op>, kernel: Kernel, m: Machine)
    requires 0 <= m.pc < |program| && program[m.pc].code.PushString?
    requires m.stringsSize == |m.memory|
    ensures var literal := program[m.pc].stringValue;
            && Step(program, kernel, m).Ok?
            && Step(program, kernel, m).value.stack == m.stack + [|literal|, m.stringsSize]
            && MemorySlice(Step(program, kernel, m).value.memory, m.stringsSize, |literal|) == Some(literal)
  {
    var literal := program[m.pc].stringValue;
    var memory := m.memory + literal;
    assert Step(program, kernel, m).value.memory == memory;
    assert MemorySlice(memory, m.stringsSize, |literal|).value == literal;
  }

  /** The emulated write to stdout or stderr of `n` bytes at `buf`. */
  lemma WriteEmulation(program: seq<Op>, kernel: Kernel, m: Machine, rest: seq<int>, n: int, buf: int, fd: int)
    requires 0 <= m.pc < |program| && program[m.pc].code.Syscall3?
    requires m.stack == rest + [n, buf, fd, 1]
    ensures var text := MemorySlice(m.memory, buf, n);
            && (text.None? ==> Step(program, kernel, m) == Err(SliceBoundsOutOfRange))
            && (text.Some? && (fd == 1 || fd == 2) ==>
                  Step(program, kernel, m) == Ok(m.(pc := m.pc + 1, stack := rest + [n],
                                                    output := m.output + [Write(fd, text.value + "\n")])))
            && (text.Some? && fd != 1 && fd != 2 ==> Step(program, kernel, m) == Err(UnknownFileDescriptor))
  {
    SyscallOfStep(program, kernel, m);
    WriteArguments(kernel, rest, n, buf, fd, m.memory);
  }

  /** `syscall3` of number 1 pops the number, the descriptor, the buffer and the length, in that order. */
  lemma WriteArguments(kernel: Kernel, rest: seq<int>, n: int, buf: int, fd: int, memory: string)
    ensures SyscallStep(Syscall3, kernel, rest + [n, buf, fd, 1], memory) == WriteCall(rest, memory, fd, buf, n)
  {
    var s := rest + [n, buf, fd, 1];
    assert GoStack.Below(s) == rest + [n, buf, fd];
    assert GoStack.Below(rest + [n, buf, fd]) == rest + [n, buf];
    assert GoStack.Below(rest + [n, buf]) == rest + [n];
    assert GoStack.Below(rest + [n]) == rest;
  }

  /** A syscall step: the new stack and the writes of `SyscallStep`, or its fault. */
  lemma SyscallOfStep(program: seq<Op>, kernel: Kernel, m: Machine)
    requires 0 <= m.pc < |program| && IsSyscall(program[m.pc].code)
    ensures var r := SyscallStep(program[m.pc].code, kernel, m.stack, m.memory);
            Step(program, kernel, m)
              == if r.Err? then Err(r.error) else Ok(m.(pc := m.pc + 1, stack := r.value.0, output := m.output + r.value.1))
  {
    var c := program[m.pc].code;
    assert !IsBinary(c) && !IsBlockCode(c) && !IsShuffle(c) by {
      assert c.Syscall0? || c.Syscall1? || c.Syscall2? || c.Syscall3?;
    }
  }

  // ---------------------------------------------------------------------------------
  // Properties of a run

  function Reached(o: Outcome): Machine
  {
    match o
    case Halted(m) => m
    case Failed(m, _) => m
    case OutOfFuel(m) => m
  }

  /** Memory and output only grow over a run, and `strintsSize` keeps pace with memory. */
  lemma {:induction false} ExecGrows(program: seq<Op>, kernel: Kernel, m: Machine, fuel: nat)
    ensures Grows(m, Reached(Exec(program, kernel, m, fuel)))
    decreases fuel
  {
    if 0 <= m.pc < |program| && fuel > 0 {
      var r := Step(program, kernel, m);
      if r.Ok? {
        var next := r.value;
        StepGrows(program, kernel, m);
        ExecGrows(program, kernel, next, fuel - 1);
        ExecStep(program, kernel, m, fuel, next);
        GrowsTransitive(m, next, Reached(Exec(program, kernel, next, fuel - 1)));
      } else {
        assert Exec(program, kernel, m, fuel) == Failed(m, r.error);
      }
    }
  }

  lemma GrowsTransitive(a: Machine, b: Machine, c: Machine)
    requires Grows(a, b) && Grows(b, c)
    ensures Grows(a, c)
  {
    assert a.memory == b.memory[..|a.memory|] == c.memory[..|a.memory|];
    assert a.output == b.output[..|a.output|] == c.output[..|a.output|];
  }

  /** Every state a run reaches, from the start, has `strintsSize` equal to the bytes stored. */
  lemma RunStringsSize(program: seq<Op>, kernel: Kernel, fuel: nat)
    ensures Reached(Exec(program, kernel, Start(), fuel)).stringsSize
            == |Reached(Exec(program, kernel, Start(), fuel)).memory|
  {
    ExecGrows(program, kernel, Start(), fuel);
  }

  lemma ExecStep(program: seq<Op>, kernel: Kernel, m: Machine, fuel: nat, next: Machine)
    requires 0 <= m.pc < |program| && fuel > 0 && Step(program, kernel, m) == Ok(next)
    ensures Exec(program, kernel, m, fuel) == Exec(program, kernel, next, fuel - 1)
  {
  }

  lemma PushIntStep(program: seq<Op>, kernel: Kernel, m: Machine)
    requires 0 <= m.pc < |program| && program[m.pc].code.PushInt?
    ensures Step(program, kernel, m) == Ok(m.(pc := m.pc + 1, stack := m.stack + [program[m.pc].intValue]))
  {
  }

  /** `"s" 1 1 syscall3`, the language's way to print a string, writes `s` and a newline to stdout. */
  lemma PrintString(literal: string, kernel: Kernel)
    ensures var program := [PushStringOp(literal, ""), PushIntOp(1, ""), PushIntOp(1, ""), PlainOp(Syscall3, "")];
            Exec(program, kernel, Start(), 4)
              == Halted(Machine(4, [|literal|], literal, |literal|, [Write(1, literal + "\n")]))
  {
    var program := PrintProgram(literal);
    PrintPushes(literal, kernel);
    PrintWrites(literal, kernel);
    ExecStep(program, kernel, Start(), 4, Machine(1, [|literal|, 0], literal, |literal|, []));
    ExecStep(program, kernel, Machine(1, [|literal|, 0], literal, |literal|, []), 3,
             Machine(2, [|literal|, 0, 1], literal, |literal|, []));
    ExecStep(program, kernel, Machine(2, [|literal|, 0, 1], literal, |literal|, []), 2,
             Machine(3, [|literal|, 0, 1, 1], literal, |literal|, []));
    ExecStep(program, kernel, Machine(3, [|literal|, 0, 1, 1], literal, |literal|, []), 1,
             Machine(4, [|literal|], literal, |literal|, [Write(1, literal + "\n")]));
  }

  function PrintProgram(literal: string): seq<Op>
  {
    [PushStringOp(literal, ""), PushIntOp(1, ""), PushIntOp(1, ""), PlainOp(Syscall3, "")]
  }

  /** The first three steps of `PrintProgram`: the literal's length and address, then 1 and 1. */
  lemma PrintPushes(literal: string, kernel: Kernel)
    ensures var program := PrintProgram(literal);
            && Step(program, kernel, Start()) == Ok(Machine(1, [|literal|, 0], literal, |literal|, []))
            && Step(program, kernel, Machine(1, [|literal|, 0], literal, |literal|, []))
               == Ok(Machine(2, [|literal|, 0, 1], literal, |literal|, []))
            && Step(program, kernel, Machine(2, [|literal|, 0, 1], literal, |literal|, []))
               == Ok(Machine(3, [|literal|, 0, 1, 1], literal, |literal|, []))
  {
    var program := PrintProgram(literal);
    PushStringAddress(program, kernel, Start());
    assert [] + [|literal|, 0] == [|literal|, 0] && "" + literal == literal;
    PushIntStep(program, kernel, Machine(1, [|literal|, 0], literal, |literal|, []));
    assert [|literal|, 0] + [1] == [|literal|, 0, 1];
    PushIntStep(program, kernel, Machine(2, [|literal|, 0, 1], literal, |literal|, []));
    assert [|literal|, 0, 1] + [1] == [|literal|, 0, 1, 1];
  }

  /** The last step of `PrintProgram`: the emulated write of the literal to stdout. */
  lemma PrintWrites(literal: string, kernel: Kernel)
    ensures Step(PrintProgram(literal), kernel, Machine(3, [|literal|, 0, 1, 1], literal, |literal|, []))
            == Ok(Machine(4, [|literal|], literal, |literal|, [Write(1, literal + "\n")]))
  {
    var m3 := Machine(3, [|literal|, 0, 1, 1], literal, |literal|, []);
    WriteEmulation(PrintProgram(literal), kernel, m3, [], |literal|, 0, 1);
    MemorySliceStored(literal, 0, |literal|);
    assert literal[0..|literal|] == literal;
    assert [] + [|literal|] == [|literal|] && [] + [Write(1, literal + "\n")] == [Write(1, literal + "\n")];
  }
}
