/**
 * `type_check_program` of the C++ compilers (the same rules in wis.cpp and gollo.cpp): one
 * pass over the program with a stack of the types the program would leave at run time.
 * Each op checks how many entries it needs and their types; the pass is linear (the
 * branches of an `if` are not merged) and the stack must be empty at the end.
 */
module WisTypeCheck {
  import opened Wrappers
  import opened Location
  import opened WisSyntax

  datatype DataType = IntType | PtrType | BoolType

  /** `Type`: a type on the stack, with the location of the op that pushed it. */
  datatype TypeEntry = TypeEntry(code: DataType, loc: Loc)

  /** The type-checking stack, top last. */
  type TypeStack = seq<TypeEntry>

  datatype TypeError =
    | NotEnoughArguments(loc: Loc, kind: OpType, expected: nat, found: nat)
    | InvalidArgumentTypes(loc: Loc, kind: OpType, types: seq<DataType>)  // the checked entries, bottom first
    | BooleansCompared(loc: Loc, kind: OpType)                            // a comparison of two `bool`s
    | UnexpandedOp(loc: Loc, kind: OpType)                                // `bind` or `use` left in the program
    | UnhandledData(loc: Loc, entries: seq<TypeEntry>)                    // the stack left over, top first

  function Push(s: TypeStack, t: DataType, loc: Loc): TypeStack { s + [TypeEntry(t, loc)] }

  /** A binary operator over `b` (second) and `a` (top), both already popped from `s`. */
  function BinaryStep(op: Operation, s: TypeStack, b: DataType, a: DataType): Result<TypeStack, TypeError>
  {
    var k := op.kind;
    if k.Plus? then
      if a == IntType && b == IntType then Ok(Push(s, IntType, op.loc))
      else if (a == PtrType && b == IntType) || (b == PtrType && a == IntType) then Ok(Push(s, PtrType, op.loc))
      else Err(InvalidArgumentTypes(op.loc, k, [b, a]))
    else if k.Minus? then
      if a == IntType && b == IntType then Ok(Push(s, IntType, op.loc))
      else if a == IntType && b == PtrType then Ok(Push(s, PtrType, op.loc))
      else Err(InvalidArgumentTypes(op.loc, k, [b, a]))
    else if k.Bor? || k.Band? || k.Xor? then
      if a == IntType && b == IntType then Ok(Push(s, IntType, op.loc))
      else if a == BoolType && b == BoolType then Ok(Push(s, BoolType, op.loc))
      else Err(InvalidArgumentTypes(op.loc, k, [b, a]))
    else if k.Eq? || k.Ne? || k.Lt? || k.Gt? || k.Le? || k.Ge? then
      if a == IntType && b == IntType then Ok(Push(s, BoolType, op.loc))
      else if a == BoolType && b == BoolType then Err(BooleansCompared(op.loc, k))
      else Err(InvalidArgumentTypes(op.loc, k, [b, a]))
    else // `*`, `/`, `%`, `shl`, `shr`
      if a == IntType && b == IntType then Ok(Push(s, IntType, op.loc))
      else Err(InvalidArgumentTypes(op.loc, k, [b, a]))
  }

  predicate IsBinary(k: OpType)
  {
    k.Plus? || k.Minus? || k.Mul? || k.Div? || k.Mod? || k.Bor? || k.Band? || k.Xor?
    || k.Shl? || k.Shr? || k.Eq? || k.Ne? || k.Lt? || k.Gt? || k.Le? || k.Ge?
  }

  /** The number of arguments `syscallN` pops besides the syscall number. */
  function SyscallArgs(k: OpType): nat
  {
    if k.Syscall0? then 0 else if k.Syscall1? then 1 else if k.Syscall2? then 2
    else if k.Syscall3? then 3 else if k.Syscall4? then 4 else if k.Syscall5? then 5 else 6
  }

  predicate IsSyscall(k: OpType)
  {
    k.Syscall0? || k.Syscall1? || k.Syscall2? || k.Syscall3? || k.Syscall4? || k.Syscall5? || k.Syscall6?
  }

  predicate IsPush(k: OpType) { k.PushInt? || k.PushString? || k.Here? || k.True? || k.False? || k.Mem? }

  /** The ops that only push: an int literal, a string literal or `here` (length then pointer), a bool, `mem`. */
  function PushStep(op: Operation, s: TypeStack): Result<TypeStack, TypeError>
  {
    var k := op.kind;
    if k.PushInt? then Ok(Push(s, IntType, op.loc))
    else if k.PushString? || k.Here? then Ok(Push(Push(s, IntType, op.loc), PtrType, op.loc))
    else if k.True? || k.False? then Ok(Push(s, BoolType, op.loc))
    else Ok(Push(s, PtrType, op.loc))  // `mem`
  }

  predicate IsGuarded(k: OpType)
  {
    k.Not? || k.If? || k.Do? || k.Load8? || k.Load64? || k.Store8? || k.Store64? || k.Fputs?
  }

  /** The ops other than the binary operators that demand particular types. */
  function GuardedStep(op: Operation, s: TypeStack): Result<TypeStack, TypeError>
  {
    var k := op.kind;
    var n := |s|;
    if k.Not? then
      // checks the top but leaves it on the stack
      if n == 0 then Err(NotEnoughArguments(op.loc, k, 1, 0))
      else if s[n - 1].code != BoolType then Err(InvalidArgumentTypes(op.loc, k, [s[n - 1].code]))
      else Ok(s)
    else if k.If? || k.Do? then
      if n == 0 then Err(NotEnoughArguments(op.loc, k, 1, 0))
      else if s[n - 1].code != BoolType then Err(InvalidArgumentTypes(op.loc, k, [s[n - 1].code]))
      else Ok(s[..n - 1])
    else if k.Load8? || k.Load64? then
      if n == 0 then Err(NotEnoughArguments(op.loc, k, 1, 0))
      else if s[n - 1].code != PtrType then Err(InvalidArgumentTypes(op.loc, k, [s[n - 1].code]))
      else Ok(Push(s[..n - 1], IntType, op.loc))
    else if k.Store8? || k.Store64? then
      if n < 2 then Err(NotEnoughArguments(op.loc, k, 2, n))
      else if s[n - 1].code != IntType || s[n - 2].code != PtrType then
        Err(InvalidArgumentTypes(op.loc, k, [s[n - 2].code, s[n - 1].code]))
      else Ok(s[..n - 2])
    else // `fputs`
      if n < 3 then Err(NotEnoughArguments(op.loc, k, 3, n))
      else if s[n - 1].code != IntType || s[n - 2].code != PtrType || s[n - 3].code != IntType then
        Err(InvalidArgumentTypes(op.loc, k, [s[n - 3].code, s[n - 2].code, s[n - 1].code]))
      else Ok(s[..n - 3])
  }

  predicate IsShuffle(k: OpType) { k.Copy? || k.Over? || k.Swap? || k.Swap2? || k.Drop? || k.Rot? || k.Put? }

  /** The ops that rearrange or discard entries whatever their types; `put` only pops. */
  function ShuffleStep(op: Operation, s: TypeStack): Result<TypeStack, TypeError>
  {
    var k := op.kind;
    var n := |s|;
    if k.Copy? then
      if n == 0 then Err(NotEnoughArguments(op.loc, k, 1, 0)) else Ok(s + [s[n - 1]])
    else if k.Over? then
      if n < 2 then Err(NotEnoughArguments(op.loc, k, 2, n)) else Ok(s[..n - 2] + [s[n - 2], s[n - 1], s[n - 2]])
    else if k.Swap? then
      if n < 2 then Err(NotEnoughArguments(op.loc, k, 2, n)) else Ok(s[..n - 2] + [s[n - 1], s[n - 2]])
    else if k.Swap2? then
      if n < 4 then Err(NotEnoughArguments(op.loc, k, 4, n))
      else Ok(s[..n - 4] + [s[n - 2], s[n - 1], s[n - 4], s[n - 3]])
    else if k.Rot? then
      if n < 3 then Err(NotEnoughArguments(op.loc, k, 3, n)) else Ok(s[..n - 3] + [s[n - 1], s[n - 3], s[n - 2]])
    else // `drop`, `put`
      if n == 0 then Err(NotEnoughArguments(op.loc, k, 1, 0)) else Ok(s[..n - 1])
  }

  /** `syscallN` pops the syscall number and its N arguments and pushes the result. */
  function SyscallStep(op: Operation, s: TypeStack): Result<TypeStack, TypeError>
  {
    var m := SyscallArgs(op.kind) + 1;
    if |s| < m then Err(NotEnoughArguments(op.loc, op.kind, m, |s|))
    else Ok(Push(s[..|s| - m], IntType, op.loc))
  }

  /** One case of the `switch` of `type_check_program`: the stack after op `op`. */
  function TypeStep(op: Operation, s: TypeStack): Result<TypeStack, TypeError>
  {
    var k := op.kind;
    if IsPush(k) then PushStep(op, s)
    else if IsBinary(k) then
      if |s| < 2 then Err(NotEnoughArguments(op.loc, k, 2, |s|))
      else BinaryStep(op, s[..|s| - 2], s[|s| - 2].code, s[|s| - 1].code)
    else if IsGuarded(k) then GuardedStep(op, s)
    else if IsShuffle(k) then ShuffleStep(op, s)
    else if k.Else? || k.While? || k.End? then Ok(s)
    else if k.Bind? || k.Use? then Err(UnexpandedOp(op.loc, k))
    else SyscallStep(op, s)
  }

  /** The loop of `type_check_program` over `ops`, from stack `s`. */
  function TypeFold(ops: seq<Operation>, s: TypeStack): Result<TypeStack, TypeError>
  {
    if ops == [] then Ok(s)
    else
      match TypeStep(ops[0], s)
      case Err(e) => Err(e)
      case Ok(s') => TypeFold(ops[1..], s')
  }

  /** The stack listed top first, as the final error report prints it. */
  function TopFirst(s: TypeStack): (r: TypeStack)
    ensures |r| == |s|
  {
    if s == [] then [] else [s[|s| - 1]] + TopFirst(s[..|s| - 1])
  }

  /** `type_check_program`: the loop, then the check that nothing is left on the stack. */
  function TypeCheck(program: seq<Operation>): Result<(), TypeError>
  {
    match TypeFold(program, [])
    case Err(e) => Err(e)
    case Ok(s) => if s == [] then Ok(()) else Err(UnhandledData(s[|s| - 1].loc, TopFirst(s)))
  }

  lemma TypeFoldStep(ops: seq<Operation>, i: nat, s: TypeStack)
    requires i < |ops|
    ensures TypeFold(ops[i..], s)
            == match TypeStep(ops[i], s) case Err(e) => Err(e) case Ok(s') => TypeFold(ops[i + 1..], s')
  {
    assert ops[i..][0] == ops[i] && ops[i..][1..] == ops[i + 1..];
  }

  /** `type_check_program`, pushing and popping a stack of types. */
  method TypeCheckProgram(program: seq<Operation>) returns (r: Result<(), TypeError>)
    ensures r == TypeCheck(program)
  {
    var stack: TypeStack := [];
    var i := 0;
    while i < |program|
      invariant i <= |program|
      invariant TypeFold(program[i..], stack) == TypeFold(program, [])
    {
      TypeFoldStep(program, i, stack);
      var next := TypeStep(program[i], stack);
      if next.Err? {
        return Err(next.error);
      }
      stack := next.value;
      i := i + 1;
    }
    assert program[i..] == [];
    if stack != [] {
      var top := stack[|stack| - 1];
      ghost var left := stack;
      var listed: TypeStack := [];
      while stack != []
        invariant listed + TopFirst(stack) == TopFirst(left)
        decreases |stack|
      {
        assert TopFirst(stack) == [stack[|stack| - 1]] + TopFirst(stack[..|stack| - 1]);
        listed := listed + [stack[|stack| - 1]];
        stack := stack[..|stack| - 1];
      }
      assert listed == TopFirst(left);
      return Err(UnhandledData(top.loc, listed));
    }
    r := Ok(());
  }

  // ---------------------------------------------------------------------------------------
  // Reference tables of the type rules, and the lemmas tying each case of TypeStep to them.

  /** How many entries an op takes off the top of the stack, and how many it puts back. */
  datatype Arity = Arity(takes: nat, gives: nat)

  function ArityOf(k: OpType): Arity
  {
    if k.PushInt? || k.True? || k.False? || k.Mem? then Arity(0, 1)
    else if k.PushString? || k.Here? then Arity(0, 2)
    else if IsBinary(k) then Arity(2, 1)
    else if k.Not? || k.Load8? || k.Load64? then Arity(1, 1)
    else if k.If? || k.Do? || k.Put? || k.Drop? then Arity(1, 0)
    else if k.Store8? || k.Store64? then Arity(2, 0)
    else if k.Fputs? then Arity(3, 0)
    else if k.Copy? then Arity(1, 2)
    else if k.Over? then Arity(2, 3)
    else if k.Swap? then Arity(2, 2)
    else if k.Swap2? then Arity(4, 4)
    else if k.Rot? then Arity(3, 3)
    else if k.Syscall0? then Arity(1, 1)
    else if k.Syscall1? then Arity(2, 1)
    else if k.Syscall2? then Arity(3, 1)
    else if k.Syscall3? then Arity(4, 1)
    else if k.Syscall4? then Arity(5, 1)
    else if k.Syscall5? then Arity(6, 1)
    else if k.Syscall6? then Arity(7, 1)
    else Arity(0, 0)  // `else`, `while`, `end`, `bind`, `use`
  }

  lemma PushStepArity(op: Operation, s: TypeStack)
    requires IsPush(op.kind)
    ensures PushStep(op, s).Ok?
    ensures |PushStep(op, s).value| == |s| + ArityOf(op.kind).gives && PushStep(op, s).value[..|s|] == s
  {
  }

  lemma BinaryStepArity(op: Operation, s: TypeStack, b: DataType, a: DataType)
    requires BinaryStep(op, s, b, a).Ok?
    ensures |BinaryStep(op, s, b, a).value| == |s| + 1 && BinaryStep(op, s, b, a).value[..|s|] == s
  {
  }

  lemma GuardedStepArity(op: Operation, s: TypeStack)
    requires IsGuarded(op.kind) && GuardedStep(op, s).Ok?
    ensures ArityOf(op.kind).takes <= |s|
    ensures |GuardedStep(op, s).value| == |s| - ArityOf(op.kind).takes + ArityOf(op.kind).gives
    ensures GuardedStep(op, s).value[..|s| - ArityOf(op.kind).takes] == s[..|s| - ArityOf(op.kind).takes]
  {
  }

  lemma ShuffleStepArity(op: Operation, s: TypeStack)
    requires IsShuffle(op.kind) && ShuffleStep(op, s).Ok?
    ensures ArityOf(op.kind).takes <= |s|
    ensures |ShuffleStep(op, s).value| == |s| - ArityOf(op.kind).takes + ArityOf(op.kind).gives
    ensures ShuffleStep(op, s).value[..|s| - ArityOf(op.kind).takes] == s[..|s| - ArityOf(op.kind).takes]
  {
  }

  lemma SyscallArity(k: OpType)
    requires IsSyscall(k)
    ensures ArityOf(k) == Arity(SyscallArgs(k) + 1, 1)
  {
  }

  lemma SyscallStepArity(op: Operation, s: TypeStack)
    requires IsSyscall(op.kind) && SyscallStep(op, s).Ok?
    ensures ArityOf(op.kind).takes <= |s|
    ensures |SyscallStep(op, s).value| == |s| - ArityOf(op.kind).takes + ArityOf(op.kind).gives
    ensures SyscallStep(op, s).value[..|s| - ArityOf(op.kind).takes] == s[..|s| - ArityOf(op.kind).takes]
  {
    SyscallArity(op.kind);
  }

  /** A successful step replaces the top `takes` entries by `gives` entries and keeps the rest. */
  lemma TypeStepArity(op: Operation, s: TypeStack)
    requires TypeStep(op, s).Ok?
    ensures ArityOf(op.kind).takes <= |s|
    ensures |TypeStep(op, s).value| == |s| - ArityOf(op.kind).takes + ArityOf(op.kind).gives
    ensures TypeStep(op, s).value[..|s| - ArityOf(op.kind).takes] == s[..|s| - ArityOf(op.kind).takes]
  {
    var k := op.kind;
    if IsPush(k) {
      PushStepArity(op, s);
    } else if IsBinary(k) {
      BinaryStepArity(op, s[..|s| - 2], s[|s| - 2].code, s[|s| - 1].code);
    } else if IsGuarded(k) {
      GuardedStepArity(op, s);
    } else if IsShuffle(k) {
      ShuffleStepArity(op, s);
    } else if !k.Else? && !k.While? && !k.End? {
      SyscallStepArity(op, s);
    }
  }

  /** Every op but `bind` and `use` fails for want of arguments exactly when the stack is too short. */
  lemma TypeStepNeedsArguments(op: Operation, s: TypeStack)
    requires !op.kind.Bind? && !op.kind.Use? && |s| < ArityOf(op.kind).takes
    ensures TypeStep(op, s) == Err(NotEnoughArguments(op.loc, op.kind, ArityOf(op.kind).takes, |s|))
  {
    if IsSyscall(op.kind) {
      SyscallArity(op.kind);
    }
  }

  /** `bind` and `use` must have been expanded before type checking. */
  lemma TypeStepUnexpanded(op: Operation, s: TypeStack)
    requires op.kind.Bind? || op.kind.Use?
    ensures TypeStep(op, s) == Err(UnexpandedOp(op.loc, op.kind))
  {
  }

  // The typing rules as a table: for each op that demands types, the accepted types of its
  // arguments (bottom first) and the types of what it pushes.

  function Codes(s: TypeStack): seq<DataType>
  {
    seq(|s|, i requires 0 <= i < |s| => s[i].code)
  }

  function Entries(codes: seq<DataType>, loc: Loc): TypeStack
  {
    seq(|codes|, i requires 0 <= i < |codes| => TypeEntry(codes[i], loc))
  }

  predicate IsComparison(k: OpType) { k.Eq? || k.Ne? || k.Lt? || k.Gt? || k.Le? || k.Ge? }

  /** The ops whose arguments must have particular types (all but `not`, which keeps its argument). */
  predicate IsTyped(k: OpType) { IsBinary(k) || (IsGuarded(k) && !k.Not?) }

  function Signatures(k: OpType): map<seq<DataType>, seq<DataType>>
  {
    if k.Plus? then map[[IntType, IntType] := [IntType], [IntType, PtrType] := [PtrType], [PtrType, IntType] := [PtrType]]
    else if k.Minus? then map[[IntType, IntType] := [IntType], [PtrType, IntType] := [PtrType]]
    else if k.Bor? || k.Band? || k.Xor? then map[[IntType, IntType] := [IntType], [BoolType, BoolType] := [BoolType]]
    else if IsComparison(k) then map[[IntType, IntType] := [BoolType]]
    else if k.Mul? || k.Div? || k.Mod? || k.Shl? || k.Shr? then map[[IntType, IntType] := [IntType]]
    else if k.If? || k.Do? then map[[BoolType] := []]
    else if k.Load8? || k.Load64? then map[[PtrType] := [IntType]]
    else if k.Store8? || k.Store64? then map[[PtrType, IntType] := []]
    else if k.Fputs? then map[[IntType, PtrType, IntType] := []]
    else map[]
  }

  /** What the table says op `op` does to `below + top`, where `top` are the types of its arguments. */
  function Typed(op: Operation, below: TypeStack, top: seq<DataType>): Result<TypeStack, TypeError>
  {
    var sigs := Signatures(op.kind);
    if top in sigs then Ok(below + Entries(sigs[top], op.loc))
    else if IsComparison(op.kind) && top == [BoolType, BoolType] then Err(BooleansCompared(op.loc, op.kind))
    else Err(InvalidArgumentTypes(op.loc, op.kind, top))
  }

  lemma PairEquals(b: DataType, a: DataType, y: DataType, x: DataType)
    ensures ([b, a] == [y, x]) == (b == y && a == x)
  {
    if [b, a] == [y, x] {
      assert [b, a][0] == [y, x][0] && [b, a][1] == [y, x][1];
    }
  }

  lemma EntriesOne(t: DataType, loc: Loc)
    ensures Entries([t], loc) == [TypeEntry(t, loc)]
  {
  }

  lemma PlusTyped(op: Operation, s: TypeStack, b: DataType, a: DataType)
    requires op.kind.Plus?
    ensures BinaryStep(op, s, b, a) == Typed(op, s, [b, a])
  {
    PairEquals(b, a, IntType, IntType);
    PairEquals(b, a, IntType, PtrType);
    PairEquals(b, a, PtrType, IntType);
    EntriesOne(IntType, op.loc);
    EntriesOne(PtrType, op.loc);
    EntriesOne(BoolType, op.loc);
  }

  lemma MinusTyped(op: Operation, s: TypeStack, b: DataType, a: DataType)
    requires op.kind.Minus?
    ensures BinaryStep(op, s, b, a) == Typed(op, s, [b, a])
  {
    PairEquals(b, a, IntType, IntType);
    PairEquals(b, a, PtrType, IntType);
    EntriesOne(IntType, op.loc);
    EntriesOne(PtrType, op.loc);
    EntriesOne(BoolType, op.loc);
  }

  lemma BitwiseTyped(op: Operation, s: TypeStack, b: DataType, a: DataType)
    requires op.kind.Bor? || op.kind.Band? || op.kind.Xor?
    ensures BinaryStep(op, s, b, a) == Typed(op, s, [b, a])
  {
    PairEquals(b, a, IntType, IntType);
    PairEquals(b, a, BoolType, BoolType);
    EntriesOne(IntType, op.loc);
    EntriesOne(PtrType, op.loc);
    EntriesOne(BoolType, op.loc);
  }

  lemma ComparisonTyped(op: Operation, s: TypeStack, b: DataType, a: DataType)
    requires IsComparison(op.kind)
    ensures BinaryStep(op, s, b, a) == Typed(op, s, [b, a])
  {
    PairEquals(b, a, IntType, IntType);
    PairEquals(b, a, BoolType, BoolType);
    EntriesOne(IntType, op.loc);
    EntriesOne(PtrType, op.loc);
    EntriesOne(BoolType, op.loc);
  }

  lemma ArithmeticTyped(op: Operation, s: TypeStack, b: DataType, a: DataType)
    requires op.kind.Mul? || op.kind.Div? || op.kind.Mod? || op.kind.Shl? || op.kind.Shr?
    ensures BinaryStep(op, s, b, a) == Typed(op, s, [b, a])
  {
    PairEquals(b, a, IntType, IntType);
    EntriesOne(IntType, op.loc);
    EntriesOne(PtrType, op.loc);
    EntriesOne(BoolType, op.loc);
  }

  lemma CodesOfTop(s: TypeStack)
    ensures |s| >= 1 ==> Codes(s[|s| - 1..]) == [s[|s| - 1].code]
    ensures |s| >= 2 ==> Codes(s[|s| - 2..]) == [s[|s| - 2].code, s[|s| - 1].code]
    ensures |s| >= 3 ==> Codes(s[|s| - 3..]) == [s[|s| - 3].code, s[|s| - 2].code, s[|s| - 1].code]
  {
  }

  lemma SingleEquals(a: DataType, x: DataType)
    ensures ([a] == [x]) == (a == x)
  {
    if [a] == [x] {
      assert [a][0] == [x][0];
    }
  }

  lemma TripleEquals(c: DataType, b: DataType, a: DataType, z: DataType, y: DataType, x: DataType)
    ensures ([c, b, a] == [z, y, x]) == (c == z && b == y && a == x)
  {
    if [c, b, a] == [z, y, x] {
      assert [c, b, a][0] == [z, y, x][0] && [c, b, a][1] == [z, y, x][1] && [c, b, a][2] == [z, y, x][2];
    }
  }

  lemma ConditionTyped(op: Operation, s: TypeStack)
    requires (op.kind.If? || op.kind.Do?) && |s| >= 1
    ensures GuardedStep(op, s) == Typed(op, s[..|s| - 1], Codes(s[|s| - 1..]))
  {
    CodesOfTop(s);
    var below, c := s[..|s| - 1], s[|s| - 1].code;
    var sigs := Signatures(op.kind);
    assert !IsComparison(op.kind) && sigs == map[[BoolType] := []] by {
      assert !(op.kind.Load8? || op.kind.Load64? || op.kind.Store8? || op.kind.Store64? || op.kind.Fputs?);
    }
    if c == BoolType {
      assert GuardedStep(op, s) == Ok(below);
      assert [c] in sigs && Entries(sigs[[c]], op.loc) == [] && below + [] == below;
    } else {
      SingleEquals(c, BoolType);
      assert GuardedStep(op, s) == Err(InvalidArgumentTypes(op.loc, op.kind, [c]));
      assert [c] !in sigs;
    }
  }

  lemma LoadTyped(op: Operation, s: TypeStack)
    requires (op.kind.Load8? || op.kind.Load64?) && |s| >= 1
    ensures GuardedStep(op, s) == Typed(op, s[..|s| - 1], Codes(s[|s| - 1..]))
  {
    CodesOfTop(s);
    SingleEquals(s[|s| - 1].code, PtrType);
    EntriesOne(IntType, op.loc);
  }

  lemma StoreTyped(op: Operation, s: TypeStack)
    requires (op.kind.Store8? || op.kind.Store64?) && |s| >= 2
    ensures GuardedStep(op, s) == Typed(op, s[..|s| - 2], Codes(s[|s| - 2..]))
  {
    CodesOfTop(s);
    PairEquals(s[|s| - 2].code, s[|s| - 1].code, PtrType, IntType);
    assert Entries([], op.loc) == [] && s[..|s| - 2] + [] == s[..|s| - 2];
  }

  lemma FputsTyped(op: Operation, s: TypeStack)
    requires op.kind.Fputs? && |s| >= 3
    ensures GuardedStep(op, s) == Typed(op, s[..|s| - 3], Codes(s[|s| - 3..]))
  {
    CodesOfTop(s);
    TripleEquals(s[|s| - 3].code, s[|s| - 2].code, s[|s| - 1].code, IntType, PtrType, IntType);
    assert Entries([], op.loc) == [] && s[..|s| - 3] + [] == s[..|s| - 3];
  }

  /**
   * Every op that demands types does, once it has its arguments, exactly what the signature
   * table says: the accepted argument types are replaced by the listed results, and any other
   * combination is an error about those types.
   */
  lemma TypeStepTyped(op: Operation, s: TypeStack)
    requires IsTyped(op.kind) && ArityOf(op.kind).takes <= |s|
    ensures TypeStep(op, s) == Typed(op, s[..|s| - ArityOf(op.kind).takes], Codes(s[|s| - ArityOf(op.kind).takes..]))
  {
    var k := op.kind;
    var n := |s|;
    CodesOfTop(s);
    if IsBinary(k) {
      var b, a := s[n - 2].code, s[n - 1].code;
      if k.Plus? { PlusTyped(op, s[..n - 2], b, a); }
      else if k.Minus? { MinusTyped(op, s[..n - 2], b, a); }
      else if k.Bor? || k.Band? || k.Xor? { BitwiseTyped(op, s[..n - 2], b, a); }
      else if IsComparison(k) { ComparisonTyped(op, s[..n - 2], b, a); }
      else { ArithmeticTyped(op, s[..n - 2], b, a); }
    } else if k.If? || k.Do? {
      ConditionTyped(op, s);
    } else if k.Load8? || k.Load64? {
      LoadTyped(op, s);
    } else if k.Store8? || k.Store64? {
      StoreTyped(op, s);
    } else {
      FputsTyped(op, s);
    }
  }

  /** `not` checks that a `bool` is on top and leaves the stack as it was. */
  lemma TypeStepNot(op: Operation, s: TypeStack)
    requires op.kind.Not?
    ensures TypeStep(op, s).Ok? <==> |s| > 0 && s[|s| - 1].code == BoolType
    ensures TypeStep(op, s).Ok? ==> TypeStep(op, s).value == s
  {
  }

  /** What the pushing ops push, bottom to top. */
  function Pushed(k: OpType): seq<DataType>
  {
    if k.PushString? || k.Here? then [IntType, PtrType]
    else if k.True? || k.False? then [BoolType]
    else if k.Mem? then [PtrType]
    else [IntType]  // an integer literal
  }

  /** The pushing ops never fail and push the listed types, located at the op. */
  lemma TypeStepPush(op: Operation, s: TypeStack)
    requires IsPush(op.kind)
    ensures TypeStep(op, s) == Ok(s + Entries(Pushed(op.kind), op.loc))
  {
    var k := op.kind;
    if k.PushString? || k.Here? {
      assert Entries([IntType, PtrType], op.loc) == [TypeEntry(IntType, op.loc), TypeEntry(PtrType, op.loc)];
      assert Push(Push(s, IntType, op.loc), PtrType, op.loc) == s + [TypeEntry(IntType, op.loc), TypeEntry(PtrType, op.loc)];
    } else {
      EntriesOne(Pushed(k)[0], op.loc);
    }
  }

  /** `else`, `while` and `end` leave the types alone. */
  lemma TypeStepFlow(op: Operation, s: TypeStack)
    requires op.kind.Else? || op.kind.While? || op.kind.End?
    ensures TypeStep(op, s) == Ok(s)
  {
  }

  /** `syscallN` succeeds exactly when N + 1 entries are there, whatever their types, and leaves an `int`. */
  lemma TypeStepSyscall(op: Operation, s: TypeStack)
    requires IsSyscall(op.kind)
    ensures TypeStep(op, s).Ok? <==> ArityOf(op.kind).takes <= |s|
    ensures TypeStep(op, s).Ok? ==>
              TypeStep(op, s).value == s[..|s| - ArityOf(op.kind).takes] + [TypeEntry(IntType, op.loc)]
  {
    SyscallArity(op.kind);
  }

  /** The shuffles: which of the top `takes` entries (0 = deepest) each puts back, bottom to top. */
  function Shuffle(k: OpType): seq<nat>
  {
    if k.Copy? then [0, 0]               // a -> a a
    else if k.Over? then [0, 1, 0]       // b a -> b a b
    else if k.Swap? then [1, 0]          // b a -> a b
    else if k.Swap2? then [2, 3, 0, 1]   // d c b a -> b a d c
    else if k.Rot? then [2, 0, 1]        // c b a -> a c b
    else []                              // `drop`, `put`
  }

  predicate PicksWithin(picks: seq<nat>, m: nat) { forall i :: 0 <= i < |picks| ==> picks[i] < m }

  function Pick(window: TypeStack, picks: seq<nat>): TypeStack
    requires PicksWithin(picks, |window|)
  {
    seq(|picks|, i requires 0 <= i < |picks| => window[picks[i]])
  }

  lemma CopyPicks(op: Operation, s: TypeStack)
    requires op.kind.Copy? && |s| >= 1
    ensures ArityOf(op.kind).takes == 1 && Shuffle(op.kind) == [0, 0]
    ensures PicksWithin(Shuffle(op.kind), ArityOf(op.kind).takes)
    ensures ShuffleStep(op, s) == Ok(s[..|s| - ArityOf(op.kind).takes]
                                     + Pick(s[|s| - ArityOf(op.kind).takes..], Shuffle(op.kind)))
  {
    var top := s[|s| - 1];
    assert Pick(s[|s| - 1..], [0, 0]) == [top, top];
    assert s == s[..|s| - 1] + [top];
    assert s[..|s| - 1] + [top, top] == (s[..|s| - 1] + [top]) + [top];
  }

  lemma OverPicks(op: Operation, s: TypeStack)
    requires op.kind.Over? && |s| >= 2
    ensures ArityOf(op.kind).takes == 2 && Shuffle(op.kind) == [0, 1, 0]
    ensures PicksWithin(Shuffle(op.kind), ArityOf(op.kind).takes)
    ensures ShuffleStep(op, s) == Ok(s[..|s| - ArityOf(op.kind).takes]
                                     + Pick(s[|s| - ArityOf(op.kind).takes..], Shuffle(op.kind)))
  {
    assert Pick(s[|s| - 2..], [0, 1, 0]) == [s[|s| - 2], s[|s| - 1], s[|s| - 2]];
  }

  lemma SwapPicks(op: Operation, s: TypeStack)
    requires op.kind.Swap? && |s| >= 2
    ensures ArityOf(op.kind).takes == 2 && Shuffle(op.kind) == [1, 0]
    ensures PicksWithin(Shuffle(op.kind), ArityOf(op.kind).takes)
    ensures ShuffleStep(op, s) == Ok(s[..|s| - ArityOf(op.kind).takes]
                                     + Pick(s[|s| - ArityOf(op.kind).takes..], Shuffle(op.kind)))
  {
    assert Pick(s[|s| - 2..], [1, 0]) == [s[|s| - 1], s[|s| - 2]];
  }

  lemma Swap2Picks(op: Operation, s: TypeStack)
    requires op.kind.Swap2? && |s| >= 4
    ensures ArityOf(op.kind).takes == 4 && Shuffle(op.kind) == [2, 3, 0, 1]
    ensures PicksWithin(Shuffle(op.kind), ArityOf(op.kind).takes)
    ensures ShuffleStep(op, s) == Ok(s[..|s| - ArityOf(op.kind).takes]
                                     + Pick(s[|s| - ArityOf(op.kind).takes..], Shuffle(op.kind)))
  {
    assert Pick(s[|s| - 4..], [2, 3, 0, 1]) == [s[|s| - 2], s[|s| - 1], s[|s| - 4], s[|s| - 3]];
  }

  lemma RotPicks(op: Operation, s: TypeStack)
    requires op.kind.Rot? && |s| >= 3
    ensures ArityOf(op.kind).takes == 3 && Shuffle(op.kind) == [2, 0, 1]
    ensures PicksWithin(Shuffle(op.kind), ArityOf(op.kind).takes)
    ensures ShuffleStep(op, s) == Ok(s[..|s| - ArityOf(op.kind).takes]
                                     + Pick(s[|s| - ArityOf(op.kind).takes..], Shuffle(op.kind)))
  {
    assert Pick(s[|s| - 3..], [2, 0, 1]) == [s[|s| - 1], s[|s| - 3], s[|s| - 2]];
  }

  lemma DropPicks(op: Operation, s: TypeStack)
    requires (op.kind.Drop? || op.kind.Put?) && |s| >= 1
    ensures ArityOf(op.kind).takes == 1 && Shuffle(op.kind) == []
    ensures PicksWithin(Shuffle(op.kind), ArityOf(op.kind).takes)
    ensures ShuffleStep(op, s) == Ok(s[..|s| - ArityOf(op.kind).takes]
                                     + Pick(s[|s| - ArityOf(op.kind).takes..], Shuffle(op.kind)))
  {
    assert Pick(s[|s| - 1..], []) == [] && s[..|s| - 1] + [] == s[..|s| - 1];
  }

  lemma ShuffleDuplicates(op: Operation, s: TypeStack)
    requires (op.kind.Copy? || op.kind.Over? || op.kind.Swap?) && ArityOf(op.kind).takes <= |s|
    ensures PicksWithin(Shuffle(op.kind), ArityOf(op.kind).takes)
    ensures ShuffleStep(op, s) == Ok(s[..|s| - ArityOf(op.kind).takes]
                                     + Pick(s[|s| - ArityOf(op.kind).takes..], Shuffle(op.kind)))
  {
    var k := op.kind;
    if k.Copy? { CopyPicks(op, s); }
    else if k.Over? { OverPicks(op, s); }
    else { SwapPicks(op, s); }
  }

  lemma ShuffleRotates(op: Operation, s: TypeStack)
    requires (op.kind.Swap2? || op.kind.Rot? || op.kind.Drop? || op.kind.Put?) && ArityOf(op.kind).takes <= |s|
    ensures PicksWithin(Shuffle(op.kind), ArityOf(op.kind).takes)
    ensures ShuffleStep(op, s) == Ok(s[..|s| - ArityOf(op.kind).takes]
                                     + Pick(s[|s| - ArityOf(op.kind).takes..], Shuffle(op.kind)))
  {
    var k := op.kind;
    if k.Swap2? { Swap2Picks(op, s); }
    else if k.Rot? { RotPicks(op, s); }
    else { DropPicks(op, s); }
  }

  lemma TypeStepIsShuffleStep(op: Operation, s: TypeStack)
    requires IsShuffle(op.kind)
    ensures TypeStep(op, s) == ShuffleStep(op, s)
  {
  }

  /**
   * The shuffles never look at types: once they have their arguments they succeed and put
   * back the entries the table picks from the top of the stack, untouched, locations included.
   */
  lemma TypeStepShuffle(op: Operation, s: TypeStack)
    requires IsShuffle(op.kind) && ArityOf(op.kind).takes <= |s|
    ensures PicksWithin(Shuffle(op.kind), ArityOf(op.kind).takes)
    ensures TypeStep(op, s) == Ok(s[..|s| - ArityOf(op.kind).takes]
                                  + Pick(s[|s| - ArityOf(op.kind).takes..], Shuffle(op.kind)))
  {
    var k := op.kind;
    TypeStepIsShuffleStep(op, s);
    if k.Copy? || k.Over? || k.Swap? {
      ShuffleDuplicates(op, s);
    } else {
      ShuffleRotates(op, s);
    }
  }

  lemma BlockSwapMultiset<T>(below: seq<T>, x: seq<T>, y: seq<T>)
    ensures multiset(below + y + x) == multiset(below + x + y)
  {
  }

  lemma SwapKeepsEntries(op: Operation, s: TypeStack)
    requires op.kind.Swap? && 2 <= |s|
    ensures ShuffleStep(op, s).Ok? && multiset(ShuffleStep(op, s).value) == multiset(s)
  {
    var below, x, y := s[..|s| - 2], [s[|s| - 2]], [s[|s| - 1]];
    assert s == below + x + y;
    assert ShuffleStep(op, s).value == below + y + x;
    BlockSwapMultiset(below, x, y);
  }

  lemma Swap2KeepsEntries(op: Operation, s: TypeStack)
    requires op.kind.Swap2? && 4 <= |s|
    ensures ShuffleStep(op, s).Ok? && multiset(ShuffleStep(op, s).value) == multiset(s)
  {
    var below, x, y := s[..|s| - 4], [s[|s| - 4], s[|s| - 3]], [s[|s| - 2], s[|s| - 1]];
    assert s == below + x + y;
    assert ShuffleStep(op, s).value == below + y + x;
    BlockSwapMultiset(below, x, y);
  }

  lemma RotKeepsEntries(op: Operation, s: TypeStack)
    requires op.kind.Rot? && 3 <= |s|
    ensures ShuffleStep(op, s).Ok? && multiset(ShuffleStep(op, s).value) == multiset(s)
  {
    var below, x, y := s[..|s| - 3], [s[|s| - 3], s[|s| - 2]], [s[|s| - 1]];
    assert s == below + x + y;
    assert ShuffleStep(op, s).value == below + y + x;
    BlockSwapMultiset(below, x, y);
  }

  /** `swap`, `2swap` and `rot` only reorder: the stack keeps the same entries. */
  lemma TypeStepPermutes(op: Operation, s: TypeStack)
    requires (op.kind.Swap? || op.kind.Swap2? || op.kind.Rot?) && ArityOf(op.kind).takes <= |s|
    ensures TypeStep(op, s).Ok? && multiset(TypeStep(op, s).value) == multiset(s)
  {
    var k := op.kind;
    TypeStepIsShuffleStep(op, s);
    if k.Swap? { SwapKeepsEntries(op, s); }
    else if k.Swap2? { Swap2KeepsEntries(op, s); }
    else { RotKeepsEntries(op, s); }
  }

  // An op looks only at the entries it takes: entries further down never change its outcome.

  lemma SplitBelow(b: TypeStack, s: TypeStack, m: nat)
    requires m <= |s|
    ensures (b + s)[..|b + s| - m] == b + s[..|s| - m] && (b + s)[|b + s| - m..] == s[|s| - m..]
  {
  }

  lemma PushBelow(op: Operation, b: TypeStack, s: TypeStack)
    requires IsPush(op.kind)
    ensures TypeStep(op, b + s) == Ok(b + TypeStep(op, s).value)
  {
    TypeStepPush(op, s);
    TypeStepPush(op, b + s);
    assert (b + s) + Entries(Pushed(op.kind), op.loc) == b + (s + Entries(Pushed(op.kind), op.loc));
  }

  lemma TypedBelow(op: Operation, b: TypeStack, s: TypeStack)
    requires IsTyped(op.kind) && TypeStep(op, s).Ok?
    ensures TypeStep(op, b + s) == Ok(b + TypeStep(op, s).value)
  {
    var m := ArityOf(op.kind).takes;
    TypeStepArity(op, s);
    TypeStepTyped(op, s);
    TypeStepTyped(op, b + s);
    SplitBelow(b, s, m);
    var below, top := s[..|s| - m], Codes(s[|s| - m..]);
    assert top in Signatures(op.kind);
    assert (b + below) + Entries(Signatures(op.kind)[top], op.loc) == b + (below + Entries(Signatures(op.kind)[top], op.loc));
  }

  lemma ShuffleBelow(op: Operation, b: TypeStack, s: TypeStack)
    requires IsShuffle(op.kind) && TypeStep(op, s).Ok?
    ensures TypeStep(op, b + s) == Ok(b + TypeStep(op, s).value)
  {
    var m := ArityOf(op.kind).takes;
    TypeStepArity(op, s);
    TypeStepShuffle(op, s);
    TypeStepShuffle(op, b + s);
    SplitBelow(b, s, m);
    var picked := Pick(s[|s| - m..], Shuffle(op.kind));
    assert (b + s[..|s| - m]) + picked == b + (s[..|s| - m] + picked);
  }

  lemma SyscallBelow(op: Operation, b: TypeStack, s: TypeStack)
    requires IsSyscall(op.kind) && TypeStep(op, s).Ok?
    ensures TypeStep(op, b + s) == Ok(b + TypeStep(op, s).value)
  {
    var m := ArityOf(op.kind).takes;
    TypeStepSyscall(op, s);
    TypeStepSyscall(op, b + s);
    SplitBelow(b, s, m);
    var result := [TypeEntry(IntType, op.loc)];
    assert (b + s[..|s| - m]) + result == b + (s[..|s| - m] + result);
  }

  lemma OtherBelow(op: Operation, b: TypeStack, s: TypeStack)
    requires (op.kind.Not? || op.kind.Else? || op.kind.While? || op.kind.End?) && TypeStep(op, s).Ok?
    ensures TypeStep(op, b + s) == Ok(b + TypeStep(op, s).value)
  {
    if op.kind.Not? {
      TypeStepNot(op, s);
      TypeStepNot(op, b + s);
      assert (b + s)[|b + s| - 1] == s[|s| - 1];
    } else {
      TypeStepFlow(op, s);
      TypeStepFlow(op, b + s);
    }
  }

  /** Whether an op succeeds, and what it leaves on top, depends only on the entries it takes. */
  lemma TypeStepBelow(op: Operation, b: TypeStack, s: TypeStack)
    requires TypeStep(op, s).Ok?
    ensures TypeStep(op, b + s) == Ok(b + TypeStep(op, s).value)
  {
    var k := op.kind;
    if IsPush(k) {
      PushBelow(op, b, s);
    } else if IsTyped(k) {
      TypedBelow(op, b, s);
    } else if IsShuffle(k) {
      ShuffleBelow(op, b, s);
    } else if IsSyscall(k) {
      SyscallBelow(op, b, s);
    } else if k.Bind? || k.Use? {
      TypeStepUnexpanded(op, s);
    } else {
      OtherBelow(op, b, s);
    }
  }

  // ---------------------------------------------------------------------------------------
  // The whole pass.

  /** The pass is a fold: checking `p + q` checks `p`, then `q` from the stack `p` left. */
  lemma {:induction false} TypeFoldAppend(p: seq<Operation>, q: seq<Operation>, s: TypeStack)
    ensures TypeFold(p + q, s) == if TypeFold(p, s).Err? then TypeFold(p, s) else TypeFold(q, TypeFold(p, s).value)
  {
    if p == [] {
      assert p + q == q;
    } else {
      assert (p + q)[0] == p[0] && (p + q)[1..] == p[1..] + q;
      match TypeStep(p[0], s)
      case Err(e) =>
      case Ok(s') => TypeFoldAppend(p[1..], q, s');
    }
  }

  /** The net number of entries the ops leave, by the arity table. */
  function Effect(ops: seq<Operation>): int
  {
    if ops == [] then 0 else ArityOf(ops[0].kind).gives - ArityOf(ops[0].kind).takes + Effect(ops[1..])
  }

  lemma {:induction false} TypeFoldEffect(ops: seq<Operation>, s: TypeStack)
    requires TypeFold(ops, s).Ok?
    ensures |TypeFold(ops, s).value| == |s| + Effect(ops)
  {
    if ops != [] {
      TypeStepArity(ops[0], s);
      TypeFoldEffect(ops[1..], TypeStep(ops[0], s).value);
    }
  }

  /** A program that passes the check leaves, by the arity table, as many entries as it takes. */
  lemma TypeCheckBalanced(program: seq<Operation>)
    requires TypeCheck(program).Ok?
    ensures Effect(program) == 0
  {
    TypeFoldEffect(program, []);
  }

  /** A program that gets through the pass holds no `bind` or `use`. */
  lemma {:induction false} TypeFoldExpanded(ops: seq<Operation>, s: TypeStack)
    requires TypeFold(ops, s).Ok?
    ensures forall i :: 0 <= i < |ops| ==> !ops[i].kind.Bind? && !ops[i].kind.Use?
  {
    if ops != [] {
      if ops[0].kind.Bind? || ops[0].kind.Use? {
        TypeStepUnexpanded(ops[0], s);
      }
      TypeFoldExpanded(ops[1..], TypeStep(ops[0], s).value);
      assert forall i :: 1 <= i < |ops| ==> ops[i] == ops[1..][i - 1];
    }
  }

  lemma {:induction false} TopFirstIndex(s: TypeStack)
    ensures forall i :: 0 <= i < |s| ==> TopFirst(s)[i] == s[|s| - 1 - i]
  {
    if s != [] {
      TopFirstIndex(s[..|s| - 1]);
    }
  }

  /**
   * The final check: a program passes exactly when the pass ends on an empty stack; an error of
   * the pass is reported as it is; a left-over stack is reported at its top entry's location,
   * listing every entry from the top down.
   */
  lemma TypeCheckFinal(program: seq<Operation>)
    ensures TypeCheck(program).Ok? <==> TypeFold(program, []) == Ok([])
    ensures TypeFold(program, []).Err? ==> TypeCheck(program) == Err(TypeFold(program, []).error)
    ensures TypeFold(program, []).Ok? && TypeFold(program, []).value != [] ==>
              var t := TypeFold(program, []).value;
              TypeCheck(program).Err? && TypeCheck(program).error.UnhandledData?
              && TypeCheck(program).error.loc == t[|t| - 1].loc
              && |TypeCheck(program).error.entries| == |t|
              && forall i :: 0 <= i < |t| ==> TypeCheck(program).error.entries[i] == t[|t| - 1 - i]
  {
    if TypeFold(program, []).Ok? {
      TopFirstIndex(TypeFold(program, []).value);
    }
  }

  /**
   * A sequence of ops that passes on a stack passes the same way on any deeper stack, leaving the
   * extra entries untouched underneath.
   */
  lemma {:induction false} TypeFoldBelow(ops: seq<Operation>, b: TypeStack, s: TypeStack)
    requires TypeFold(ops, s).Ok?
    ensures TypeFold(ops, b + s) == Ok(b + TypeFold(ops, s).value)
  {
    if ops != [] {
      TypeStepBelow(ops[0], b, s);
      TypeFoldBelow(ops[1..], b, TypeStep(ops[0], s).value);
    }
  }

  lemma TypeFoldCons(op: Operation, q: seq<Operation>, s: TypeStack)
    ensures TypeFold([op] + q, s) == if TypeStep(op, s).Err? then Err(TypeStep(op, s).error) else TypeFold(q, TypeStep(op, s).value)
  {
    assert ([op] + q)[0] == op && ([op] + q)[1..] == q;
  }

  lemma TypeFoldEnd(ops: seq<Operation>, d: Operation, s: TypeStack)
    requires d.kind.Else? || d.kind.While? || d.kind.End?
    ensures TypeFold(ops + [d], s) == TypeFold(ops, s)
  {
    TypeFoldAppend(ops, [d], s);
    if TypeFold(ops, s).Ok? {
      TypeFoldCons(d, [], TypeFold(ops, s).value);
      TypeStepFlow(d, TypeFold(ops, s).value);
      assert [d] + [] == [d];
    }
  }

  /**
   * No merging of branches: `if A else B end` is checked as the straight line `A B` once `if`
   * has taken its `bool`, so `B` starts from the stack `A` left, not from the one `A` started on.
   */
  lemma {:induction false} TypeFoldIfElse(c: Operation, a: seq<Operation>, e: Operation, b: seq<Operation>, d: Operation, s: TypeStack)
    requires c.kind.If? && e.kind.Else? && d.kind.End? && |s| > 0 && s[|s| - 1].code == BoolType
    ensures TypeFold([c] + a + [e] + b + [d], s) == TypeFold(a + b, s[..|s| - 1])
  {
    var inner := s[..|s| - 1];
    assert [c] + a + [e] + b + [d] == [c] + ((a + [e]) + (b + [d]));
    TypeFoldCons(c, (a + [e]) + (b + [d]), s);
    assert TypeStep(c, s) == Ok(inner);
    TypeFoldAppend(a + [e], b + [d], inner);
    TypeFoldEnd(a, e, inner);
    TypeFoldAppend(a, b, inner);
    if TypeFold(a, inner).Ok? {
      TypeFoldEnd(b, d, TypeFold(a, inner).value);
    }
  }
}
