/**
 * The first x86-64 generator of the Go rewrite (internal/compiler/compiler.go): the `dump`
 * helper, the entry point, one fixed template per op of a thirteen-op language, and the
 * `exit` system call. Each template is written here as a list of instructions whose spelling
 * is the text the generator appends; a small machine (`Cpu`) gives the instructions their
 * meaning, so that each template can be shown to do to the hardware stack what the op means.
 */
module GoCompiler {
  import opened Wrappers
  import opened Decimal
  import GoStack
  import GoSyntax
  import GoRunner

  /** The thirteen opcodes the generator's exhaustiveness assertion counts. */
  datatype OpCode =
    | OpPush | OpPlus | OpMinus | OpMultiply | OpDivision
    | OpEqual | OpLess | OpGreater | OpLessOrEqual | OpGreaterOrEqual
    | OpDump | OpCopy | OpSwap

  datatype Operation = Operation(code: OpCode, value: int)

  // ---------------------------------------------------------------------------------------
  // Instructions and their text

  datatype Reg = Rax | Rbx | Rcx | Rdx | Rdi

  /** The conditions of the conditional moves `cmove`, `cmovl`, `cmovg`, `cmovle`, `cmovge`. */
  datatype Cond = E | L | G | LE | GE

  datatype Instr =
    | Note(text: string)  // a comment line
    | PushImm(value: int)
    | PushReg(src: Reg)
    | PopReg(dst: Reg)
    | MovImm(dst: Reg, value: int)
    | Add(dst: Reg, src: Reg)
    | Sub(dst: Reg, src: Reg)
    | Imul(dst: Reg, src: Reg)
    | Xor(dst: Reg, src: Reg)
    | Div(src: Reg)
    | Cmp(left: Reg, right: Reg)
    | CMov(cond: Cond, dst: Reg, src: Reg)
    | CallDump
    | Syscall

  function RegName(r: Reg): string
  {
    match r
    case Rax => "rax"
    case Rbx => "rbx"
    case Rcx => "rcx"
    case Rdx => "rdx"
    case Rdi => "rdi"
  }

  function CondSuffix(c: Cond): string
  {
    match c
    case E => "e"
    case L => "l"
    case G => "g"
    case LE => "le"
    case GE => "ge"
  }

  function Operands(d: Reg, s: Reg): string { RegName(d) + ", " + RegName(s) }

  /** The line the generator writes for an instruction. */
  function Spell(i: Instr): string
  {
    match i
    case Note(t) => t
    case PushImm(v) => "    push " + IntToString(v)
    case PushReg(r) => "    push " + RegName(r)
    case PopReg(r) => "    pop " + RegName(r)
    case MovImm(r, v) => "    mov " + RegName(r) + ", " + IntToString(v)
    case Add(d, s) => "    add " + Operands(d, s)
    case Sub(d, s) => "    sub " + Operands(d, s)
    case Imul(d, s) => "    imul " + Operands(d, s)
    case Xor(d, s) => "    xor " + Operands(d, s)
    case Div(s) => "    div " + RegName(s)
    case Cmp(l, r) => "    cmp " + Operands(l, r)
    case CMov(c, d, s) => "    cmov" + CondSuffix(c) + " " + Operands(d, s)
    case CallDump => "    call dump"
    case Syscall => "    syscall"
  }

  function Spellings(text: seq<Instr>): (lines: seq<string>)
    ensures |lines| == |text| && forall k :: 0 <= k < |text| ==> lines[k] == Spell(text[k])
  {
    seq(|text|, k requires 0 <= k < |text| => Spell(text[k]))
  }

  lemma SpellingsAppend(a: seq<Instr>, b: seq<Instr>)
    ensures Spellings(a + b) == Spellings(a) + Spellings(b)
  {
  }

  // ---------------------------------------------------------------------------------------
  // The templates

  /** A comparison: `rcx` starts at 0 and becomes 1 when the conditional move fires. */
  function ComparisonText(comment: string, compare: Instr, c: Cond): seq<Instr>
  {
    [Note(comment), MovImm(Rcx, 0), MovImm(Rdx, 1), PopReg(Rax), PopReg(Rbx), compare, CMov(c, Rcx, Rdx), PushReg(Rcx)]
  }

  /** The lines appended for one op (the comments of `<=` and `>=` are those of `<` and `>`). */
  function OpText(op: Operation): seq<Instr>
  {
    match op.code
    case OpPush => [Note("    ; -- Push " + IntToString(op.value) + " --"), PushImm(op.value)]
    case OpPlus => [Note("    ; -- Plus --"), PopReg(Rax), PopReg(Rbx), Add(Rax, Rbx), PushReg(Rax)]
    case OpMinus => [Note("    ; -- Minus --"), PopReg(Rax), PopReg(Rbx), Sub(Rbx, Rax), PushReg(Rbx)]
    case OpMultiply => [Note("    ; -- Multiply --"), PopReg(Rax), PopReg(Rbx), Imul(Rax, Rbx), PushReg(Rax)]
    case OpDivision =>
      [Note("    ; -- Division --"), PopReg(Rbx), PopReg(Rax), Xor(Rdx, Rdx), Div(Rbx), PushReg(Rax)]
    case OpEqual => ComparisonText("    ; -- Equal --", Cmp(Rax, Rbx), E)
    case OpLess => ComparisonText("    ; -- Less --", Cmp(Rbx, Rax), L)
    case OpGreater => ComparisonText("    ; -- Greater --", Cmp(Rbx, Rax), G)
    case OpLessOrEqual => ComparisonText("    ; -- Less --", Cmp(Rbx, Rax), LE)
    case OpGreaterOrEqual => ComparisonText("    ; -- Greater --", Cmp(Rbx, Rax), GE)
    case OpDump => [Note("    ; -- Dump --"), PopReg(Rdi), CallDump]
    case OpCopy => [Note("    ; -- Copy --"), PopReg(Rax), PushReg(Rax), PushReg(Rax)]
    case OpSwap => [Note("    ; -- Swap --"), PopReg(Rax), PopReg(Rbx), PushReg(Rax), PushReg(Rbx)]
  }

  /** The instructions of the whole op loop. */
  function Code(p: seq<Operation>): seq<Instr>
  {
    if p == [] then [] else Code(p[..|p| - 1]) + OpText(p[|p| - 1])
  }

  const ExitText: seq<Instr> := [Note("    ; -- Exit --"), MovImm(Rax, 60), MovImm(Rdi, 0), Syscall]

  /** The decimal-print helper `dump`, emitted first. */
  const DumpHelper: seq<string> := [
    "dump:",
    "    mov     r9, -3689348814741910323", "    sub     rsp, 40", "    mov     BYTE [rsp+31], 10",
    "    lea     rcx, [rsp+30]", ".L2:", "    mov     rax, rdi", "    lea     r8, [rsp+32]", "    mul     r9",
    "    mov     rax, rdi", "    sub     r8, rcx", "    shr     rdx, 3", "    lea     rsi, [rdx+rdx*4]",
    "    add     rsi, rsi", "    sub     rax, rsi", "    add     eax, 48", "    mov     BYTE [rcx], al",
    "    mov     rax, rdi", "    mov     rdi, rdx", "    mov     rdx, rcx", "    sub     rcx, 1",
    "    cmp     rax, 9", "    ja      .L2", "    lea     rax, [rsp+32]", "    mov     edi, 1",
    "    sub     rdx, rax", "    xor     eax, eax", "    lea     rsi, [rsp+32+rdx]", "    mov     rdx, r8",
    "    mov     rax, 1", "    syscall", "    add     rsp, 40", "    ret"]

  /** The blank line after the helper and the entry point. */
  const Header: seq<string> := ["\n", "section .text", "    global _start", "_start:"]

  /** The lines the generator writes, given the helper's text. */
  function Listing(helper: seq<string>, p: seq<Operation>): seq<string>
  {
    helper + Header + Spellings(Code(p) + ExitText)
  }

  const ExitLines: seq<string> := ["    ; -- Exit --", "    mov rax, 60", "    mov rdi, 0", "    syscall"]

  /**
   * The text begins with the helper, then `section .text`, `global _start` and `_start:`, and
   * ends with the `exit` system call with status 0; the ops' lines lie in between.
   */
  lemma ListingShape(helper: seq<string>, p: seq<Operation>)
    ensures Listing(helper, p) == helper + Header + Spellings(Code(p)) + ExitLines
  {
    SpellingsAppend(Code(p), ExitText);
    ExitSpellings();
  }

  lemma ExitSpellings()
    ensures Spellings(ExitText) == ExitLines
  {
    assert NatToString(6) == [DigitChar(6)] == "6";
    assert NatToString(60) == NatToString(6) + [DigitChar(0)] == "60";
    assert NatToString(0) == [DigitChar(0)] == "0";
    var lines := Spellings(ExitText);
    assert lines[1] == "    mov " + RegName(Rax) + ", " + IntToString(60) == ExitLines[1];
    assert lines[2] == "    mov " + RegName(Rdi) + ", " + IntToString(0) == ExitLines[2];
  }

  /** `push`: a comment naming the value, then `push <value>`. */
  lemma PushText(v: int)
    ensures Spellings(OpText(Operation(OpPush, v))) == ["    ; -- Push " + IntToString(v) + " --", "    push " + IntToString(v)]
  {
  }

  // ---------------------------------------------------------------------------------------
  // The generator as the source runs it

  lemma CodeSnoc(p: seq<Operation>, i: nat)
    requires i < |p|
    ensures Code(p[..i + 1]) == Code(p[..i]) + OpText(p[i])
  {
    assert p[..i + 1][..i] == p[..i];
  }

  lemma EmitStep(program: seq<Operation>, i: nat, prefix: seq<string>)
    requires i < |program|
    ensures prefix + Spellings(Code(program[..i + 1]))
            == prefix + Spellings(Code(program[..i])) + Spellings(OpText(program[i]))
  {
    CodeSnoc(program, i);
    SpellingsAppend(Code(program[..i]), OpText(program[i]));
  }

  /** The loop over the ops: each op's lines are appended to `content` in program order. */
  method EmitOps(program: seq<Operation>, prefix: seq<string>) returns (content: seq<string>)
    ensures content == prefix + Spellings(Code(program))
  {
    content := prefix;
    var i := 0;
    while i < |program|
      invariant 0 <= i <= |program|
      invariant content == prefix + Spellings(Code(program[..i]))
    {
      EmitStep(program, i, prefix);
      content := content + Spellings(OpText(program[i]));
      i := i + 1;
    }
    assert program[..i] == program;
  }

  /** `compile_x86_64` up to the file write: the helper, the entry point, each op's lines, the exit. */
  method CompileX86(program: seq<Operation>) returns (content: seq<string>)
    ensures content == Listing(DumpHelper, program)
  {
    content := EmitOps(program, DumpHelper + Header);
    SpellingsAppend(Code(program), ExitText);
    content := content + Spellings(ExitText);
  }

  // ---------------------------------------------------------------------------------------
  // What the instructions do

  /**
   * The registers the templates use, the operands of the last `cmp`, the hardware stack, the
   * values handed to `dump`, and the exit status once `exit` has been called.
   */
  datatype Cpu = Cpu(rax: int, rbx: int, rcx: int, rdx: int, rdi: int, left: int, right: int,
                     stack: seq<int>, printed: seq<int>, status: Option<int>)

  function Get(m: Cpu, r: Reg): int
  {
    match r
    case Rax => m.rax
    case Rbx => m.rbx
    case Rcx => m.rcx
    case Rdx => m.rdx
    case Rdi => m.rdi
  }

  function Set(m: Cpu, r: Reg, v: int): (n: Cpu)
    ensures Get(n, r) == v && forall q :: q != r ==> Get(n, q) == Get(m, q)
    ensures n.stack == m.stack && n.printed == m.printed && n.status == m.status
    ensures n.left == m.left && n.right == m.right
  {
    match r
    case Rax => m.(rax := v)
    case Rbx => m.(rbx := v)
    case Rcx => m.(rcx := v)
    case Rdx => m.(rdx := v)
    case Rdi => m.(rdi := v)
  }

  /** The signed conditions, on the operands of the last `cmp`. */
  predicate Holds(c: Cond, l: int, r: int)
  {
    match c
    case E => l == r
    case L => l < r
    case G => l > r
    case LE => l <= r
    case GE => l >= r
  }

  /**
   * One instruction; `None` is a fault: a `pop` from an empty stack, or a division the 64-bit
   * unsigned `div` would not perform as the ops mean it (a zero or negative divisor, a negative
   * dividend, a non-zero `rdx`).
   */
  function Exec1(i: Instr, m: Cpu): Option<Cpu>
  {
    match i
    case Note(_) => Some(m)
    case PushImm(v) => Some(m.(stack := m.stack + [v]))
    case PushReg(r) => Some(m.(stack := m.stack + [Get(m, r)]))
    case PopReg(r) =>
      if |m.stack| == 0 then None
      else Some(Set(m.(stack := m.stack[..|m.stack| - 1]), r, m.stack[|m.stack| - 1]))
    case MovImm(r, v) => Some(Set(m, r, v))
    case Add(d, s) => Some(Set(m, d, Get(m, d) + Get(m, s)))
    case Sub(d, s) => Some(Set(m, d, Get(m, d) - Get(m, s)))
    case Imul(d, s) => Some(Set(m, d, Get(m, d) * Get(m, s)))
    case Xor(d, s) => Some(Set(m, d, GoRunner.BitXor(Get(m, d), Get(m, s))))
    case Div(s) =>
      var d := Get(m, s);
      if d <= 0 || m.rdx != 0 || m.rax < 0 then None
      else Some(m.(rax := m.rax / d, rdx := m.rax % d))
    case Cmp(l, r) => Some(m.(left := Get(m, l), right := Get(m, r)))
    case CMov(c, d, s) => if Holds(c, m.left, m.right) then Some(Set(m, d, Get(m, s))) else Some(m)
    case CallDump => Some(m.(printed := m.printed + [m.rdi]))
    case Syscall => if m.rax == 60 then Some(m.(status := Some(m.rdi))) else None
  }

  /** The instructions from index `k` on. */
  function ExecFrom(text: seq<Instr>, k: nat, m: Cpu): Option<Cpu>
    requires k <= |text|
    decreases |text| - k
  {
    if k == |text| then Some(m)
    else
      var n := Exec1(text[k], m);
      if n.None? then None else ExecFrom(text, k + 1, n.value)
  }

  function Exec(text: seq<Instr>, m: Cpu): Option<Cpu>
  {
    ExecFrom(text, 0, m)
  }

  /** Running `a` then `b` is running `a + b`. */
  lemma {:induction false} ExecFromAppend(a: seq<Instr>, b: seq<Instr>, k: nat, m: Cpu)
    requires k <= |a|
    ensures ExecFrom(a + b, k, m) == if ExecFrom(a, k, m).None? then None else Exec(b, ExecFrom(a, k, m).value)
    decreases |a| - k
  {
    if k == |a| {
      ExecFromShift(a, b, 0, m);
    } else {
      assert (a + b)[k] == a[k];
      var n := Exec1(a[k], m);
      if n.Some? {
        ExecFromAppend(a, b, k + 1, n.value);
      }
    }
  }

  lemma {:induction false} ExecFromShift(a: seq<Instr>, b: seq<Instr>, k: nat, m: Cpu)
    requires k <= |b|
    ensures ExecFrom(a + b, |a| + k, m) == ExecFrom(b, k, m)
    decreases |b| - k
  {
    if k < |b| {
      assert (a + b)[|a| + k] == b[k];
      var n := Exec1(b[k], m);
      if n.Some? {
        ExecFromShift(a, b, k + 1, n.value);
      }
    }
  }

  lemma ExecAppend(a: seq<Instr>, b: seq<Instr>, m: Cpu)
    ensures Exec(a + b, m) == if Exec(a, m).None? then None else Exec(b, Exec(a, m).value)
  {
    ExecFromAppend(a, b, 0, m);
  }

  // ---------------------------------------------------------------------------------------
  // What the ops mean

  /** The values on the stack and the values printed so far. */
  datatype Vm = Vm(stack: seq<int>, printed: seq<int>)

  predicate IsBinary(c: OpCode)
  {
    c.OpPlus? || c.OpMinus? || c.OpMultiply? || c.OpDivision? || c.OpEqual? || c.OpLess? || c.OpGreater?
    || c.OpLessOrEqual? || c.OpGreaterOrEqual?
  }

  /** The value a binary op computes from `b`, under the top `a`; division needs `b >= 0 < a`. */
  function BinaryValue(c: OpCode, b: int, a: int): Option<int>
    requires IsBinary(c)
  {
    match c
    case OpPlus => Some(a + b)
    case OpMinus => Some(b - a)
    case OpMultiply => Some(b * a)
    case OpDivision => if b >= 0 && a > 0 then Some(b / a) else None
    case OpEqual => Some(if b == a then 1 else 0)
    case OpLess => Some(if b < a then 1 else 0)
    case OpGreater => Some(if b > a then 1 else 0)
    case OpLessOrEqual => Some(if b <= a then 1 else 0)
    case OpGreaterOrEqual => Some(if b >= a then 1 else 0)
  }

  /** One op on the stack machine; `None` when the stack holds too few values or a division is undefined. */
  function Apply(op: Operation, v: Vm): Option<Vm>
  {
    var s := v.stack;
    if op.code.OpPush? then Some(v.(stack := s + [op.value]))
    else if |s| == 0 then None
    else if op.code.OpDump? then Some(Vm(s[..|s| - 1], v.printed + [s[|s| - 1]]))
    else if op.code.OpCopy? then Some(v.(stack := s + [s[|s| - 1]]))
    else if |s| == 1 then None
    else if op.code.OpSwap? then Some(v.(stack := s[..|s| - 2] + [s[|s| - 1], s[|s| - 2]]))
    else
      var r := BinaryValue(op.code, s[|s| - 2], s[|s| - 1]);
      if r.None? then None else Some(v.(stack := s[..|s| - 2] + [r.value]))
  }

  /** A program on the stack machine. */
  function Interpret(p: seq<Operation>, v: Vm): Option<Vm>
  {
    if p == [] then Some(v)
    else
      var w := Interpret(p[..|p| - 1], v);
      if w.None? then None else Apply(p[|p| - 1], w.value)
  }

  // ---------------------------------------------------------------------------------------
  // The templates do what the ops mean

  /** `m` and `n` agree on the stack, the printed values and the exit status. */
  predicate SameState(n: Option<Cpu>, v: Option<Vm>, m: Cpu)
  {
    (n.Some? <==> v.Some?)
    && (n.Some? ==> n.value.stack == v.value.stack && n.value.printed == v.value.printed && n.value.status == m.status)
  }

  /** `pop x`: the top goes into `x`; on an empty stack, a fault. */
  lemma PopStep(text: seq<Instr>, k: nat, m: Cpu, x: Reg)
    requires k < |text| && text[k] == PopReg(x)
    ensures |m.stack| == 0 ==> ExecFrom(text, k, m) == None
    ensures |m.stack| > 0 ==>
              ExecFrom(text, k, m) == ExecFrom(text, k + 1, Set(m.(stack := m.stack[..|m.stack| - 1]), x, m.stack[|m.stack| - 1]))
  {
  }

  /** An instruction that does not fault. */
  lemma PlainStep(text: seq<Instr>, k: nat, m: Cpu)
    requires k < |text| && Exec1(text[k], m).Some?
    ensures ExecFrom(text, k, m) == ExecFrom(text, k + 1, Exec1(text[k], m).value)
  {
  }

  /** `pop x` then `pop y` on `... b a`: `x` holds `a` and `y` holds `b`; fewer than two entries fault. */
  lemma PopTwo(text: seq<Instr>, k: nat, m: Cpu, x: Reg, y: Reg)
    requires k + 2 <= |text| && text[k] == PopReg(x) && text[k + 1] == PopReg(y) && x != y
    ensures |m.stack| < 2 ==> ExecFrom(text, k, m) == None
    ensures var s := m.stack;
            |s| >= 2 ==>
              ExecFrom(text, k, m) == ExecFrom(text, k + 2, Set(Set(m.(stack := s[..|s| - 2]), x, s[|s| - 1]), y, s[|s| - 2]))
  {
    var s := m.stack;
    PopStep(text, k, m, x);
    if |s| > 0 {
      var m1 := Set(m.(stack := s[..|s| - 1]), x, s[|s| - 1]);
      PopStep(text, k + 1, m1, y);
      if |s| >= 2 {
        assert m1.stack[..|m1.stack| - 1] == s[..|s| - 2];
      }
    }
  }

  /**
   * The shape of `+`, `-` and `*`: a comment, `pop x`, `pop y`, an instruction combining the two
   * registers, and `push z`.
   */
  lemma PopPopPush(text: seq<Instr>, m: Cpu, x: Reg, y: Reg, z: Reg)
    requires |text| == 5 && text[0].Note? && text[1] == PopReg(x) && text[2] == PopReg(y) && text[4] == PushReg(z)
    requires x != y && (text[3].Add? || text[3].Sub? || text[3].Imul?)
    ensures |m.stack| < 2 ==> Exec(text, m) == None
    ensures var s := m.stack;
            |s| >= 2 ==>
              var m2 := Set(Set(m.(stack := s[..|s| - 2]), x, s[|s| - 1]), y, s[|s| - 2]);
              var m3 := Exec1(text[3], m2).value;
              Exec(text, m) == Some(m3.(stack := m3.stack + [Get(m3, z)]))
  {
    var s := m.stack;
    PlainStep(text, 0, m);
    PopTwo(text, 1, m, x, y);
    if |s| >= 2 {
      var m2 := Set(Set(m.(stack := s[..|s| - 2]), x, s[|s| - 1]), y, s[|s| - 2]);
      var m3 := Exec1(text[3], m2).value;
      PlainStep(text, 3, m2);
      PlainStep(text, 4, m3);
    }
  }

  /** `+`, `-` and `*` leave `a + b`, `b - a` and `b * a` where `b` and the top `a` were. */
  lemma ArithmeticAgrees(op: Operation, m: Cpu)
    requires op.code.OpPlus? || op.code.OpMinus? || op.code.OpMultiply?
    ensures SameState(Exec(OpText(op), m), Apply(op, Vm(m.stack, m.printed)), m)
  {
    var t := OpText(op);
    var z := if op.code.OpMinus? then Rbx else Rax;
    PopPopPush(t, m, Rax, Rbx, z);
  }

  /** `/` leaves `b / a`, through the unsigned `div` of `rdx:rax` by `rbx`. */
  lemma DivisionAgrees(op: Operation, m: Cpu)
    requires op.code.OpDivision?
    ensures SameState(Exec(OpText(op), m), Apply(op, Vm(m.stack, m.printed)), m)
  {
    DivisionText(OpText(op), m);
  }

  /**
   * The division template, `pop rbx`, `pop rax`, `xor rdx, rdx`, `div rbx`, `push rax`, after
   * its comment: it runs exactly when `b >= 0 < a` for the top `a` over `b`, leaving `b / a`.
   */
  lemma DivisionText(t: seq<Instr>, m: Cpu)
    requires |t| == 6 && t[0].Note? && t[1] == PopReg(Rbx) && t[2] == PopReg(Rax)
    requires t[3] == Xor(Rdx, Rdx) && t[4] == Div(Rbx) && t[5] == PushReg(Rax)
    ensures var s := m.stack;
            var defined := |s| >= 2 && s[|s| - 2] >= 0 && s[|s| - 1] > 0;
            && (Exec(t, m).Some? <==> defined)
            && (defined ==> Exec(t, m).value.stack == s[..|s| - 2] + [s[|s| - 2] / s[|s| - 1]]
                            && Exec(t, m).value.printed == m.printed && Exec(t, m).value.status == m.status)
  {
    var s := m.stack;
    PlainStep(t, 0, m);
    PopTwo(t, 1, m, Rbx, Rax);
    if |s| >= 2 {
      var m2 := Set(Set(m.(stack := s[..|s| - 2]), Rbx, s[|s| - 1]), Rax, s[|s| - 2]);
      GoRunner.BitwiseSelf(m2.rdx);
      var m3 := m2.(rdx := 0);
      PlainStep(t, 3, m2);
      if m3.rax >= 0 && m3.rbx > 0 {
        var m4 := m3.(rax := m3.rax / m3.rbx, rdx := m3.rax % m3.rbx);
        PlainStep(t, 4, m3);
        PlainStep(t, 5, m4);
      }
    }
  }

  /** The end of a comparison template: `cmp l, r`, the conditional move of 1 into `rcx`, `push rcx`. */
  lemma CompareTail(t: seq<Instr>, m: Cpu, l: Reg, r: Reg, c: Cond)
    requires |t| == 8 && t[5] == Cmp(l, r) && t[6] == CMov(c, Rcx, Rdx) && t[7] == PushReg(Rcx)
    requires Get(m, Rcx) == 0 && Get(m, Rdx) == 1
    ensures var bit := if Holds(c, Get(m, l), Get(m, r)) then 1 else 0;
            ExecFrom(t, 5, m).Some? && ExecFrom(t, 5, m).value.stack == m.stack + [bit]
            && ExecFrom(t, 5, m).value.printed == m.printed && ExecFrom(t, 5, m).value.status == m.status
  {
    var m4 := m.(left := Get(m, l), right := Get(m, r));
    var m5 := if Holds(c, m4.left, m4.right) then Set(m4, Rcx, 1) else m4;
    assert Get(m5, Rcx) == (if Holds(c, m4.left, m4.right) then 1 else 0);
    var m6 := m5.(stack := m5.stack + [Get(m5, Rcx)]);
    PlainStep(t, 5, m);
    assert Exec1(t[6], m4) == Some(m5);
    PlainStep(t, 6, m4);
    PlainStep(t, 7, m5);
    assert ExecFrom(t, 8, m6) == Some(m6);
  }

  /** The start of a comparison template: a comment, `rcx := 0`, `rdx := 1`, `pop rax`, `pop rbx`. */
  lemma CompareHead(t: seq<Instr>, m: Cpu)
    requires |t| == 8 && t[0].Note? && t[1] == MovImm(Rcx, 0) && t[2] == MovImm(Rdx, 1)
    requires t[3] == PopReg(Rax) && t[4] == PopReg(Rbx)
    ensures var s := m.stack;
            && (|s| < 2 ==> ExecFrom(t, 0, m) == None)
            && (|s| >= 2 ==>
                  ExecFrom(t, 0, m) == ExecFrom(t, 5, Set(Set(Set(Set(m, Rcx, 0), Rdx, 1).(stack := s[..|s| - 2]), Rax, s[|s| - 1]), Rbx, s[|s| - 2])))
  {
    PlainStep(t, 0, m);
    var m1 := Set(m, Rcx, 0);
    PlainStep(t, 1, m);
    var m2 := Set(m1, Rdx, 1);
    PlainStep(t, 2, m1);
    PopTwo(t, 3, m2, Rax, Rbx);
  }

  /**
   * A comparison template on `... b a`: `rax` gets `a`, `rbx` gets `b`, the `cmp` compares the
   * two registers in the order given, and 1 is left in their place when the condition holds.
   */
  lemma ComparisonRun(comment: string, l: Reg, r: Reg, c: Cond, m: Cpu)
    requires (l == Rax && r == Rbx) || (l == Rbx && r == Rax)
    ensures var t, s := ComparisonText(comment, Cmp(l, r), c), m.stack;
            && (|s| < 2 ==> Exec(t, m) == None)
            && (|s| >= 2 ==>
                  var a, b := s[|s| - 1], s[|s| - 2];
                  var bit := if (if l == Rax then Holds(c, a, b) else Holds(c, b, a)) then 1 else 0;
                  Exec(t, m).Some? && Exec(t, m).value.stack == s[..|s| - 2] + [bit]
                  && Exec(t, m).value.printed == m.printed && Exec(t, m).value.status == m.status)
  {
    var t := ComparisonText(comment, Cmp(l, r), c);
    var s := m.stack;
    CompareHead(t, m);
    if |s| >= 2 {
      var a, b := s[|s| - 1], s[|s| - 2];
      var m3 := Set(Set(Set(Set(m, Rcx, 0), Rdx, 1).(stack := s[..|s| - 2]), Rax, a), Rbx, b);
      assert Get(m3, Rax) == a && Get(m3, Rbx) == b && Get(m3, Rcx) == 0 && Get(m3, Rdx) == 1;
      CompareTail(t, m3, l, r, c);
    }
  }

  /** A comparison leaves 1 where `b` and the top `a` were when `b OP a` holds, otherwise 0. */
  lemma ComparisonAgrees(op: Operation, m: Cpu)
    requires op.code.OpEqual? || op.code.OpLess? || op.code.OpGreater? || op.code.OpLessOrEqual?
             || op.code.OpGreaterOrEqual?
    ensures SameState(Exec(OpText(op), m), Apply(op, Vm(m.stack, m.printed)), m)
  {
    if op.code.OpEqual? {
      ComparisonRun("    ; -- Equal --", Rax, Rbx, E, m);
    } else {
      OrderingAgrees(op, m);
    }
  }

  /** `<`, `>`, `<=` and `>=`, which compare `rbx` (holding `b`) with `rax` (holding the top `a`). */
  lemma OrderingAgrees(op: Operation, m: Cpu)
    requires op.code.OpLess? || op.code.OpGreater? || op.code.OpLessOrEqual? || op.code.OpGreaterOrEqual?
    ensures SameState(Exec(OpText(op), m), Apply(op, Vm(m.stack, m.printed)), m)
  {
    match op.code
    case OpLess => OrderingCase(op, m, "    ; -- Less --", L);
    case OpGreater => OrderingCase(op, m, "    ; -- Greater --", G);
    case OpLessOrEqual => OrderingCase(op, m, "    ; -- Less --", LE);
    case OpGreaterOrEqual => OrderingCase(op, m, "    ; -- Greater --", GE);
  }

  /** An ordering whose template moves 1 on condition `c` after `cmp rbx, rax`, where the op's value is `b c a`. */
  lemma OrderingCase(op: Operation, m: Cpu, comment: string, c: Cond)
    requires op.code.OpLess? || op.code.OpGreater? || op.code.OpLessOrEqual? || op.code.OpGreaterOrEqual?
    requires OpText(op) == ComparisonText(comment, Cmp(Rbx, Rax), c)
    requires forall b, a :: BinaryValue(op.code, b, a) == Some(if Holds(c, b, a) then 1 else 0)
    ensures SameState(Exec(OpText(op), m), Apply(op, Vm(m.stack, m.printed)), m)
  {
    ComparisonRun(comment, Rbx, Rax, c, m);
  }

  /** `push`, `dump`, `copy` and `swap`. */
  lemma ShuffleAgrees(op: Operation, m: Cpu)
    requires op.code.OpPush? || op.code.OpDump? || op.code.OpCopy? || op.code.OpSwap?
    ensures SameState(Exec(OpText(op), m), Apply(op, Vm(m.stack, m.printed)), m)
  {
    if op.code.OpPush? {
      PushAgrees(op, m);
    } else if op.code.OpSwap? {
      SwapAgrees(op, m);
    } else {
      PopFirstAgrees(op, m);
    }
  }

  lemma PushAgrees(op: Operation, m: Cpu)
    requires op.code.OpPush?
    ensures SameState(Exec(OpText(op), m), Apply(op, Vm(m.stack, m.printed)), m)
  {
    var t := OpText(op);
    PlainStep(t, 0, m);
    PlainStep(t, 1, m);
  }

  lemma SwapAgrees(op: Operation, m: Cpu)
    requires op.code.OpSwap?
    ensures SameState(Exec(OpText(op), m), Apply(op, Vm(m.stack, m.printed)), m)
  {
    var t := OpText(op);
    var s := m.stack;
    PlainStep(t, 0, m);
    PopTwo(t, 1, m, Rax, Rbx);
    if |s| >= 2 {
      var m2 := Set(Set(m.(stack := s[..|s| - 2]), Rax, s[|s| - 1]), Rbx, s[|s| - 2]);
      PlainStep(t, 3, m2);
      PlainStep(t, 4, Exec1(t[3], m2).value);
    }
  }

  /** `dump` and `copy`, whose templates start by popping one value. */
  lemma PopFirstAgrees(op: Operation, m: Cpu)
    requires op.code.OpDump? || op.code.OpCopy?
    ensures SameState(Exec(OpText(op), m), Apply(op, Vm(m.stack, m.printed)), m)
  {
    var t := OpText(op);
    var s := m.stack;
    PlainStep(t, 0, m);
    var x := if op.code.OpDump? then Rdi else Rax;
    PopStep(t, 1, m, x);
    if |s| >= 1 {
      var m1 := Set(m.(stack := s[..|s| - 1]), x, s[|s| - 1]);
      PlainStep(t, 2, m1);
      if op.code.OpCopy? {
        PlainStep(t, 3, Exec1(t[2], m1).value);
      }
    }
  }

  /**
   * Each op's template does to the hardware stack and the printed values exactly what the op
   * means, whatever the registers hold before it, and faults exactly when the op is undefined.
   */
  lemma OpAgrees(op: Operation, m: Cpu)
    ensures SameState(Exec(OpText(op), m), Apply(op, Vm(m.stack, m.printed)), m)
  {
    if op.code.OpPlus? || op.code.OpMinus? || op.code.OpMultiply? {
      ArithmeticAgrees(op, m);
    } else if op.code.OpDivision? {
      DivisionAgrees(op, m);
    } else if op.code.OpPush? || op.code.OpDump? || op.code.OpCopy? || op.code.OpSwap? {
      ShuffleAgrees(op, m);
    } else {
      ComparisonAgrees(op, m);
    }
  }

  /** The code of a whole program does what the program means. */
  lemma {:induction false} CodeAgrees(p: seq<Operation>, m: Cpu)
    ensures SameState(Exec(Code(p), m), Interpret(p, Vm(m.stack, m.printed)), m)
    decreases |p|
  {
    if p != [] {
      var init := p[..|p| - 1];
      CodeAgrees(init, m);
      ExecAppend(Code(init), OpText(p[|p| - 1]), m);
      var n := Exec(Code(init), m);
      if n.Some? {
        OpAgrees(p[|p| - 1], n.value);
      }
    }
  }

  /** The machine at `_start`: an empty stack and nothing printed; the registers hold anything. */
  predicate AtStart(m: Cpu) { m.stack == [] && m.printed == [] && m.status.None? }

  /**
   * Compiling and running agree with interpreting: from `_start` the generated code prints the
   * values the program prints and exits with status 0, and it faults exactly when the program
   * underflows the stack or divides where division is undefined.
   */
  lemma CompiledRun(p: seq<Operation>, m: Cpu)
    requires AtStart(m)
    ensures var n, v := Exec(Code(p) + ExitText, m), Interpret(p, Vm([], []));
            (n.Some? <==> v.Some?) && (n.Some? ==> n.value.printed == v.value.printed && n.value.status == Some(0))
  {
    CodeAgrees(p, m);
    ExecAppend(Code(p), ExitText, m);
    var n := Exec(Code(p), m);
    if n.Some? {
      ExitRuns(n.value);
    }
  }

  /** The `exit` system call with status 0 ends the run, keeping the stack and what was printed. */
  lemma ExitRuns(c: Cpu)
    ensures Exec(ExitText, c).Some?
    ensures Exec(ExitText, c).value.printed == c.printed && Exec(ExitText, c).value.status == Some(0)
  {
    var m1 := Set(c, Rax, 60);
    var m2 := Set(m1, Rdi, 0);
    assert ExecFrom(ExitText, 0, c) == ExecFrom(ExitText, 1, c);
    assert ExecFrom(ExitText, 1, c) == ExecFrom(ExitText, 2, m1);
    assert ExecFrom(ExitText, 2, m1) == ExecFrom(ExitText, 3, m2);
  }

  /** The machine `m` with `base` lying under its stack. */
  function Under(base: seq<int>, m: Cpu): Cpu
  {
    m.(stack := base + m.stack)
  }

  /** An instruction that runs on a stack runs the same way on that stack with `base` under it. */
  lemma Exec1Frame(i: Instr, m: Cpu, base: seq<int>)
    requires Exec1(i, m).Some?
    ensures Exec1(i, Under(base, m)) == Some(Under(base, Exec1(i, m).value))
  {
    if i.PopReg? || i.PushImm? || i.PushReg? {
      StackInstrFrame(i, m, base);
    } else {
      RegisterInstrFrame(i, m, base);
    }
  }

  lemma StackInstrFrame(i: Instr, m: Cpu, base: seq<int>)
    requires (i.PopReg? || i.PushImm? || i.PushReg?) && Exec1(i, m).Some?
    ensures Exec1(i, Under(base, m)) == Some(Under(base, Exec1(i, m).value))
  {
    var s := m.stack;
    if i.PopReg? {
      assert (base + s)[..|base + s| - 1] == base + s[..|s| - 1];
    } else {
      var v := if i.PushImm? then i.value else Get(m, i.src);
      assert (base + s) + [v] == base + (s + [v]);
    }
  }

  /** The instructions that leave the stack alone do not look at it. */
  lemma RegisterInstrFrame(i: Instr, m: Cpu, base: seq<int>)
    requires !(i.PopReg? || i.PushImm? || i.PushReg?) && Exec1(i, m).Some?
    ensures Exec1(i, Under(base, m)) == Some(Under(base, Exec1(i, m).value))
  {
  }

  /** What runs without a fault on a stack runs the same way with anything under that stack. */
  lemma {:induction false} ExecFromFrame(text: seq<Instr>, k: nat, m: Cpu, base: seq<int>)
    requires k <= |text| && ExecFrom(text, k, m).Some?
    ensures ExecFrom(text, k, Under(base, m)) == Some(Under(base, ExecFrom(text, k, m).value))
    decreases |text| - k
  {
    if k < |text| {
      var n := Exec1(text[k], m).value;
      Exec1Frame(text[k], m, base);
      ExecFromFrame(text, k + 1, n, base);
    }
  }

  /**
   * At a real `_start` the stack is not empty: it holds `argc`, the `argv` pointers and the
   * environment. Wherever the program is defined, its code still prints the values the
   * program prints and exits with status 0, whatever that start-up stack holds.
   */
  lemma CompiledRunOnStartStack(p: seq<Operation>, m: Cpu)
    requires m.printed == [] && m.status.None?
    ensures var v := Interpret(p, Vm([], []));
            v.Some? ==>
              var n := Exec(Code(p) + ExitText, m);
              n.Some? && n.value.printed == v.value.printed && n.value.status == Some(0)
  {
    var m0 := m.(stack := []);
    CompiledRun(p, m0);
    if Interpret(p, Vm([], [])).Some? {
      ExecFromFrame(Code(p) + ExitText, 0, m0, m.stack);
      assert Under(m.stack, m0) == m;
    }
  }

  // ---------------------------------------------------------------------------------------
  // The same ops in the interpreter of the Go rewrite

  /** The op of internal/runner/runner.go with the same meaning. */
  function RunnerCode(c: OpCode): GoSyntax.Code
  {
    match c
    case OpPush => GoSyntax.PushInt
    case OpPlus => GoSyntax.Plus
    case OpMinus => GoSyntax.Minus
    case OpMultiply => GoSyntax.Mul
    case OpDivision => GoSyntax.Div
    case OpEqual => GoSyntax.Eq
    case OpLess => GoSyntax.Lt
    case OpGreater => GoSyntax.Gt
    case OpLessOrEqual => GoSyntax.Le
    case OpGreaterOrEqual => GoSyntax.Ge
    case OpDump => GoSyntax.Put
    case OpCopy => GoSyntax.Copy
    case OpSwap => GoSyntax.Swap
  }

  /**
   * Where an op is defined, the interpreter's binary op with the same meaning computes the
   * same stack: this generator and the interpreter agree on operand order and on results.
   */
  lemma BinaryMatchesRunner(op: Operation, v: Vm)
    requires IsBinary(op.code) && Apply(op, v).Some?
    ensures GoRunner.IsBinary(RunnerCode(op.code))
    ensures GoRunner.BinaryStack(RunnerCode(op.code), v.stack) == Ok(Apply(op, v).value.stack)
  {
    var s := v.stack;
    var rest, b, a := s[..|s| - 2], s[|s| - 2], s[|s| - 1];
    assert s == rest + [b, a];
    GoRunner.BinaryShape(RunnerCode(op.code), rest, b, a);
    if op.code.OpDivision? {
      assert GoRunner.Quot(b, a) == b / a;
    }
  }

  /** `Dump` prints the top as the interpreter's `put` does, and `Copy` and `Swap` are its shuffles. */
  lemma OthersMatchRunner(op: Operation, v: Vm)
    requires (op.code.OpDump? || op.code.OpCopy? || op.code.OpSwap?) && Apply(op, v).Some?
    ensures op.code.OpDump? ==> Apply(op, v).value == Vm(GoStack.Below(v.stack), v.printed + [GoStack.Top(v.stack)])
    ensures !op.code.OpDump? ==> GoRunner.IsShuffle(RunnerCode(op.code))
                                 && Apply(op, v).value.stack == GoRunner.Shuffle(RunnerCode(op.code), v.stack)
  {
    var s := v.stack;
    if op.code.OpSwap? {
      GoRunner.ShuffleShape(s[..|s| - 2], s[|s| - 2], s[|s| - 1]);
      assert s == s[..|s| - 2] + [s[|s| - 2], s[|s| - 1]];
    }
  }
}
