/**
 * `compile_x86_64` of the Go rewrite (internal/compiler/x86_64.go): the NASM text for a
 * cross-referenced program. The `put` helper comes first, then one block of lines per op, each
 * after a comment naming the op's location, then the `exit` system call and a data section
 * with one entry per string literal, in program order and without sharing.
 */
module GoX86 {
  import opened Wrappers
  import opened Decimal
  import opened GoSyntax
  import opened AsmText
  import GoLexer
  import GoStack

  /** Labels are `_addr_<n>`, pool entries `_str_<n>`. */
  const GoNaming := Naming("_addr_", "_str_")

  // ---------------------------------------------------------------------------------------
  // The fixed text of the ops that take no operand.

  /** A line of fixed text: a push of an operand, a pop into a register, or any other line. */
  datatype Instruction = Push(operand: string) | Pop(register: string) | Other(text: string)

  function Spell(i: Instruction): string
  {
    match i
    case Push(o) => "    push    " + o
    case Pop(r) => "    pop     " + r
    case Other(t) => t
  }

  function Spellings(text: seq<Instruction>): (lines: seq<string>)
    ensures |lines| == |text|
  {
    seq(|text|, k requires 0 <= k < |text| => Spell(text[k]))
  }

  function Comment(text: string): Instruction { Other("    ; -- " + text + " --") }

  function BinaryText(comment: string, first: string, second: string, operation: string, result: string): seq<Instruction>
  {
    [Comment(comment), Pop(first), Pop(second), Other(operation), Push(result)]
  }

  function ArithmeticText(c: Code): seq<Instruction>
  {
    if c.Plus? then BinaryText("plus", "rax", "rbx", "    add     rax, rbx", "rax")
    else if c.Minus? then BinaryText("minus", "rax", "rbx", "    sub     rbx, rax", "rbx")
    else if c.Mul? then BinaryText("multiply", "rax", "rbx", "    imul    rax, rbx", "rax")
    else if c.Div? then
      [Comment("division"), Pop("rbx"), Pop("rax"), Other("    xor     rdx, rdx"), Other("    div     rbx"), Push("rax")]
    else if c.Mod? then
      [Comment("mod"), Pop("rbx"), Pop("rax"), Other("    xor     rdx, rdx"), Other("    div     rbx"), Push("rdx")]
    else if c.Bor? then BinaryText("binary or", "rax", "rbx", "    or      rax, rbx", "rax")
    else if c.Band? then BinaryText("binary and", "rax", "rbx", "    and     rax, rbx", "rax")
    else if c.Xor? then BinaryText("xor", "rax", "rbx", "    xor     rax, rbx", "rax")
    else if c.Shl? then BinaryText("shift left", "rcx", "rax", "    shl     rax, cl", "rax")
    else BinaryText("shift right", "rcx", "rax", "    shr     rax, cl", "rax")
  }

  /** A comparison sets `rcx` to 1 when the conditional move fires, else leaves it 0. */
  function ComparisonText(comment: string, compare: string, move: string): seq<Instruction>
  {
    [Comment(comment), Other("    mov     rcx, 0"), Other("    mov     rdx, 1"), Pop("rax"), Pop("rbx"),
     Other(compare), Other(move), Push("rcx")]
  }

  function CompareText(c: Code): seq<Instruction>
  {
    if c.Eq? then ComparisonText("equal", "    cmp     rax, rbx", "    cmove   rcx, rdx")
    else if c.Ne? then ComparisonText("not equal", "    cmp     rax, rbx", "    cmovne  rcx, rdx")
    else if c.Lt? then ComparisonText("less", "    cmp     rbx, rax", "    cmovl   rcx, rdx")
    else if c.Gt? then ComparisonText("greater", "    cmp     rbx, rax", "    cmovg   rcx, rdx")
    else if c.Le? then ComparisonText("less or equal", "    cmp     rbx, rax", "    cmovle  rcx, rdx")
    else ComparisonText("greater or equal", "    cmp     rbx, rax", "    cmovge  rcx, rdx")
  }

  function ShuffleText(c: Code): seq<Instruction>
  {
    if c.Put? then [Comment("put"), Pop("rdi"), Other("    call    put")]
    else if c.Copy? then [Comment("copy"), Pop("rax"), Push("rax"), Push("rax")]
    else if c.TwoCopy? then
      [Comment("two copy"), Pop("rbx"), Pop("rax"), Push("rax"), Push("rbx"), Push("rax"), Push("rbx")]
    else if c.Swap? then [Comment("swap"), Pop("rax"), Pop("rbx"), Push("rax"), Push("rbx")]
    else if c.Drop? then [Comment("drop"), Pop("rax")]
    else [Comment("over"), Pop("rax"), Pop("rbx"), Push("rbx"), Push("rax"), Push("rbx")]
  }

  function SyscallArgCount(c: Code): nat
  {
    if c.Syscall0? then 0 else if c.Syscall1? then 1 else if c.Syscall2? then 2 else 3
  }

  const ArgumentRegisters: seq<string> := ["rdi", "rsi", "rdx"]

  /** `syscallN` pops the call number into `rax`, then `N` arguments, calls, and pushes `rax`. */
  function SyscallText(c: Code): seq<Instruction>
  {
    var n := SyscallArgCount(c);
    [Comment("syscall" + IntToString(n)), Pop("rax")]
    + seq(n, j requires 0 <= j < n => Pop(ArgumentRegisters[j]))
    + [Other("    syscall"), Push("rax")]
  }

  predicate IsArithmetic(c: Code)
  {
    c.Plus? || c.Minus? || c.Mul? || c.Div? || c.Mod? || c.Bor? || c.Band? || c.Xor? || c.Shl? || c.Shr?
  }

  predicate IsComparison(c: Code) { c.Eq? || c.Ne? || c.Lt? || c.Gt? || c.Le? || c.Ge? }

  predicate IsShuffle(c: Code) { c.Put? || c.Copy? || c.TwoCopy? || c.Swap? || c.Drop? || c.Over? }

  predicate IsSyscall(c: Code) { c.Syscall0? || c.Syscall1? || c.Syscall2? || c.Syscall3? }

  /** The ops with fixed text: everything but the pushes, the block ops and `puts`. */
  predicate IsFixed(c: Code) { IsArithmetic(c) || IsComparison(c) || IsShuffle(c) || IsSyscall(c) }

  function FixedText(c: Code): seq<Instruction>
  {
    if IsArithmetic(c) then ArithmeticText(c)
    else if IsComparison(c) then CompareText(c)
    else if IsShuffle(c) then ShuffleText(c)
    else SyscallText(c)
  }

  /** `syscallN`: the number into `rax`, the arguments into `rdi`, `rsi`, `rdx` in turn, then the call. */
  lemma SyscallPops(c: Code)
    requires IsSyscall(c)
    ensures var t := FixedText(c); var n := SyscallArgCount(c);
            |t| == n + 4 && t[1] == Pop("rax") && t[n + 2] == Other("    syscall") && t[n + 3] == Push("rax")
            && (forall j :: 0 <= j < n ==> t[j + 2] == Pop(ArgumentRegisters[j]))
  {
  }

  // ---------------------------------------------------------------------------------------
  // The code of one op.

  datatype GenError =
    | EndJumpOutside(loc: string)  // `program[op.JumpTo]` of an `end` indexes no op
    | Unreachable(loc: string)     // an op with no case (`puts`)

  /** The ops that branch or define labels; `end` looks up the op its `JumpTo` names. */
  function BlockCode(p: seq<Op>, i: nat): Result<seq<Line>, GenError>
    requires i < |p|
  {
    var op := p[i];
    var j := op.jumpTo;
    if op.code.If? then
      Ok([Text("    ; -- if --"), Text("    pop     rax"), Text("    mov     rbx, 0"), Text("    cmp     rax, rbx"),
          Branch("    je      ", j)])
    else if op.code.Else? then
      Ok([Text("    ; -- else --"), Branch("    jmp     ", j), Label("    ", i + 1)])
    else if op.code.End? then
      if j < 0 || j >= |p| then Err(EndJumpOutside(op.loc))
      else Ok([Text("    ; -- end --")] + (if p[j].code.While? then [Branch("    jmp     ", j)] else []) + [Label("", i)])
    else if op.code.Do? then
      Ok([Text("    ; -- do --"), Text("    pop     rax"), Text("    mov     rbx, 0"), Text("    cmp     rax, rbx"),
          Branch("    je      ", j - 1)])
    else
      Ok([Text("    ; -- while --"), Label("    ", i)])
  }

  /** The fixed text of each op that takes no operand (`FixedText`), passed in as a parameter. */
  type Templates = Code -> seq<Instruction>

  /** `push str`: the length into `rax` and onto the stack, then the label of a new pool entry. */
  function StringCode(op: Op, count: nat): seq<Line>
  {
    [Text("    ; -- push str " + op.stringValue + " --"), Text("    mov     rax, " + IntToString(|op.stringValue|)),
     Text("    push    rax"), PushPooled(count)]
  }

  /** The lines of op `i` after its location comment, given the number of strings pooled before it. */
  function OpLines(text: Templates, p: seq<Op>, i: nat, count: nat): Result<seq<Line>, GenError>
    requires i < |p|
  {
    var op := p[i];
    if op.code.PushInt? then
      Ok([Text("    ; -- push int " + IntToString(op.intValue) + " --"), PushNumber(op.intValue)])
    else if op.code.PushString? then Ok(StringCode(op, count))
    else if IsBlockCode(op.code) then BlockCode(p, i)
    else if IsFixed(op.code) then Ok(TextLines(Spellings(text(op.code))))
    else Err(Unreachable(op.loc))
  }

  /** One iteration of the loop: the location comment and the op's lines, and the pool after it. */
  function OpCode(text: Templates, p: seq<Op>, i: nat, strs: seq<string>): Result<(seq<Line>, seq<string>), GenError>
    requires i < |p|
  {
    var r := OpLines(text, p, i, |strs|);
    if r.Err? then Err(r.error)
    else Ok(([Text("    ; " + p[i].loc)] + r.value, if p[i].code.PushString? then strs + [p[i].stringValue] else strs))
  }

  /** The loop over the ops from `i`: the lines they append and the pool they leave. */
  function Body(text: Templates, p: seq<Op>, i: nat, strs: seq<string>): Result<(seq<Line>, seq<string>), GenError>
    requires i <= |p|
    decreases |p| - i
  {
    if i == |p| then Ok(([], strs))
    else
      var r := OpCode(text, p, i, strs);
      if r.Err? then Err(r.error)
      else
        var rest := Body(text, p, i + 1, r.value.1);
        if rest.Err? then rest else Ok((r.value.0 + rest.value.0, rest.value.1))
  }

  // ---------------------------------------------------------------------------------------
  // The whole text.

  /** The decimal-print helper `put`, always emitted first. */
  const PutHelper: seq<string> := [
    "put:",
    "    mov     r9, -3689348814741910323", "    sub     rsp, 40", "    mov     BYTE [rsp+31], 10",
    "    lea     rcx, [rsp+30]", ".L2:", "    mov     rax, rdi", "    lea     r8, [rsp+32]", "    mul     r9",
    "    mov     rax, rdi", "    sub     r8, rcx", "    shr     rdx, 3", "    lea     rsi, [rdx+rdx*4]",
    "    add     rsi, rsi", "    sub     rax, rsi", "    add     eax, 48", "    mov     BYTE [rcx], al",
    "    mov     rax, rdi", "    mov     rdi, rdx", "    mov     rdx, rcx", "    sub     rcx, 1",
    "    cmp     rax, 9", "    ja      .L2", "    lea     rax, [rsp+32]", "    mov     edi, 1",
    "    sub     rdx, rax", "    xor     eax, eax", "    lea     rsi, [rsp+32+rdx]", "    mov     rdx, r8",
    "    mov     rax, 1", "    syscall", "    add     rsp, 40", "    ret", ""]

  /** The lines before the ops' code: the given helper text and the entry point. */
  function Prologue(helper: seq<string>): seq<Line>
  {
    TextLines(helper + ["section .text", "    global _start", "_start:"])
  }

  /** `_str_<i>: db "<s>", 10`: the bytes of the literal, then a newline byte. */
  function DataLine(i: nat, s: string): string
  {
    "    _str_" + IntToString(i) + ": db \"" + s + "\", 10"
  }

  /** The lines after the ops' code: the `exit` system call, then the data section. */
  function Epilogue(strs: seq<string>): seq<Line>
  {
    TextLines(["    ; -- exit --", "    mov     rax, 60", "    mov     rdi, 0", "    syscall", "section .data"]
              + seq(|strs|, i requires 0 <= i < |strs| => DataLine(i, strs[i])))
  }

  /** The generated file: the lines the ops append, and the pool the data section is written from. */
  datatype Assembly = Assembly(body: seq<Line>, strings: seq<string>)

  function Listing(helper: seq<string>, a: Assembly): seq<Line>
  {
    Prologue(helper) + a.body + Epilogue(a.strings)
  }

  function Generate(p: seq<Op>): Result<Assembly, GenError>
  {
    var body := Body(FixedText, p, 0, []);
    if body.Err? then Err(body.error) else Ok(Assembly(body.value.0, body.value.1))
  }

  /** The text `compile_x86_64` writes to the file. */
  function AssemblyText(a: Assembly): string
  {
    Content(GoNaming, Listing(PutHelper, a))
  }

  // ---------------------------------------------------------------------------------------
  // The string pool.

  /** The literals of the `push str` ops of `p`, in program order, repeats included. */
  function StringsOf(p: seq<Op>): seq<string>
  {
    if p == [] then []
    else StringsOf(p[..|p| - 1]) + (if p[|p| - 1].code.PushString? then [p[|p| - 1].stringValue] else [])
  }

  lemma StringsOfNext(p: seq<Op>, i: nat)
    requires i < |p|
    ensures StringsOf(p[..i + 1]) == StringsOf(p[..i]) + (if p[i].code.PushString? then [p[i].stringValue] else [])
  {
    assert p[..i + 1][..i] == p[..i];
  }

  /** Op `i` pushes the entry numbered by the strings pooled before it, and pools its own literal. */
  lemma OpCodePool(text: Templates, p: seq<Op>, i: nat)
    requires i < |p| && OpCode(text, p, i, StringsOf(p[..i])).Ok?
    ensures var r := OpCode(text, p, i, StringsOf(p[..i])).value;
            && r.1 == StringsOf(p[..i + 1])
            && (p[i].code.PushString? ==> r.0 == [Text("    ; " + p[i].loc)] + StringCode(p[i], |StringsOf(p[..i])|))
  {
    StringsOfNext(p, i);
  }

  lemma {:induction false} BodyPool(text: Templates, p: seq<Op>, i: nat)
    requires i <= |p| && Body(text, p, i, StringsOf(p[..i])).Ok?
    ensures Body(text, p, i, StringsOf(p[..i])).value.1 == StringsOf(p)
    decreases |p| - i
  {
    if i == |p| {
      assert p[..i] == p;
    } else {
      OpCodePool(text, p, i);
      BodyPool(text, p, i + 1);
    }
  }

  /** The strings before op `i` are a prefix of all of them, and op `i`'s literal comes next. */
  lemma {:induction false} StringsOfPrefix(p: seq<Op>, i: nat)
    requires i < |p| && p[i].code.PushString?
    ensures |StringsOf(p[..i])| < |StringsOf(p)| && StringsOf(p)[|StringsOf(p[..i])|] == p[i].stringValue
    decreases |p|
  {
    if i == |p| - 1 {
      assert p[..|p| - 1] == p[..i];
    } else {
      assert p[..|p| - 1][..i] == p[..i];
      StringsOfPrefix(p[..|p| - 1], i);
    }
  }

  /**
   * The data section has one entry per `push str`, in program order, and the entry the op at
   * `i` pushes, numbered by the literals before it, holds that op's literal.
   */
  lemma GeneratePool(p: seq<Op>)
    requires Generate(p).Ok?
    ensures Generate(p).value.strings == StringsOf(p)
    ensures forall i :: 0 <= i < |p| && p[i].code.PushString? ==>
              var j := |StringsOf(p[..i])|; j < |StringsOf(p)| && StringsOf(p)[j] == p[i].stringValue
  {
    assert p[..0] == [];
    BodyPool(FixedText, p, 0);
    forall i | 0 <= i < |p| && p[i].code.PushString?
      ensures var j := |StringsOf(p[..i])|; j < |StringsOf(p)| && StringsOf(p)[j] == p[i].stringValue
    {
      StringsOfPrefix(p, i);
    }
  }

  // ---------------------------------------------------------------------------------------
  // Labels.

  /** The labels the ops from `i` define: `else` defines the one after it, `end` and `while` their own. */
  function DefinedFrom(p: seq<Op>, i: nat): set<int>
  {
    (set j | i <= j < |p| && p[j].code.Else? :: j + 1) + (set j | i <= j < |p| && (p[j].code.End? || p[j].code.While?) :: j)
  }

  /** Whether the `end` at `j` jumps back: only when its `JumpTo` names a `while`. */
  predicate JumpsBack(p: seq<Op>, j: nat)
    requires j < |p|
  {
    p[j].code.End? && 0 <= p[j].jumpTo < |p| && p[p[j].jumpTo].code.While?
  }

  /**
   * The labels the ops from `i` refer to: `if` and `else` their `JumpTo`, `do` the one before
   * its `JumpTo`, and an `end` that jumps back its `JumpTo`.
   */
  function ReferencedFrom(p: seq<Op>, i: nat): set<int>
  {
    (set j | i <= j < |p| && (p[j].code.If? || p[j].code.Else?) :: p[j].jumpTo)
    + (set j | i <= j < |p| && p[j].code.Do? :: p[j].jumpTo - 1)
    + (set j | i <= j < |p| && JumpsBack(p, j) :: p[j].jumpTo)
  }

  function DefinedAt(p: seq<Op>, i: nat): set<int>
    requires i < |p|
  {
    (if p[i].code.Else? then {i + 1} else {}) + (if p[i].code.End? || p[i].code.While? then {i} else {})
  }

  function ReferencedAt(p: seq<Op>, i: nat): set<int>
    requires i < |p|
  {
    if p[i].code.If? || p[i].code.Else? then {p[i].jumpTo}
    else if p[i].code.Do? then {p[i].jumpTo - 1}
    else if JumpsBack(p, i) then {p[i].jumpTo}
    else {}
  }

  lemma FromSplit(p: seq<Op>, i: nat)
    requires i < |p|
    ensures DefinedFrom(p, i) == DefinedAt(p, i) + DefinedFrom(p, i + 1)
    ensures ReferencedFrom(p, i) == ReferencedAt(p, i) + ReferencedFrom(p, i + 1)
  {
  }

  lemma EndLabels(p: seq<Op>, i: nat)
    requires i < |p| && p[i].code.End? && BlockCode(p, i).Ok?
    ensures LabelsIn(BlockCode(p, i).value) == DefinedAt(p, i)
    ensures TargetsIn(BlockCode(p, i).value) == ReferencedAt(p, i)
  {
    var j := p[i].jumpTo;
    var jump: seq<Line> := if p[j].code.While? then [Branch("    jmp     ", j)] else [];
    assert BlockCode(p, i).value == [Text("    ; -- end --")] + jump + [Label("", i)];
    LabelsInAppend([Text("    ; -- end --")] + jump, [Label("", i)]);
    LabelsInAppend([Text("    ; -- end --")], jump);
  }

  /**
   * An `end` whose `JumpTo` still holds 0 (the `end` of an `if`, which the cross-referencer
   * leaves alone) branches back to the start when the program begins with a `while`.
   */
  lemma EndOfIfAfterLeadingWhile(p: seq<Op>, i: nat)
    requires 0 < i < |p| && p[i].code.End? && p[i].jumpTo == 0 && p[0].code.While?
    ensures BlockCode(p, i) == Ok([Text("    ; -- end --"), Branch("    jmp     ", 0), Label("", i)])
    ensures TargetsIn(BlockCode(p, i).value) == ReferencedAt(p, i) == {0}
  {
    assert [Text("    ; -- end --")] + [Branch("    jmp     ", 0)] + [Label("", i)]
        == [Text("    ; -- end --"), Branch("    jmp     ", 0), Label("", i)];
    EndLabels(p, i);
  }

  lemma BlockLabels(p: seq<Op>, i: nat)
    requires i < |p| && IsBlockCode(p[i].code) && BlockCode(p, i).Ok?
    ensures LabelsIn(BlockCode(p, i).value) == DefinedAt(p, i)
    ensures TargetsIn(BlockCode(p, i).value) == ReferencedAt(p, i)
  {
    if p[i].code.End? {
      EndLabels(p, i);
    }
  }

  /** The lines of one op define and refer to exactly the labels its code and `JumpTo` say. */
  lemma OpCodeLabels(text: Templates, p: seq<Op>, i: nat, strs: seq<string>)
    requires i < |p| && OpCode(text, p, i, strs).Ok?
    ensures LabelsIn(OpCode(text, p, i, strs).value.0) == DefinedAt(p, i)
    ensures TargetsIn(OpCode(text, p, i, strs).value.0) == ReferencedAt(p, i)
  {
    var c := p[i].code;
    var lines := OpLines(text, p, i, |strs|).value;
    LabelsInAppend([Text("    ; " + p[i].loc)], lines);
    if IsBlockCode(c) {
      BlockLabels(p, i);
    } else if !c.PushInt? && !c.PushString? {
      TextLinesPlain(Spellings(text(c)));
    }
  }

  lemma {:induction false} BodyLabels(text: Templates, p: seq<Op>, i: nat, strs: seq<string>)
    requires i <= |p| && Body(text, p, i, strs).Ok?
    ensures LabelsIn(Body(text, p, i, strs).value.0) == DefinedFrom(p, i)
    ensures TargetsIn(Body(text, p, i, strs).value.0) == ReferencedFrom(p, i)
    decreases |p| - i
  {
    if i < |p| {
      var r := OpCode(text, p, i, strs).value;
      OpCodeLabels(text, p, i, strs);
      BodyLabels(text, p, i + 1, r.1);
      LabelsInAppend(r.0, Body(text, p, i + 1, r.1).value.0);
      FromSplit(p, i);
    }
  }

  /** The program's links, read off its ops: every label some op refers to is defined by some op. */
  predicate WellLinked(p: seq<Op>) { ReferencedFrom(p, 0) <= DefinedFrom(p, 0) }

  /** The fixed lines around the ops' code define no label and branch nowhere. */
  lemma FrameUnlabelled(helper: seq<string>, strs: seq<string>)
    ensures LabelsIn(Prologue(helper)) == {} && TargetsIn(Prologue(helper)) == {}
    ensures LabelsIn(Epilogue(strs)) == {} && TargetsIn(Epilogue(strs)) == {}
  {
    TextLinesPlain(helper + ["section .text", "    global _start", "_start:"]);
    TextLinesPlain(["    ; -- exit --", "    mov     rax, 60", "    mov     rdi, 0", "    syscall", "section .data"]
                   + seq(|strs|, i requires 0 <= i < |strs| => DataLine(i, strs[i])));
  }

  /** The labels of the generated text are exactly those the ops define, the branches exactly those they refer to. */
  lemma GenerateLabels(helper: seq<string>, p: seq<Op>)
    requires Generate(p).Ok?
    ensures LabelsIn(Listing(helper, Generate(p).value)) == DefinedFrom(p, 0)
    ensures TargetsIn(Listing(helper, Generate(p).value)) == ReferencedFrom(p, 0)
  {
    var a := Generate(p).value;
    BodyLabels(FixedText, p, 0, []);
    FrameUnlabelled(helper, a.strings);
    LabelsInAppend(Prologue(helper), a.body);
    LabelsInAppend(Prologue(helper) + a.body, Epilogue(a.strings));
  }

  /** On a well-linked program every branch of the generated text names a label the text defines. */
  lemma WellLinkedResolves(p: seq<Op>)
    requires Generate(p).Ok? && WellLinked(p)
    ensures var text := Listing(PutHelper, Generate(p).value);
            forall b :: b in text && b.Branch? ==>
              exists l :: l in text && l.Label? && l.name == b.target
                          && Render(GoNaming, b) == b.mnemonic + LabelName(GoNaming, b.target)
                          && Render(GoNaming, l) == l.indent + LabelName(GoNaming, b.target) + ":"
  {
    GenerateLabels(PutHelper, p);
    Resolves(GoNaming, Listing(PutHelper, Generate(p).value));
  }

  // ---------------------------------------------------------------------------------------
  // Labels of cross-referenced blocks.

  /** A program is well linked when no op refers to a label outside what the ops define. */
  lemma LinkedWhen(r: seq<Op>)
    requires forall j :: 0 <= j < |r| ==> ReferencedAt(r, j) <= DefinedFrom(r, 0)
    ensures WellLinked(r)
  {
    forall x | x in ReferencedFrom(r, 0)
      ensures x in DefinedFrom(r, 0)
    {
      if x in (set j | 0 <= j < |r| && (r[j].code.If? || r[j].code.Else?) :: r[j].jumpTo) {
        var j :| 0 <= j < |r| && (r[j].code.If? || r[j].code.Else?) && x == r[j].jumpTo;
        assert x in ReferencedAt(r, j);
      } else if x in (set j | 0 <= j < |r| && r[j].code.Do? :: r[j].jumpTo - 1) {
        var j :| 0 <= j < |r| && r[j].code.Do? && x == r[j].jumpTo - 1;
        assert x in ReferencedAt(r, j);
      } else {
        var j :| 0 <= j < |r| && JumpsBack(r, j) && x == r[j].jumpTo;
        assert x in ReferencedAt(r, j);
      }
    }
  }

  /** Op `k` refers only to labels some op of `q` defines. */
  predicate Settled(q: seq<Op>, k: nat)
    requires k < |q|
  {
    ReferencedAt(q, k) <= DefinedFrom(q, 0)
  }

  /** Every op before `i` that is not an open block on `stack` is settled. */
  predicate SettledBelow(q: seq<Op>, i: nat, stack: seq<int>)
    requires i <= |q|
  {
    forall k :: 0 <= k < i && k !in stack ==> Settled(q, k)
  }

  /** Rewriting `JumpTo` fields leaves the labels the ops define as they were. */
  lemma DefinedSameKinds(p: seq<Op>, q: seq<Op>)
    requires GoLexer.SameExceptJumps(p, q)
    ensures DefinedFrom(q, 0) == DefinedFrom(p, 0)
  {
    assert forall k :: 0 <= k < |p| ==> q[k].code == p[k].code;
  }

  /** An op other than `if`, `else` and `do` is settled whatever its `JumpTo`: an `end` jumps back only to a `while`. */
  lemma SettledWithoutJump(q: seq<Op>, k: nat)
    requires k < |q| && !(q[k].code.If? || q[k].code.Else? || q[k].code.Do?)
    ensures Settled(q, k)
  {
    if JumpsBack(q, k) {
      var t := q[k].jumpTo;
      assert q[t].code.While?;
    }
  }

  /** A settled op stays settled when only other ops' `JumpTo` fields change. */
  lemma SettledKept(q: seq<Op>, r: seq<Op>, k: nat)
    requires GoLexer.SameExceptJumps(q, r) && k < |q| && r[k] == q[k] && Settled(q, k)
    ensures Settled(r, k)
  {
    DefinedSameKinds(q, r);
    if JumpsBack(q, k) || JumpsBack(r, k) {
      var t := q[k].jumpTo;
      assert r[t].code == q[t].code;
    }
  }

  /** An `if` or `else` whose `JumpTo` names the label an `else` or `end` defines is settled. */
  lemma SettledTo(q: seq<Op>, k: nat, i: nat)
    requires k < |q| && i < |q| && (q[k].code.If? || q[k].code.Else?)
    requires (q[i].code.Else? && q[k].jumpTo == i + 1) || (q[i].code.End? && q[k].jumpTo == i)
    ensures Settled(q, k)
  {
  }

  /**
   * One iteration of the Go cross-referencing loop keeps every op off the block stack settled,
   * when a `do` takes over a `while` and an `else` takes over no `do`.
   */
  lemma SettledStep(q: seq<Op>, i: nat, stack: seq<int>)
    requires i < |q| && GoLexer.StackBelow(stack, i) && SettledBelow(q, i, stack)
    requires q[i].code.Do? ==> q[GoStack.Top(stack)].code.While?
    requires q[i].code.Else? ==> !q[GoStack.Top(stack)].code.Do?
    requires GoLexer.XrefStep(q, i, stack).Ok?
    ensures SettledBelow(GoLexer.XrefStep(q, i, stack).value.0, i + 1, GoLexer.XrefStep(q, i, stack).value.1)
  {
    var (r, stack') := GoLexer.XrefStep(q, i, stack).value;
    GoLexer.XrefStepInvariants(q, i, stack);
    DefinedSameKinds(q, r);
    var code := q[i].code;
    if !IsBlockCode(code) {
      assert r == q && stack' == stack;
      SettledWithoutJump(q, i);
    } else if code.If? || code.While? {
      assert r == q && stack' == stack + [i];
    } else {
      var pos := GoStack.Top(stack);
      var rest := GoStack.Below(stack);
      assert stack == [] || stack == rest + [pos];
      assert forall k :: 0 <= k < |q| && k != pos && k != i ==> r[k] == q[k];
      forall k | 0 <= k < i + 1 && k !in stack'
        ensures Settled(r, k)
      {
        if k == i {
          SettledWithoutJump(r, i);
        } else if k == pos {
          if code.Else? {
            if r[pos].code.If? || r[pos].code.Else? {
              SettledTo(r, pos, i);
            } else {
              SettledWithoutJump(r, pos);
            }
          } else if code.Do? {
            SettledWithoutJump(r, pos);
          } else if r[pos].code.If? || r[pos].code.Else? {
            SettledTo(r, pos, i);
          } else {
            assert r[pos].code.Do? && r[pos].jumpTo == i + 1 && r[i].code.End?;
          }
        } else {
          assert k !in stack;
          SettledKept(q, r, k);
        }
      }
    }
  }

  lemma {:induction false} XrefFromLinked(q: seq<Op>, i: nat, stack: seq<int>)
    requires i <= |q| && GoLexer.StackBelow(stack, i) && SettledBelow(q, i, stack)
    requires GoLexer.DoFollowsWhileFrom(q, i, stack) && GoLexer.XrefFrom(q, i, stack).Ok?
    ensures WellLinked(GoLexer.XrefFrom(q, i, stack).value)
    decreases |q| - i
  {
    if i == |q| {
      assert stack == [] && GoLexer.XrefFrom(q, i, stack).value == q;
      forall j | 0 <= j < |q|
        ensures ReferencedAt(q, j) <= DefinedFrom(q, 0)
      {
        assert j !in stack && Settled(q, j);
      }
      LinkedWhen(q);
    } else {
      var (r, stack') := GoLexer.XrefStep(q, i, stack).value;
      GoLexer.XrefFromStep(q, i, stack, r, stack');
      SettledStep(q, i, stack);
      XrefFromLinked(r, i + 1, stack');
    }
  }

  /**
   * Any program the Go cross-referencer accepts, with blocks nested and sequenced at will and
   * surplus `end`s included, is well linked once every `do` takes over a `while` and no `else`
   * takes over a `do`: every label the code branches to is one some op defines.
   */
  lemma CrossreferencedLinked(p: seq<Op>)
    requires GoLexer.Xref(p).Ok? && GoLexer.DoFollowsWhile(p)
    ensures WellLinked(GoLexer.Xref(p).value)
  {
    XrefFromLinked(p, 0, []);
  }

  /** `if … end`, linked by the cross-referencer, refers only to the label of its `end`. */
  lemma IfEndLinked(p: seq<Op>, a: nat, b: nat)
    requires a < b < |p| && p[a].code.If? && p[b].code.End? && GoLexer.OnlyBlocksAt(p, {a, b})
    ensures GoLexer.Xref(p).Ok? && WellLinked(GoLexer.Xref(p).value)
  {
    GoLexer.XrefIfEnd(p, a, b);
    var r := GoLexer.Xref(p).value;
    assert r[b].code.End?;
    forall j | 0 <= j < |r|
      ensures ReferencedAt(r, j) <= DefinedFrom(r, 0)
    {
      if j != a && j != b {
        assert !IsBlockCode(p[j].code);
      } else if j == b && JumpsBack(r, b) {
        var t := r[b].jumpTo;
        assert IsBlockCode(p[t].code);
      }
    }
    LinkedWhen(r);
  }

  /** `if … else … end`: the `if` refers to the label after the `else`, the `else` to the `end`'s. */
  lemma IfElseEndLinked(p: seq<Op>, a: nat, b: nat, c: nat)
    requires a < b < c < |p| && p[a].code.If? && p[b].code.Else? && p[c].code.End?
    requires GoLexer.OnlyBlocksAt(p, {a, b, c})
    ensures GoLexer.Xref(p).Ok? && WellLinked(GoLexer.Xref(p).value)
  {
    GoLexer.XrefIfElseEnd(p, a, b, c);
    var r := GoLexer.Xref(p).value;
    assert r[b].code.Else? && r[c].code.End?;
    forall j | 0 <= j < |r|
      ensures ReferencedAt(r, j) <= DefinedFrom(r, 0)
    {
      if j != a && j != b && j != c {
        assert !IsBlockCode(p[j].code);
      } else if j == c && JumpsBack(r, c) {
        var t := r[c].jumpTo;
        assert IsBlockCode(p[t].code);
      }
    }
    LinkedWhen(r);
  }

  /** `while … do … end`: the `do` refers to the `end`'s label, the `end` back to the `while`'s. */
  lemma WhileDoEndLinked(p: seq<Op>, a: nat, b: nat, c: nat)
    requires a < b < c < |p| && p[a].code.While? && p[b].code.Do? && p[c].code.End?
    requires GoLexer.OnlyBlocksAt(p, {a, b, c})
    ensures GoLexer.Xref(p).Ok? && WellLinked(GoLexer.Xref(p).value)
  {
    GoLexer.XrefWhileDoEnd(p, a, b, c);
    var r := GoLexer.Xref(p).value;
    assert r[a].code.While? && r[c].code.End?;
    forall j | 0 <= j < |r|
      ensures ReferencedAt(r, j) <= DefinedFrom(r, 0)
    {
      if j != a && j != b && j != c {
        assert !IsBlockCode(p[j].code);
      }
    }
    LinkedWhen(r);
  }

  /**
   * The surplus `end` the Go cross-referencer accepts in `if … end … end` (the `if` first) takes
   * over the `if`, which then branches to the second `end`'s label; both `end`s define theirs.
   */
  lemma SurplusEndLinked(p: seq<Op>, b: nat, c: nat)
    requires 0 < b < c < |p| && p[0].code.If? && p[b].code.End? && p[c].code.End?
    requires GoLexer.OnlyBlocksAt(p, {0, b, c})
    ensures GoLexer.Xref(p).Ok? && WellLinked(GoLexer.Xref(p).value)
    ensures |GoLexer.Xref(p).value| == |p| && GoLexer.Xref(p).value[0].jumpTo == c
  {
    GoLexer.XrefSurplusEnd(p, b, c);
    var r := GoLexer.Xref(p).value;
    assert r[0].jumpTo == c && r[c].code.End?;
    forall j | 0 <= j < |r|
      ensures ReferencedAt(r, j) <= DefinedFrom(r, 0)
    {
      if j != 0 && j != b && j != c {
        assert !IsBlockCode(p[j].code);
      } else if j != 0 && JumpsBack(r, j) {
        var t := r[j].jumpTo;
        assert IsBlockCode(p[t].code);
      }
    }
    LinkedWhen(r);
  }

  // ---------------------------------------------------------------------------------------
  // Errors.

  /** The ops the generator cannot emit: `puts`, and an `end` whose `JumpTo` indexes no op. */
  predicate Rejected(p: seq<Op>, i: nat)
    requires i < |p|
  {
    p[i].code.Puts? || (p[i].code.End? && !(0 <= p[i].jumpTo < |p|))
  }

  function RejectionOf(p: seq<Op>, i: nat): GenError
    requires i < |p|
  {
    if p[i].code.End? then EndJumpOutside(p[i].loc) else Unreachable(p[i].loc)
  }

  lemma OpCodeFails(text: Templates, p: seq<Op>, i: nat, strs: seq<string>)
    requires i < |p|
    ensures OpCode(text, p, i, strs).Err? <==> Rejected(p, i)
    ensures OpCode(text, p, i, strs).Err? ==> OpCode(text, p, i, strs).error == RejectionOf(p, i)
  {
  }

  lemma {:induction false} BodyFails(text: Templates, p: seq<Op>, i: nat, strs: seq<string>)
    requires i <= |p|
    ensures Body(text, p, i, strs).Err? <==> exists j :: i <= j < |p| && Rejected(p, j)
    ensures Body(text, p, i, strs).Err? ==>
              exists j :: i <= j < |p| && Rejected(p, j) && (forall k :: i <= k < j ==> !Rejected(p, k))
                          && Body(text, p, i, strs).error == RejectionOf(p, j)
    decreases |p| - i
  {
    if i < |p| {
      OpCodeFails(text, p, i, strs);
      if !Rejected(p, i) {
        BodyFails(text, p, i + 1, OpCode(text, p, i, strs).value.1);
      }
    }
  }

  /** Generation fails exactly when some op is rejected, and then with the error of the first one. */
  lemma GenerateFails(p: seq<Op>)
    ensures Generate(p).Err? <==> exists j :: 0 <= j < |p| && Rejected(p, j)
    ensures Generate(p).Err? ==>
              exists j :: 0 <= j < |p| && Rejected(p, j) && (forall k :: 0 <= k < j ==> !Rejected(p, k))
                          && Generate(p).error == RejectionOf(p, j)
  {
    BodyFails(FixedText, p, 0, []);
  }

  // ---------------------------------------------------------------------------------------
  // The generator as the source runs it.

  /** `Body` from op `i` on, with the lines already emitted in front. */
  function After(done: seq<Line>, r: Result<(seq<Line>, seq<string>), GenError>): Result<(seq<Line>, seq<string>), GenError>
  {
    if r.Err? then r else Ok((done + r.value.0, r.value.1))
  }

  lemma AfterNothing(r: Result<(seq<Line>, seq<string>), GenError>)
    ensures After([], r) == r
  {
    if r.Ok? {
      assert [] + r.value.0 == r.value.0;
    }
  }

  lemma BodyStep(text: Templates, p: seq<Op>, i: nat, strs: seq<string>, done: seq<Line>)
    requires i < |p| && OpCode(text, p, i, strs).Ok?
    ensures After(done, Body(text, p, i, strs))
            == After(done + OpCode(text, p, i, strs).value.0, Body(text, p, i + 1, OpCode(text, p, i, strs).value.1))
  {
    var r := Body(text, p, i + 1, OpCode(text, p, i, strs).value.1);
    if r.Ok? {
      assert done + (OpCode(text, p, i, strs).value.0 + r.value.0) == (done + OpCode(text, p, i, strs).value.0) + r.value.0;
    }
  }

  /** `compile_x86_64` up to the file write: the loop appending each op's lines and pooling its literal. */
  method CompileX86(program: seq<Op>) returns (r: Result<Assembly, GenError>)
    ensures r == Generate(program)
  {
    var content: seq<Line> := [];
    var strs: seq<string> := [];
    var i := 0;
    AfterNothing(Body(FixedText, program, 0, []));
    while i < |program|
      invariant 0 <= i <= |program|
      invariant Body(FixedText, program, 0, []) == After(content, Body(FixedText, program, i, strs))
    {
      var op := program[i];
      var lines := OpLines(FixedText, program, i, |strs|);
      if lines.Err? {
        return Err(lines.error);
      }
      BodyStep(FixedText, program, i, strs, content);
      assert OpCode(FixedText, program, i, strs).value.0 == [Text("    ; " + op.loc)] + lines.value;
      content := content + ([Text("    ; " + op.loc)] + lines.value);
      if op.code.PushString? {
        strs := strs + [op.stringValue];
      }
      i := i + 1;
    }
    assert content + [] == content;
    r := Ok(Assembly(content, strs));
  }
}
