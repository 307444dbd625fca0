/**
 * `generate_nasm_linux_x86_64` of the C++ compilers: the NASM text for a program, one block of
 * lines per op, with the string literals (and the locations `here` pushes) interned in a pool
 * that becomes the data section. wis.cpp and gollo.cpp emit the same text except that gollo's
 * `syscallN` does not push the result.
 */
module WisCodegen {
  import opened Wrappers
  import opened Decimal
  import opened Location
  import opened WisSyntax
  import opened AsmText
  import WisCrossref

  /** wis.cpp names its labels `addr_<n>` and its pool entries `str_<n>`. */
  const WisNaming := Naming("addr_", "str_")

  // ---------------------------------------------------------------------------------------
  // The fixed text of the ops that take no operand.

  function ArithmeticText(k: OpType): seq<string>
  {
    if k.Plus? then ["    ; -- plus --", "    pop     rax", "    pop     rbx", "    add     rax, rbx", "    push    rax"]
    else if k.Minus? then ["    ; -- minus --", "    pop     rax", "    pop     rbx", "    sub     rbx, rax", "    push    rbx"]
    else if k.Mul? then ["    ; -- multiply --", "    pop     rax", "    pop     rbx", "    imul    rax, rbx", "    push    rax"]
    else if k.Div? then
      ["    ; -- division --", "    pop     rbx", "    pop     rax", "    xor     rdx, rdx", "    div     rbx", "    push    rax"]
    else if k.Mod? then
      ["    ; -- mod --", "    pop     rbx", "    pop     rax", "    xor     rdx, rdx", "    div     rbx", "    push    rdx"]
    else if k.Bor? then ["    ; -- binary or --", "    pop     rax", "    pop     rbx", "    or      rax, rbx", "    push    rax"]
    else if k.Band? then ["    ; -- binary and --", "    pop     rax", "    pop     rbx", "    and     rax, rbx", "    push    rax"]
    else if k.Xor? then ["    ; -- xor --", "    pop     rax", "    pop     rbx", "    xor     rax, rbx", "    push    rax"]
    else if k.Shl? then ["    ; -- shift left --", "    pop     rcx", "    pop     rax", "    shl     rax, cl", "    push    rax"]
    else ["    ; -- shift right --", "    pop     rcx", "    pop     rax", "    shr     rax, cl", "    push    rax"]
  }

  /** A comparison sets `rcx` to 1 by the conditional move `cmov`, comparing `rbx` (second) and `rax` (top). */
  function ComparisonText(comment: string, compare: string, move: string): seq<string>
  {
    ["    ; -- " + comment + " --", "    mov     rcx, 0", "    mov     rdx, 1", "    pop     rax", "    pop     rbx",
     "    cmp     " + compare, "    " + move + "rcx, rdx", "    push    rcx"]
  }

  function CompareText(k: OpType): seq<string>
  {
    if k.Eq? then ComparisonText("equal", "rax, rbx", "cmove   ")
    else if k.Ne? then ComparisonText("not equal", "rax, rbx", "cmovne  ")
    else if k.Lt? then ComparisonText("less", "rbx, rax", "cmovl   ")
    else if k.Gt? then ComparisonText("greater", "rbx, rax", "cmovg   ")
    else if k.Le? then ComparisonText("less or equal", "rbx, rax", "cmovle  ")
    else ComparisonText("greater or equal", "rbx, rax", "cmovge  ")
  }

  function MemoryText(k: OpType): seq<string>
  {
    if k.Not? then ["    ; -- not --", "    pop     rax", "    xor     rax, 1", "    push    rax"]
    else if k.True? then ["    ; -- true --", "    push    1"]
    else if k.False? then ["    ; -- false --", "    push    0"]
    else if k.Mem? then ["    ; -- mem --", "    push    mem"]
    else if k.Load8? then ["    ; -- load8 --", "    pop     rax", "    xor     rbx, rbx", "    mov     bl, [rax]", "    push    rbx"]
    else if k.Store8? then ["    ; -- store8 --", "    pop     rbx", "    pop     rax", "    mov     [rax], bl"]
    else if k.Load64? then ["    ; -- load64 --", "    pop     rax", "    xor     rbx, rbx", "    mov     rbx, [rax]", "    push    rbx"]
    else if k.Store64? then ["    ; -- store64 --", "    pop     rbx", "    pop     rax", "    mov     [rax], rbx"]
    else if k.Put? then ["    ; -- put --", "    pop     rdi", "    call    put"]
    else ["    ; -- fputs --", "    mov     rax, 1", "    pop     rdi", "    pop     rsi", "    pop     rdx", "    syscall"]
  }

  function ShuffleText(k: OpType): seq<string>
  {
    if k.Copy? then ["    ; -- copy --", "    pop     rax", "    push    rax", "    push    rax"]
    else if k.Over? then ["    ; -- over --", "    pop     rax", "    pop     rbx", "    push    rbx", "    push    rax", "    push    rbx"]
    else if k.Swap? then ["    ; -- swap --", "    pop     rax", "    pop     rbx", "    push    rax", "    push    rbx"]
    else if k.Swap2? then
      ["    ; -- 2swap --", "    pop     rax", "    pop     rbx", "    pop     rcx", "    pop     rdx",
       "    push    rbx", "    push    rax", "    push    rdx", "    push    rcx"]
    else if k.Drop? then ["    ; -- drop --", "    pop     rax"]
    else ["    ; -- rot --", "    pop     rax", "    pop     rbx", "    pop     rcx", "    push    rax", "    push    rcx", "    push    rbx"]
  }

  /** The number of arguments `syscallN` passes, and the registers they go to, in order. */
  function SyscallArgCount(k: OpType): nat
  {
    if k.Syscall1? then 1 else if k.Syscall2? then 2 else if k.Syscall3? then 3
    else if k.Syscall4? then 4 else if k.Syscall5? then 5 else if k.Syscall6? then 6 else 0
  }

  const ArgumentRegisters: seq<string> := ["rdi", "rsi", "rdx", "r10", "r8", "r9"]

  /** `syscallN` up to the `syscall` instruction: the number into `rax`, the arguments into their registers. */
  function SyscallHead(k: OpType): seq<string>
  {
    var n := SyscallArgCount(k);
    [if k.Syscall0? then "    ; -- syscall0 --" else "    ; -- syscall --", "    pop     rax"]
    + seq(n, j requires 0 <= j < n => "    pop     " + ArgumentRegisters[j])
    + ["    syscall"]
  }

  /** wis.cpp pushes the result `rax`; gollo.cpp does not. */
  function SyscallText(d: Dialect, k: OpType): seq<string>
  {
    if d == Wis then SyscallHead(k) + ["    push    rax"] else SyscallHead(k)
  }

  predicate IsArithmetic(k: OpType)
  {
    k.Plus? || k.Minus? || k.Mul? || k.Div? || k.Mod? || k.Bor? || k.Band? || k.Xor? || k.Shl? || k.Shr?
  }

  predicate IsCompare(k: OpType) { k.Eq? || k.Ne? || k.Lt? || k.Gt? || k.Le? || k.Ge? }

  predicate IsShuffle(k: OpType) { k.Copy? || k.Over? || k.Swap? || k.Swap2? || k.Drop? || k.Rot? }

  predicate IsSyscall(k: OpType)
  {
    k.Syscall0? || k.Syscall1? || k.Syscall2? || k.Syscall3? || k.Syscall4? || k.Syscall5? || k.Syscall6?
  }

  /** The text of every op that takes no operand from the op itself. */
  function FixedText(d: Dialect, k: OpType): seq<string>
  {
    if IsSyscall(k) then SyscallText(d, k) else CommonText(k)
  }

  /** The text of the ops that take no operand and that both compilers emit alike. */
  function CommonText(k: OpType): seq<string>
  {
    if IsArithmetic(k) then ArithmeticText(k)
    else if IsCompare(k) then CompareText(k)
    else if IsShuffle(k) then ShuffleText(k)
    else MemoryText(k)
  }

  /** The two compilers differ only in `syscallN`, where gollo.cpp leaves out the final `push rax`. */
  lemma DialectsDiffer(k: OpType)
    ensures IsSyscall(k) ==> FixedText(Wis, k) == FixedText(Gollo, k) + ["    push    rax"]
    ensures !IsSyscall(k) ==> FixedText(Wis, k) == FixedText(Gollo, k)
  {
  }

  /** `syscallN` pops the number into `rax`, then its N arguments into `rdi, rsi, rdx, r10, r8, r9` in order. */
  lemma SyscallPops(d: Dialect, k: OpType)
    requires IsSyscall(k)
    ensures var t := FixedText(d, k); var n := SyscallArgCount(k);
            n <= 6 && |t| >= n + 3 && t[1] == "    pop     rax" && t[n + 2] == "    syscall"
            && (forall j :: 0 <= j < n ==> t[j + 2] == "    pop     " + ArgumentRegisters[j])
            && (d == Wis <==> |t| == n + 4)
  {
  }

  // ---------------------------------------------------------------------------------------
  // The string pool.

  /** `std::map<string, int> strings`: each interned string and its index. */
  type Pool = map<string, int>

  /** `if (strings.find(s) == strings.end()) strings[s] = strings.size();` */
  function Intern(pool: Pool, s: string): Pool
  {
    if s in pool then pool else pool[s := |pool|]
  }

  /** The strings of `xs` in the order of their first occurrence, each once. */
  function Distinct(xs: seq<string>): seq<string>
  {
    if xs == [] then []
    else
      var ds := Distinct(xs[..|xs| - 1]);
      if xs[|xs| - 1] in ds then ds else ds + [xs[|xs| - 1]]
  }

  predicate NoDuplicates(ds: seq<string>)
  {
    forall a, b :: 0 <= a < b < |ds| ==> ds[a] != ds[b]
  }

  /** `pool` gives each string of `ds` its position in `ds`, and holds nothing else. */
  ghost predicate PoolIs(pool: Pool, ds: seq<string>)
  {
    NoDuplicates(ds) && |pool| == |ds|
    && (forall s :: s in pool <==> s in ds)
    && (forall j :: 0 <= j < |ds| ==> pool[ds[j]] == j)
  }

  /** Each distinct string gets as index the number of distinct strings seen before it. */
  lemma InternIndex(pool: Pool, ds: seq<string>, s: string)
    requires PoolIs(pool, ds)
    ensures var ds' := if s in ds then ds else ds + [s];
            PoolIs(Intern(pool, s), ds')
            && 0 <= Intern(pool, s)[s] < |ds'| && ds'[Intern(pool, s)[s]] == s
            && (s !in ds ==> Intern(pool, s)[s] == |ds|)
  {
    if s !in ds {
      var ds' := ds + [s];
      var pool' := pool[s := |pool|];
      assert forall j :: 0 <= j < |ds| ==> ds'[j] == ds[j];
      forall j | 0 <= j < |ds'|
        ensures pool'[ds'[j]] == j
      {
        if j < |ds| {
          assert ds'[j] != s;
        }
      }
    } else {
      var j :| 0 <= j < |ds| && ds[j] == s;
      assert pool[s] == j;
    }
  }

  lemma {:induction false} DistinctNoDuplicates(xs: seq<string>)
    ensures NoDuplicates(Distinct(xs))
    ensures forall s :: s in Distinct(xs) <==> s in xs
  {
    if xs != [] {
      var init := xs[..|xs| - 1];
      DistinctNoDuplicates(init);
      assert xs == init + [xs[|xs| - 1]];
    }
  }

  // ---------------------------------------------------------------------------------------
  // The code of one op.

  datatype GenError =
    | UnexpandedOp(loc: Loc, kind: OpType)  // a `bind` or `use` reached the generator
    | EndJumpOutside(loc: Loc)              // `end` whose `JumpTo` indexes no op

  /** The string an op interns: a string literal's bytes, or the rendered location of `here`. */
  predicate IsPooled(op: Operation) { op.kind.PushString? || op.kind.Here? }

  function PooledString(op: Operation): string
  {
    if op.kind.PushString? then op.stringValue else View(op.loc)
  }

  /** `push str` and `here`: push the length, then the label of the string's pool entry. */
  function PooledCode(op: Operation, pool: Pool): (Result<(seq<Line>, Pool), GenError>)
  {
    var s := PooledString(op);
    var pool' := Intern(pool, s);
    var comment := if op.kind.PushString? then "    ; -- push str --" else "    ; -- here --";
    Ok(([Text(comment), PushNumber(|s|), PushPooled(pool'[s])], pool'))
  }

  predicate IsBlockOp(k: OpType) { k.If? || k.Else? || k.End? || k.Do? || k.While? }

  /** The ops that branch or define labels; `end` looks up the op its `JumpTo` names. */
  function BlockCode(p: seq<Operation>, i: nat): Result<seq<Line>, GenError>
    requires i < |p|
  {
    var op := p[i];
    var j := op.jumpTo;
    if op.kind.If? then
      Ok([Text("    ; -- if --"), Text("    pop     rax"), Text("    mov     rbx, 0"), Text("    cmp     rax, rbx"),
          Branch("    je      ", j)])
    else if op.kind.Else? then
      Ok([Text("    ; -- else --"), Branch("    jmp     ", j), Label("    ", i + 1)])
    else if op.kind.End? then
      if j < 0 || j >= |p| then Err(EndJumpOutside(op.loc))
      else Ok([Text("    ; -- end --")] + (if p[j].kind.While? then [Branch("    jmp    ", j)] else []) + [Label("", i)])
    else if op.kind.Do? then
      Ok([Text("    ; -- do --"), Text("    pop     rax"), Text("    mov     rbx, 0"), Text("    cmp     rax, rbx"),
          Branch("    je      ", j - 1)])
    else
      Ok([Text("    ; -- while --"), Label("    ", i)])
  }

  /**
   * The fixed text of each op that takes no operand (`FixedText` of a dialect). The generator
   * takes it as a parameter, so that reasoning about labels and the pool, which holds for any
   * such text, never has to look at the text itself.
   */
  type Templates = OpType -> seq<string>

  /** One case of the `switch`: the lines op `i` appends, and the pool after it. */
  function OpCode(text: Templates, p: seq<Operation>, i: nat, pool: Pool): Result<(seq<Line>, Pool), GenError>
    requires i < |p|
  {
    var op := p[i];
    var k := op.kind;
    if k.PushInt? then Ok(([Text("    ; -- push int -- "), PushNumber(op.intValue)], pool))
    else if IsPooled(op) then PooledCode(op, pool)
    else if IsBlockOp(k) then
      var r := BlockCode(p, i);
      if r.Err? then Err(r.error) else Ok((r.value, pool))
    else if k.Bind? || k.Use? then Err(UnexpandedOp(op.loc, k))
    else Ok((TextLines(text(k)), pool))
  }

  /** The loop over the ops from `i`: the lines they append and the pool they leave. */
  function Body(text: Templates, p: seq<Operation>, i: nat, pool: Pool): Result<(seq<Line>, Pool), GenError>
    requires i <= |p|
    decreases |p| - i
  {
    if i == |p| then Ok(([], pool))
    else
      var r := OpCode(text, p, i, pool);
      if r.Err? then Err(r.error)
      else
        var rest := Body(text, p, i + 1, r.value.1);
        if rest.Err? then rest else Ok((r.value.0 + rest.value.0, rest.value.1))
  }

  // ---------------------------------------------------------------------------------------
  // The whole text.

  /** The decimal-print helper `put`, emitted before the code when some op is a `put`. */
  const PutHelper: seq<string> := [
    "; -- put --", "put:",
    "    mov     r9, -3689348814741910323", "    sub     rsp, 40", "    mov     BYTE [rsp+31], 10",
    "    lea     rcx, [rsp+30]", ".L2:", "    mov     rax, rdi", "    lea     r8, [rsp+32]", "    mul     r9",
    "    mov     rax, rdi", "    sub     r8, rcx", "    shr     rdx, 3", "    lea     rsi, [rdx+rdx*4]",
    "    add     rsi, rsi", "    sub     rax, rsi", "    add     eax, 48", "    mov     BYTE [rcx], al",
    "    mov     rax, rdi", "    mov     rdi, rdx", "    mov     rdx, rcx", "    sub     rcx, 1",
    "    cmp     rax, 9", "    ja      .L2", "    lea     rax, [rsp+32]", "    mov     edi, 1",
    "    sub     rdx, rax", "    xor     eax, eax", "    lea     rsi, [rsp+32+rdx]", "    mov     rdx, r8",
    "    mov     rax, 1", "    syscall", "    add     rsp, 40", "    ret\n"]

  /** The lines before the ops' code: the header, the given helper text, and the entry point. */
  function Prologue(helper: seq<string>): seq<Line>
  {
    TextLines(["BITS 64"] + helper + ["section .text", "    global _start\n", "_start:"])
  }

  /** The lines after the ops' code: the `exit` system call and, when the pool has strings, the data header. */
  function Epilogue(pool: Pool): seq<Line>
  {
    TextLines(["    ; -- exit --", "    mov     rax, 60", "    mov     rdi, 0", "    syscall"]
              + (if |pool| > 0 then ["\nsection .data"] else []))
  }

  /**
   * The generated file: whether the `put` helper is emitted, the lines the ops append, and the
   * pool, from which the data section is written (entry `str_<index>` holding the bytes of its
   * string) before the `.bss` segment reserving `mem`.
   */
  datatype Assembly = Assembly(putHelper: bool, body: seq<Line>, strings: Pool)

  /** The text section in full: helper and entry point, the ops' lines, the exit and the data header. */
  function Listing(a: Assembly): seq<Line>
  {
    Prologue(if a.putHelper then PutHelper else []) + a.body + Epilogue(a.strings)
  }

  /** The templates of a dialect. */
  function DialectText(d: Dialect): Templates { k => FixedText(d, k) }

  predicate HasPut(p: seq<Operation>) { exists i :: 0 <= i < |p| && p[i].kind.Put? }

  function Generate(d: Dialect, p: seq<Operation>): Result<Assembly, GenError>
  {
    var body := Body(DialectText(d), p, 0, map[]);
    if body.Err? then Err(body.error) else Ok(Assembly(HasPut(p), body.value.0, body.value.1))
  }

  // ---------------------------------------------------------------------------------------
  // The string pool over the whole program.

  /** The strings the ops of `p` intern, in program order, repeats included. */
  function StringsOf(p: seq<Operation>): seq<string>
  {
    if p == [] then []
    else StringsOf(p[..|p| - 1]) + (if IsPooled(p[|p| - 1]) then [PooledString(p[|p| - 1])] else [])
  }

  lemma StringsOfNext(p: seq<Operation>, i: nat)
    requires i < |p|
    ensures StringsOf(p[..i + 1]) == StringsOf(p[..i]) + (if IsPooled(p[i]) then [PooledString(p[i])] else [])
  {
    assert p[..i + 1][..i] == p[..i];
  }

  lemma DistinctNext(xs: seq<string>, s: string)
    ensures Distinct(xs + [s]) == if s in Distinct(xs) then Distinct(xs) else Distinct(xs) + [s]
  {
    assert (xs + [s])[..|xs|] == xs;
  }

  /**
   * `push str` and `here` push the length of their string, then the label of its pool entry:
   * the index the string already has, or the number of distinct strings seen so far.
   */
  lemma PooledCodeIndex(op: Operation, pool: Pool, ds: seq<string>)
    requires IsPooled(op) && PoolIs(pool, ds)
    ensures var s := PooledString(op);
            var ds' := if s in ds then ds else ds + [s];
            var r := PooledCode(op, pool).value;
            PoolIs(r.1, ds')
            && |r.0| == 3 && r.0[1] == PushNumber(|s|) && r.0[2].PushPooled?
            && 0 <= r.0[2].index < |ds'| && ds'[r.0[2].index] == s
            && (s !in ds ==> r.0[2].index == |ds|)
  {
    InternIndex(pool, ds, PooledString(op));
  }

  /** Op `i` keeps the pool equal to the distinct strings of the ops up to and including it. */
  lemma OpCodePool(text: Templates, p: seq<Operation>, i: nat, pool: Pool)
    requires i < |p| && PoolIs(pool, Distinct(StringsOf(p[..i]))) && OpCode(text, p, i, pool).Ok?
    ensures PoolIs(OpCode(text, p, i, pool).value.1, Distinct(StringsOf(p[..i + 1])))
  {
    StringsOfNext(p, i);
    if IsPooled(p[i]) {
      DistinctNext(StringsOf(p[..i]), PooledString(p[i]));
      PooledCodeIndex(p[i], pool, Distinct(StringsOf(p[..i])));
    } else {
      assert StringsOf(p[..i + 1]) == StringsOf(p[..i]) + [] == StringsOf(p[..i]);
      assert OpCode(text, p, i, pool).value.1 == pool;
    }
  }

  lemma {:induction false} BodyPool(text: Templates, p: seq<Operation>, i: nat, pool: Pool)
    requires i <= |p| && PoolIs(pool, Distinct(StringsOf(p[..i]))) && Body(text, p, i, pool).Ok?
    ensures PoolIs(Body(text, p, i, pool).value.1, Distinct(StringsOf(p)))
    decreases |p| - i
  {
    if i == |p| {
      assert p[..i] == p;
    } else {
      OpCodePool(text, p, i, pool);
      BodyPool(text, p, i + 1, OpCode(text, p, i, pool).value.1);
    }
  }

  /** The data section holds each distinct interned string once, numbered by first occurrence. */
  lemma GeneratePool(d: Dialect, p: seq<Operation>)
    requires Generate(d, p).Ok?
    ensures PoolIs(Generate(d, p).value.strings, Distinct(StringsOf(p)))
    ensures forall s :: s in Generate(d, p).value.strings <==> s in StringsOf(p)
  {
    assert p[..0] == [];
    BodyPool(DialectText(d), p, 0, map[]);
    DistinctNoDuplicates(StringsOf(p));
  }

  // ---------------------------------------------------------------------------------------
  // Labels.

  /** The labels the ops from `i` define: `else` defines the one after it, `end` and `while` their own. */
  function DefinedFrom(p: seq<Operation>, i: nat): set<int>
  {
    (set j | i <= j < |p| && p[j].kind.Else? :: j + 1) + (set j | i <= j < |p| && (p[j].kind.End? || p[j].kind.While?) :: j)
  }

  /** Whether the `end` at `j` jumps back: only when its `JumpTo` names a `while`. */
  predicate JumpsBack(p: seq<Operation>, j: nat)
    requires j < |p|
  {
    p[j].kind.End? && 0 <= p[j].jumpTo < |p| && p[p[j].jumpTo].kind.While?
  }

  /**
   * The labels the ops from `i` refer to: `if` and `else` their `JumpTo`, `do` the one before
   * its `JumpTo`, and an `end` that jumps back its `JumpTo`.
   */
  function ReferencedFrom(p: seq<Operation>, i: nat): set<int>
  {
    (set j | i <= j < |p| && (p[j].kind.If? || p[j].kind.Else?) :: p[j].jumpTo)
    + (set j | i <= j < |p| && p[j].kind.Do? :: p[j].jumpTo - 1)
    + (set j | i <= j < |p| && JumpsBack(p, j) :: p[j].jumpTo)
  }

  function DefinedAt(p: seq<Operation>, i: nat): set<int>
    requires i < |p|
  {
    (if p[i].kind.Else? then {i + 1} else {}) + (if p[i].kind.End? || p[i].kind.While? then {i} else {})
  }

  function ReferencedAt(p: seq<Operation>, i: nat): set<int>
    requires i < |p|
  {
    if p[i].kind.If? || p[i].kind.Else? then {p[i].jumpTo}
    else if p[i].kind.Do? then {p[i].jumpTo - 1}
    else if JumpsBack(p, i) then {p[i].jumpTo}
    else {}
  }

  lemma FromSplit(p: seq<Operation>, i: nat)
    requires i < |p|
    ensures DefinedFrom(p, i) == DefinedAt(p, i) + DefinedFrom(p, i + 1)
    ensures ReferencedFrom(p, i) == ReferencedAt(p, i) + ReferencedFrom(p, i + 1)
  {
  }

  /** The lines of one op define and refer to exactly the labels its kind and `JumpTo` say. */
  lemma EndLabels(p: seq<Operation>, i: nat)
    requires i < |p| && p[i].kind.End? && BlockCode(p, i).Ok?
    ensures LabelsIn(BlockCode(p, i).value) == DefinedAt(p, i)
    ensures TargetsIn(BlockCode(p, i).value) == ReferencedAt(p, i)
  {
    var j := p[i].jumpTo;
    var jump: seq<Line> := if p[j].kind.While? then [Branch("    jmp    ", j)] else [];
    assert BlockCode(p, i).value == [Text("    ; -- end --")] + jump + [Label("", i)];
    LabelsInAppend([Text("    ; -- end --")] + jump, [Label("", i)]);
    LabelsInAppend([Text("    ; -- end --")], jump);
  }

  /**
   * An `end` whose `JumpTo` still holds 0 (the `end` of an `if`, which the cross-referencer
   * leaves alone) branches back to the start when the program begins with a `while`.
   */
  lemma EndOfIfAfterLeadingWhile(p: seq<Operation>, i: nat)
    requires 0 < i < |p| && p[i].kind.End? && p[i].jumpTo == 0 && p[0].kind.While?
    ensures BlockCode(p, i) == Ok([Text("    ; -- end --"), Branch("    jmp    ", 0), Label("", i)])
    ensures TargetsIn(BlockCode(p, i).value) == ReferencedAt(p, i) == {0}
  {
    assert [Text("    ; -- end --")] + [Branch("    jmp    ", 0)] + [Label("", i)]
        == [Text("    ; -- end --"), Branch("    jmp    ", 0), Label("", i)];
    EndLabels(p, i);
  }

  lemma BlockLabels(p: seq<Operation>, i: nat)
    requires i < |p| && IsBlockOp(p[i].kind) && BlockCode(p, i).Ok?
    ensures LabelsIn(BlockCode(p, i).value) == DefinedAt(p, i)
    ensures TargetsIn(BlockCode(p, i).value) == ReferencedAt(p, i)
  {
    if p[i].kind.End? {
      EndLabels(p, i);
    }
  }

  /** The lines of one op define and refer to exactly the labels its kind and `JumpTo` say. */
  lemma OpCodeLabels(text: Templates, p: seq<Operation>, i: nat, pool: Pool)
    requires i < |p| && OpCode(text, p, i, pool).Ok?
    ensures LabelsIn(OpCode(text, p, i, pool).value.0) == DefinedAt(p, i)
    ensures TargetsIn(OpCode(text, p, i, pool).value.0) == ReferencedAt(p, i)
  {
    var k := p[i].kind;
    if IsBlockOp(k) {
      BlockLabels(p, i);
    } else if !k.PushInt? && !IsPooled(p[i]) {
      TextLinesPlain(text(k));
    }
  }

  lemma {:induction false} BodyLabels(text: Templates, p: seq<Operation>, i: nat, pool: Pool)
    requires i <= |p| && Body(text, p, i, pool).Ok?
    ensures LabelsIn(Body(text, p, i, pool).value.0) == DefinedFrom(p, i)
    ensures TargetsIn(Body(text, p, i, pool).value.0) == ReferencedFrom(p, i)
    decreases |p| - i
  {
    if i < |p| {
      var r := OpCode(text, p, i, pool).value;
      OpCodeLabels(text, p, i, pool);
      BodyLabels(text, p, i + 1, r.1);
      LabelsInAppend(r.0, Body(text, p, i + 1, r.1).value.0);
      FromSplit(p, i);
    }
  }

  /** The program's links, read off its ops: every label some op refers to is defined by some op. */
  predicate WellLinked(p: seq<Operation>) { ReferencedFrom(p, 0) <= DefinedFrom(p, 0) }

  /** The fixed lines around the ops' code define no label and branch nowhere. */
  lemma FrameUnlabelled(helper: seq<string>, pool: Pool)
    ensures LabelsIn(Prologue(helper)) == {} && TargetsIn(Prologue(helper)) == {}
    ensures LabelsIn(Epilogue(pool)) == {} && TargetsIn(Epilogue(pool)) == {}
  {
    TextLinesPlain(["BITS 64"] + helper + ["section .text", "    global _start\n", "_start:"]);
    TextLinesPlain(["    ; -- exit --", "    mov     rax, 60", "    mov     rdi, 0", "    syscall"]
                   + (if |pool| > 0 then ["\nsection .data"] else []));
  }

  /** The labels of the generated text are exactly those the ops define, the branches exactly those they refer to. */
  lemma GenerateLabels(d: Dialect, p: seq<Operation>)
    requires Generate(d, p).Ok?
    ensures LabelsIn(Listing(Generate(d, p).value)) == DefinedFrom(p, 0)
    ensures TargetsIn(Listing(Generate(d, p).value)) == ReferencedFrom(p, 0)
  {
    var a := Generate(d, p).value;
    var prologue := Prologue(if a.putHelper then PutHelper else []);
    BodyLabels(DialectText(d), p, 0, map[]);
    FrameUnlabelled(if a.putHelper then PutHelper else [], a.strings);
    LabelsInAppend(prologue, a.body);
    LabelsInAppend(prologue + a.body, Epilogue(a.strings));
  }

  /** On a well-linked program every branch of the generated text names a label the text defines. */
  lemma WellLinkedResolves(d: Dialect, p: seq<Operation>)
    requires Generate(d, p).Ok? && WellLinked(p)
    ensures var text := Listing(Generate(d, p).value);
            forall b :: b in text && b.Branch? ==>
              exists l :: l in text && l.Label? && l.name == b.target
                          && Render(WisNaming, b) == b.mnemonic + LabelName(WisNaming, b.target)
                          && Render(WisNaming, l) == l.indent + LabelName(WisNaming, b.target) + ":"
  {
    GenerateLabels(d, p);
    Resolves(WisNaming, Listing(Generate(d, p).value));
  }

  // ---------------------------------------------------------------------------------------
  // Labels of cross-referenced blocks.

  /** A program is well linked when no op refers to a label outside what the ops define. */
  lemma LinkedWhen(r: seq<Operation>)
    requires forall j :: 0 <= j < |r| ==> ReferencedAt(r, j) <= DefinedFrom(r, 0)
    ensures WellLinked(r)
  {
    forall x | x in ReferencedFrom(r, 0)
      ensures x in DefinedFrom(r, 0)
    {
      if x in (set j | 0 <= j < |r| && (r[j].kind.If? || r[j].kind.Else?) :: r[j].jumpTo) {
        var j :| 0 <= j < |r| && (r[j].kind.If? || r[j].kind.Else?) && x == r[j].jumpTo;
        assert x in ReferencedAt(r, j);
      } else if x in (set j | 0 <= j < |r| && r[j].kind.Do? :: r[j].jumpTo - 1) {
        var j :| 0 <= j < |r| && r[j].kind.Do? && x == r[j].jumpTo - 1;
        assert x in ReferencedAt(r, j);
      } else {
        var j :| 0 <= j < |r| && JumpsBack(r, j) && x == r[j].jumpTo;
        assert x in ReferencedAt(r, j);
      }
    }
  }

  /** Op `k` refers only to labels some op of `q` defines. */
  predicate Settled(q: seq<Operation>, k: nat)
    requires k < |q|
  {
    ReferencedAt(q, k) <= DefinedFrom(q, 0)
  }

  /** Every op before `i` that is not an open block on `stack` is settled. */
  predicate SettledBelow(q: seq<Operation>, i: nat, stack: seq<nat>)
    requires i <= |q|
  {
    forall k :: 0 <= k < i && k !in stack ==> Settled(q, k)
  }

  /** Rewriting `JumpTo` fields leaves the labels the ops define as they were. */
  lemma DefinedSameKinds(p: seq<Operation>, q: seq<Operation>)
    requires WisCrossref.SameExceptJumps(p, q)
    ensures DefinedFrom(q, 0) == DefinedFrom(p, 0)
  {
    assert forall k :: 0 <= k < |p| ==> q[k].kind == p[k].kind;
  }

  /** An op other than `if`, `else` and `do` is settled whatever its `JumpTo`: an `end` jumps back only to a `while`. */
  lemma SettledWithoutJump(q: seq<Operation>, k: nat)
    requires k < |q| && !(q[k].kind.If? || q[k].kind.Else? || q[k].kind.Do?)
    ensures Settled(q, k)
  {
    if JumpsBack(q, k) {
      var t := q[k].jumpTo;
      assert q[t].kind.While?;
    }
  }

  /** A settled op stays settled when only other ops' `JumpTo` fields change. */
  lemma SettledKept(q: seq<Operation>, r: seq<Operation>, k: nat)
    requires WisCrossref.SameExceptJumps(q, r) && k < |q| && r[k] == q[k] && Settled(q, k)
    ensures Settled(r, k)
  {
    DefinedSameKinds(q, r);
    if JumpsBack(q, k) || JumpsBack(r, k) {
      var t := q[k].jumpTo;
      assert r[t].kind == q[t].kind;
    }
  }

  /** An `if` or `else` whose `JumpTo` names the label an `else` or `end` defines is settled. */
  lemma SettledTo(q: seq<Operation>, k: nat, i: nat)
    requires k < |q| && i < |q| && (q[k].kind.If? || q[k].kind.Else?)
    requires (q[i].kind.Else? && q[k].jumpTo == i + 1) || (q[i].kind.End? && q[k].jumpTo == i)
    ensures Settled(q, k)
  {
  }

  /**
   * One iteration of the cross-referencing loop keeps every op off the block stack settled,
   * when a `do` takes over a `while` and an `else` takes over no `do`.
   */
  lemma SettledStep(q: seq<Operation>, i: nat, stack: seq<nat>)
    requires i < |q| && WisCrossref.StackBelow(stack, i) && SettledBelow(q, i, stack)
    requires stack != [] && q[i].kind.Do? ==> q[stack[|stack| - 1]].kind.While?
    requires stack != [] && q[i].kind.Else? ==> !q[stack[|stack| - 1]].kind.Do?
    requires WisCrossref.XrefStep(q, i, stack).Ok?
    ensures SettledBelow(WisCrossref.XrefStep(q, i, stack).value.0, i + 1, WisCrossref.XrefStep(q, i, stack).value.1)
  {
    var (r, stack') := WisCrossref.XrefStep(q, i, stack).value;
    WisCrossref.XrefStepInvariants(q, i, stack);
    DefinedSameKinds(q, r);
    var kind := q[i].kind;
    if !WisCrossref.IsBlockOp(kind) {
      assert r == q && stack' == stack;
      SettledWithoutJump(q, i);
    } else if kind.If? || kind.While? {
      assert r == q && stack' == stack + [i];
    } else {
      var pos := stack[|stack| - 1];
      var rest := stack[..|stack| - 1];
      assert stack == rest + [pos];
      assert forall k :: 0 <= k < |q| && k != pos && k != i ==> r[k] == q[k];
      forall k | 0 <= k < i + 1 && k !in stack'
        ensures Settled(r, k)
      {
        if k == i {
          SettledWithoutJump(r, i);
        } else if k == pos {
          if kind.Else? {
            if r[pos].kind.If? || r[pos].kind.Else? {
              SettledTo(r, pos, i);
            } else {
              SettledWithoutJump(r, pos);
            }
          } else if kind.Do? {
            SettledWithoutJump(r, pos);
          } else if r[pos].kind.If? || r[pos].kind.Else? {
            SettledTo(r, pos, i);
          } else {
            assert r[pos].kind.Do? && r[pos].jumpTo == i + 1 && r[i].kind.End?;
          }
        } else {
          assert k !in stack;
          SettledKept(q, r, k);
        }
      }
    }
  }

  lemma {:induction false} XrefFromLinked(q: seq<Operation>, i: nat, stack: seq<nat>)
    requires i <= |q| && WisCrossref.StackBelow(stack, i) && SettledBelow(q, i, stack)
    requires WisCrossref.DoFollowsWhileFrom(q, i, stack) && WisCrossref.XrefFrom(q, i, stack).Ok?
    ensures WellLinked(WisCrossref.XrefFrom(q, i, stack).value)
    decreases |q| - i
  {
    if i == |q| {
      assert stack == [] && WisCrossref.XrefFrom(q, i, stack).value == q;
      forall j | 0 <= j < |q|
        ensures ReferencedAt(q, j) <= DefinedFrom(q, 0)
      {
        assert j !in stack && Settled(q, j);
      }
      LinkedWhen(q);
    } else {
      var (r, stack') := WisCrossref.XrefStep(q, i, stack).value;
      WisCrossref.XrefFromStep(q, i, stack, r, stack');
      SettledStep(q, i, stack);
      XrefFromLinked(r, i + 1, stack');
    }
  }

  /**
   * Any program the cross-referencer accepts, with blocks nested and sequenced at will, is
   * well linked once every `do` takes over a `while` and no `else` takes over a `do`: every
   * label the code branches to is one some op defines.
   */
  lemma CrossreferencedLinked(p: seq<Operation>)
    requires WisCrossref.Xref(p).Ok? && WisCrossref.DoFollowsWhile(p)
    ensures WellLinked(WisCrossref.Xref(p).value)
  {
    XrefFromLinked(p, 0, []);
  }

  /** `if … end`, linked by the cross-referencer, refers only to the label of its `end`. */
  lemma IfEndLinked(p: seq<Operation>, a: nat, b: nat)
    requires a < b < |p| && p[a].kind.If? && p[b].kind.End? && WisCrossref.OnlyBlocksAt(p, {a, b})
    ensures WisCrossref.Xref(p).Ok? && WellLinked(WisCrossref.Xref(p).value)
  {
    WisCrossref.XrefIfEnd(p, a, b);
    var r := WisCrossref.Xref(p).value;
    assert r[b].kind.End?;
    forall j | 0 <= j < |r|
      ensures ReferencedAt(r, j) <= DefinedFrom(r, 0)
    {
      if j != a && j != b {
        assert !WisCrossref.IsBlockOp(p[j].kind);
      }
    }
    LinkedWhen(r);
  }
  /** `if … else … end`: the `if` refers to the label after the `else`, the `else` to the `end`'s. */
  lemma IfElseEndLinked(p: seq<Operation>, a: nat, b: nat, c: nat)
    requires a < b < c < |p| && p[a].kind.If? && p[b].kind.Else? && p[c].kind.End?
    requires WisCrossref.OnlyBlocksAt(p, {a, b, c})
    ensures WisCrossref.Xref(p).Ok? && WellLinked(WisCrossref.Xref(p).value)
  {
    WisCrossref.XrefIfElseEnd(p, a, b, c);
    var r := WisCrossref.Xref(p).value;
    assert r[b].kind.Else? && r[c].kind.End?;
    forall j | 0 <= j < |r|
      ensures ReferencedAt(r, j) <= DefinedFrom(r, 0)
    {
      if j != a && j != b && j != c {
        assert !WisCrossref.IsBlockOp(p[j].kind);
      } else if j == c && JumpsBack(r, c) {
        var t := r[c].jumpTo;
        assert WisCrossref.IsBlockOp(p[t].kind);
      }
    }
    LinkedWhen(r);
  }

  /** `while … do … end`: the `do` refers to the `end`'s label, the `end` back to the `while`'s. */
  lemma WhileDoEndLinked(p: seq<Operation>, a: nat, b: nat, c: nat)
    requires a < b < c < |p| && p[a].kind.While? && p[b].kind.Do? && p[c].kind.End?
    requires WisCrossref.OnlyBlocksAt(p, {a, b, c})
    ensures WisCrossref.Xref(p).Ok? && WellLinked(WisCrossref.Xref(p).value)
  {
    WisCrossref.XrefWhileDoEnd(p, a, b, c);
    var r := WisCrossref.Xref(p).value;
    assert r[a].kind.While? && r[c].kind.End?;
    forall j | 0 <= j < |r|
      ensures ReferencedAt(r, j) <= DefinedFrom(r, 0)
    {
      if j != a && j != b && j != c {
        assert !WisCrossref.IsBlockOp(p[j].kind);
      }
    }
    LinkedWhen(r);
  }

  /**
   * `if … do … end` passes the cross-referencer, which lets `do` take the `if`; the `if` keeps
   * its `JumpTo`, so the program is well linked only if that already named the `end`. With the
   * parser's 0 it is not, and the code branches to a label nothing defines.
   */
  lemma IfDoEndUnlinked(p: seq<Operation>, a: nat, b: nat, c: nat)
    requires a < b < c < |p| && p[a].kind.If? && p[b].kind.Do? && p[c].kind.End?
    requires WisCrossref.OnlyBlocksAt(p, {a, b, c})
    ensures WisCrossref.Xref(p).Ok?
    ensures WellLinked(WisCrossref.Xref(p).value) <==> p[a].jumpTo == c
  {
    WisCrossref.XrefOpenDoEndRun(p, a, b, c);
    var r := WisCrossref.Xref(p).value;
    assert r[a] == p[a] && r[c].kind.End? && r[c].jumpTo == a;
    assert p[a].jumpTo in ReferencedAt(r, a);
    assert p[a].jumpTo in ReferencedFrom(r, 0);
    if p[a].jumpTo == c {
      forall j | 0 <= j < |r|
        ensures ReferencedAt(r, j) <= DefinedFrom(r, 0)
      {
        if j != a && j != b && j != c {
          assert !WisCrossref.IsBlockOp(p[j].kind);
        }
      }
      LinkedWhen(r);
    } else {
      assert forall j :: 0 <= j < |r| && j != c ==> !(r[j].kind.Else? || r[j].kind.End? || r[j].kind.While?);
      assert p[a].jumpTo !in DefinedFrom(r, 0);
    }
  }

  // ---------------------------------------------------------------------------------------
  // Errors.

  /** The ops the generator cannot emit: an unexpanded `bind` or `use`, and an `end` whose `JumpTo` indexes no op. */
  predicate Rejected(p: seq<Operation>, i: nat)
    requires i < |p|
  {
    p[i].kind.Bind? || p[i].kind.Use? || (p[i].kind.End? && !(0 <= p[i].jumpTo < |p|))
  }

  function RejectionOf(p: seq<Operation>, i: nat): GenError
    requires i < |p|
  {
    if p[i].kind.End? then EndJumpOutside(p[i].loc) else UnexpandedOp(p[i].loc, p[i].kind)
  }

  lemma OpCodeFails(text: Templates, p: seq<Operation>, i: nat, pool: Pool)
    requires i < |p|
    ensures OpCode(text, p, i, pool).Err? <==> Rejected(p, i)
    ensures OpCode(text, p, i, pool).Err? ==> OpCode(text, p, i, pool).error == RejectionOf(p, i)
  {
  }

  lemma {:induction false} BodyFails(text: Templates, p: seq<Operation>, i: nat, pool: Pool)
    requires i <= |p|
    ensures Body(text, p, i, pool).Err? <==> exists j :: i <= j < |p| && Rejected(p, j)
    ensures Body(text, p, i, pool).Err? ==>
              exists j :: i <= j < |p| && Rejected(p, j) && (forall k :: i <= k < j ==> !Rejected(p, k))
                          && Body(text, p, i, pool).error == RejectionOf(p, j)
    decreases |p| - i
  {
    if i < |p| {
      OpCodeFails(text, p, i, pool);
      if !Rejected(p, i) {
        BodyFails(text, p, i + 1, OpCode(text, p, i, pool).value.1);
      }
    }
  }

  /** Generation fails exactly when some op is rejected, and then with the error of the first one. */
  lemma GenerateFails(d: Dialect, p: seq<Operation>)
    ensures Generate(d, p).Err? <==> exists j :: 0 <= j < |p| && Rejected(p, j)
    ensures Generate(d, p).Err? ==>
              exists j :: 0 <= j < |p| && Rejected(p, j) && (forall k :: 0 <= k < j ==> !Rejected(p, k))
                          && Generate(d, p).error == RejectionOf(p, j)
  {
    BodyFails(DialectText(d), p, 0, map[]);
  }

  // ---------------------------------------------------------------------------------------
  // The generator as the source runs it.

  /** `Body` from op `i` on, with the lines already emitted in front. */
  function After(done: seq<Line>, r: Result<(seq<Line>, Pool), GenError>): Result<(seq<Line>, Pool), GenError>
  {
    if r.Err? then r else Ok((done + r.value.0, r.value.1))
  }

  lemma AfterNothing(r: Result<(seq<Line>, Pool), GenError>)
    ensures After([], r) == r
  {
    if r.Ok? {
      assert [] + r.value.0 == r.value.0;
    }
  }

  lemma BodyStep(text: Templates, p: seq<Operation>, i: nat, pool: Pool, done: seq<Line>)
    requires i < |p| && OpCode(text, p, i, pool).Ok?
    ensures After(done, Body(text, p, i, pool))
            == After(done + OpCode(text, p, i, pool).value.0, Body(text, p, i + 1, OpCode(text, p, i, pool).value.1))
  {
    var r := Body(text, p, i + 1, OpCode(text, p, i, pool).value.1);
    if r.Ok? {
      assert done + (OpCode(text, p, i, pool).value.0 + r.value.0) == (done + OpCode(text, p, i, pool).value.0) + r.value.0;
    }
  }

  /**
   * `generate_nasm_linux_x86_64` up to the file writes: the scan for a `put`, then the loop
   * appending each op's lines and interning its string.
   */
  method GenerateNasm(d: Dialect, program: seq<Operation>) returns (r: Result<Assembly, GenError>)
    ensures r == Generate(d, program)
  {
    var isPutNeeded := false;
    var k := 0;
    while k < |program|
      invariant 0 <= k <= |program|
      invariant !isPutNeeded ==> forall j :: 0 <= j < k ==> !program[j].kind.Put?
      invariant isPutNeeded ==> HasPut(program)
    {
      if program[k].kind.Put? {
        isPutNeeded := true;
        break;
      }
      k := k + 1;
    }

    var output: seq<Line> := [];
    var strings: Pool := map[];
    var i := 0;
    AfterNothing(Body(DialectText(d), program, 0, map[]));
    while i < |program|
      invariant 0 <= i <= |program|
      invariant Body(DialectText(d), program, 0, map[]) == After(output, Body(DialectText(d), program, i, strings))
    {
      var op := program[i];
      ghost var code := OpCode(DialectText(d), program, i, strings);
      ghost var before := strings;
      if IsPooled(op) {
        var s := if op.kind.PushString? then op.stringValue else View(op.loc);
        var comment := if op.kind.PushString? then "    ; -- push str --" else "    ; -- here --";
        if s !in strings {
          strings := strings[s := |strings|];
        }
        var lines := [Text(comment), PushNumber(|s|), PushPooled(strings[s])];
        assert code == Ok((lines, strings));
        BodyStep(DialectText(d), program, i, before, output);
        output := output + lines;
      } else {
        var c := OpCode(DialectText(d), program, i, strings);
        if c.Err? {
          return Err(c.error);
        }
        BodyStep(DialectText(d), program, i, strings, output);
        output := output + c.value.0;
      }
      i := i + 1;
    }
    assert isPutNeeded == HasPut(program);
    assert output + [] == output;
    r := Ok(Assembly(isPutNeeded, output, strings));
  }
}
