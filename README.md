# A Dafny model of the wis / gollo toolchain

The repository holds a small stack language and the tools built around it. This project
models the core of each tool on values and in imperative Dafny, and proves what the code
promises.

- **The C++ compiler (wis.cpp, and its dialect gollo.cpp).** The pipeline is:
  - a line lexer;
  - a parser that expands `bind … end` definitions and splices `use` files;
  - the cross-reference pass that links `if`/`else`/`while`/`do`/`end`;
  - the type checker, which simulates the stack of types;
  - the NASM x86-64 generator.

  The two dialects share one model, parameterised by a `Dialect`. The dialects differ in:
  - how the lexer treats character literals and spaces inside strings;
  - the names of the load and store built-ins;
  - what the `syscall` code pushes.

  The model keeps the code's quirks:
  - an `end` that closes an `if` keeps jump target 0, so its code jumps back to the start when
    the program begins with `while` (`WisCodegen.EndOfIfAfterLeadingWhile`);
  - `not` does not pop;
  - an `if … do … end` passes the cross-reference pass, but the generator then branches to a
    label it never defines (`WisCodegen.IfDoEndUnlinked`). Without such misuse every accepted
    program is well linked (`WisCodegen.CrossreferencedLinked`), and then every branch of the
    listing names a label it defines (`WisCodegen.WellLinkedResolves`).
- **The Go rewrite.** It has these parts:
  - `lexer`: the lexer, the parser to operations and the in-place cross-reference pass over
    an array and a `Stack`;
  - `runner`: the interpreter, with its memory, string area and emulated syscalls;
  - `x86_64.go`: the x86-64 generator;
  - `compiler.go`: the generator of the second, smaller back end.

  The agreement lemmas relate the back ends to the runner as follows:
  - For `x86_64.go`, `GoAgreement.StepAgrees` proves that each op's code moves the model
    CPU's stack height exactly as the runner's step does.
  - For `compiler.go`, `GoCompiler.CodeAgrees` and `GoCompiler.CompiledRun` compare the
    generated code with `GoCompiler.Interpret`, an interpreter of the operations that back
    end accepts. `GoCompiler.BinaryMatchesRunner` and `GoCompiler.OthersMatchRunner` tie
    each of those operations, one at a time, to the runner's step.
- **The two prototypes (main.cpp, main.go).**
  - main.cpp knows four ops: integer push, string push, `+` and `put`. It fails on stack
    underflow, and its run aborts at a string push.
  - main.go knows integer push, `+`, `-` and `put`, and there a missing operand reads as zero.
  - Their agreement is proved for every program that main.cpp runs to the end.
- **The helpers.** These are `stack.Stack`, `file.GetExtension`/`GetName` and `slice.Chop`.

Machine integers are unbounded throughout; see "Left out". Strings are byte strings: each
`char` stands for one byte and is below 256. Lengths and columns are therefore byte counts,
as in the code.

## Model

| member | source | states |
|---|---|---|
| Strings.Find | wis.cpp:281-303 | `string::find` as `split_string` and `trim_string` use it: the first occurrence at or after the start, with no occurrence before it; none means no occurrence at all |
| Strings.JoinSplit | wis.cpp:281-295 | the pieces `split_string` returns, joined back with the delimiter, give the input |
| Strings.SplitPiecesLackDelimiter | wis.cpp:281-295 | no piece of a split holds the delimiter |
| Strings.SplitFirstPiece | wis.cpp:281-295 | the first piece is the text before the first occurrence of the delimiter, or all of it |
| Strings.LastIndexOf | wis.cpp:251-255 | `find_last_of`: the last index holding the character, none after it; none means the character does not occur |
| WisText.GetFileExtension | wis.cpp:251-255 | the text after the last dot, holding no dot; empty when there is no dot; the name is what precedes the dot, the dot and the extension |
| WisText.ShiftVector | wis.cpp:267-279 | an empty vector is an error (the exit); otherwise the first element and the rest, which together make the vector |
| WisText.SplitString | wis.cpp:281-295 | the loop pushes the pieces `Split` defines: between delimiters, then the remainder |
| WisText.TrimString | wis.cpp:297-303 | without an occurrence the string is unchanged; otherwise the first occurrence is erased, and putting it back at its position restores the input |
| WisText.UnescapeString | wis.cpp:305-347 | the loop produces `Unescaped`: each recognised escape pair becomes its character, an unknown pair is kept as two characters, and octal or hex escapes give an unspecified result |
| WisText.UnescapedWithoutBackslash | wis.cpp:305-347 | text without a backslash comes out unchanged |
| WisText.UnescapedEscapeString | wis.cpp:305-347 | unescaping inverts escaping on every string: `Unescaped(EscapeString(t)) == Some(t)`; this says nothing about which strings a literal can spell, since a literal stops at the next `"` (and gollo.cpp drops its leading spaces) |
| WisText.StringToInt | wis.cpp:354-361 | accepted only as white space, one optional sign and digits with nothing left over, and only within the 32-bit range |
| WisText.StringToIntOfIntToString | wis.cpp:354-361 | the decimal spelling of every 32-bit value is read back as that value |
| Location.LocationView | wis.cpp:363-366 | `path:row:col` starts with the path followed by a colon |
| Location.LocationViewInjective | wis.cpp:363-366 | different locations render differently, even for paths holding colons |
| AsmText.LabelNameInjective | wis.cpp:1580-1618 | two label numbers with the same spelling are equal, so a branch names one label |
| AsmText.Resolves | wis.cpp:1580-1618 | when every branch target is a defined label, each branch line and its label line spell the same name |
| WisLexer.LexLine | wis.cpp:394-463 | the character loop of `lex_line` (and of gollo.cpp:379-432) computes `LineTokens`: the line with a space appended, run through the string, character and space rules of the dialect |
| WisLexer.LineTokensWellFormed | wis.cpp:394-463 | every token of a line carries that line's path and row; a word is non-empty and holds no space, quote or (in wis.cpp) apostrophe, so tabs stay inside words; gollo.cpp never makes a character token |
| WisLexer.PlainLineTokens | wis.cpp:432-457 | a line without literals lexes to its maximal runs of non-space characters, each an INT exactly when `string_to_int` accepts all of it, else a WORD |
| WisLexer.StringLiteralToken | wis.cpp:407-416 | a quote opens a literal that runs to the next quote and yields one STRING token of the text between, spaces kept and escapes not applied (gollo.cpp drops leading spaces); in wis.cpp its column is that of the opening quote |
| WisLexer.UnterminatedString | wis.cpp:407-416 | a quote with no closing quote on the line drops the rest of the line without an error |
| WisLexer.CharLiteralToken | wis.cpp:417-431 | an apostrophe opens a character literal up to the next apostrophe; it is one CHAR token when it unescapes to exactly one character and the length error otherwise |
| WisLexer.LexFile | wis.cpp:465-493 | each line loses its `//` comment and is lexed with its 1-based number; the tokens are joined in line order |
| WisLexer.CodePartIsBeforeComment | wis.cpp:481 | the lexed part of a line is the text before its first `//`, and holds no `//` |
| WisLexer.FileTokensPlaced | wis.cpp:475-488 | a file's tokens come in line order, each with the file's path and a row between 1 and the number of lines |
| WisParser.ParseBinding | wis.cpp:523-604 | the body loop of `bind` yields exactly `BindAt`: an error for a missing name, a name that is not a word or is built in, a recursive use or an undefined word, else the index after the closing `end` and the bindings with the body appended |
| WisParser.SpliceUse | wis.cpp:627-637 | the new token vector is the included file's tokens followed by the old tokens without any `use` word or the token after one |
| WisParser.ParseTokensAsOperations | wis.cpp:495-671 | the scan computes `Parse`: literals push their value, words their built-in op or the ops bound to them, `bind` records a binding, `use` splices a file in and restarts with an empty program; the first error stops it |
| WisParser.BindAt | wis.cpp:523-546 | on success the scan continues strictly after the `bind` and within the tokens |
| WisParser.BindingBody | wis.cpp:550-604 | a binding's body ends at the first `end` met with no `if`/`while` of the body open (or at the end of the tokens), contains no token spelling the name, and its ops are those of the tokens before that `end`, in order |
| WisParser.BoundAppends | wis.cpp:567-596 | binding a name appends to its earlier ops; the key appears only once it holds an op; every other name keeps its ops |
| WisParser.StripUseRemovesUse | wis.cpp:632-637 | no `use` word of a non-string token survives the splice |
| WisParser.StripUseWithoutUse | wis.cpp:632-637 | a token vector without `use` words is kept whole by the splice |
| WisParser.ParsePlain | wis.cpp:502-668 | without `bind` and `use`, the program is each token's ops in order, failing at the first undefined word |
| WisParser.PlainOpsOfLiterals | wis.cpp:507-520 | literal tokens give one op each, at the token's location: an integer pushes its value, a string its unescaped text, a character (wis.cpp only) an integer |
| WisParser.ParseUnlinked | wis.cpp:495-671 | every op the parser emits still has `JumpTo` 0; linking is the later cross-reference pass |
| WisCrossref.XrefIteration | wis.cpp:680-745 | one iteration of the loop rewrites the array exactly as `XrefStep` says and returns its new block stack, or its error |
| WisCrossref.CrossreferenceBlocks | wis.cpp:673-756 | the in-place pass succeeds exactly when `Xref` does, leaves the array equal to `Xref`'s program, and otherwise reports `Xref`'s error |
| WisCrossref.XrefKeepsOps | wis.cpp:673-756 | cross-referencing keeps every op's kind, values and location; only `JumpTo` fields change |
| WisCrossref.XrefJumpsWithin | wis.cpp:698-735 | starting from targets within the program, every `JumpTo` written is an op index or one past the last op |
| WisCrossref.XrefBalanced | wis.cpp:683-755 | a program that cross-references has exactly as many `end`s as `if`s and `while`s |
| WisCrossref.XrefIfEnd | wis.cpp:726-729 | in `if … end` the `if` jumps to its `end` and the `end` keeps the `JumpTo` the parser left |
| WisCrossref.XrefIfElseEnd | wis.cpp:689-729 | in `if … else … end` the `if` jumps just past the `else` and the `else` to the `end`; nothing else changes |
| WisCrossref.XrefIfElseEndRun | wis.cpp:689-729 | the same program written out as the result of `Xref` |
| WisCrossref.XrefWhileDoEnd | wis.cpp:702-735 | in `while … do … end` the `do` jumps just past the `end` and the `end` back to the `while` |
| WisCrossref.XrefOpenDoEndRun | wis.cpp:702-735 | a `do` takes whichever block is open, so `if … do … end` is linked like a `while` loop |
| WisCrossref.XrefUnclosedIf | wis.cpp:748-755 | a lone `if` is reported as an unclosed block at the `if`'s location |
| WisCrossref.XrefWhileEnd | wis.cpp:715-741 | `while … end` with no `do` is rejected at the `end` |
| WisCrossref.XrefWithoutBlocks | wis.cpp:673-756 | a program with no block op is left unchanged |
| WisTypeCheck.TypeCheckProgram | wis.cpp:758-1304 | the loop over the program, pushing and popping a stack of types, gives exactly `TypeCheck`: the first error of the fold, else the left-over check |
| WisTypeCheck.TypeStepArity | wis.cpp:769-1288 | a successful step removes the `takes` top entries of the op's arity and puts `gives` entries back, leaving everything below untouched |
| WisTypeCheck.TypeStepNeedsArguments | wis.cpp:785-1280 | every op but `bind` and `use` fails with the not-enough-arguments error exactly when the stack holds fewer entries than it takes |
| WisTypeCheck.TypeStepUnexpanded | wis.cpp:976-979 | `bind` and `use` reaching the checker are errors |
| WisTypeCheck.PlusTyped | wis.cpp:781-805 | `+` accepts int+int (int) and ptr+int or int+ptr (ptr) and rejects any other pair |
| WisTypeCheck.MinusTyped | wis.cpp:806-830 | `-` accepts int-int (int) and ptr-int (ptr), the pointer below, and rejects any other pair |
| WisTypeCheck.ArithmeticTyped | wis.cpp:831-902 | `*`, `/`, `%`, `<<` and `>>` take two ints and give an int |
| WisTypeCheck.BitwiseTyped | wis.cpp:854-879 | `|`, `&` and `^` take two ints or two bools and give the same type |
| WisTypeCheck.ComparisonTyped | wis.cpp:903-929 | the comparisons take two ints and give a bool; two bools get their own error, any other pair the type error |
| WisTypeCheck.TypeStepTyped | wis.cpp:781-1065 | every op that demands types does exactly what its signature table says once it has its arguments, and rejects every other combination with an error naming those types |
| WisTypeCheck.TypeStepNot | wis.cpp:930-943 | `not` succeeds exactly on a bool on top, and leaves the stack unchanged |
| WisTypeCheck.TypeStepPush | wis.cpp:769-780 | the pushing ops (an int, a string as length then pointer, `here`, a bool, `mem`) never fail and push their types at the op's location |
| WisTypeCheck.TypeStepFlow | wis.cpp:969-975 | `else`, `while` and `end` leave the stack alone |
| WisTypeCheck.TypeStepSyscall | wis.cpp:1177-1288 | `syscallN` succeeds exactly when N+1 entries are present, of any type, and replaces them by one int |
| WisTypeCheck.TypeStepShuffle | wis.cpp:1032-1176 | `copy`, `over`, `swap`, `2swap`, `drop`, `rot` and `put` never look at types: they put back the entries their table picks from the top, locations included |
| WisTypeCheck.TypeStepPermutes | wis.cpp:1098-1176 | `swap`, `2swap` and `rot` keep the same multiset of entries |
| WisTypeCheck.TypeStepBelow | wis.cpp:769-1288 | whether an op succeeds and what it leaves depends only on the entries it takes; deeper entries stay underneath |
| WisTypeCheck.TypeFoldAppend | wis.cpp:766-1289 | checking `p + q` is checking `p`, then `q` from the stack `p` left |
| WisTypeCheck.TypeFoldBelow | wis.cpp:766-1289 | a run of ops that passes on a stack passes the same way on any deeper stack |
| WisTypeCheck.TypeCheckBalanced | wis.cpp:1290-1303 | a program that passes leaves, by the arity table, as many entries as it takes |
| WisTypeCheck.TypeFoldExpanded | wis.cpp:976-1031 | a program that gets through the pass holds no `bind` or `use` |
| WisTypeCheck.TypeCheckFinal | wis.cpp:1290-1303 | a program passes exactly when the fold ends on an empty stack; a left-over stack is reported at its top entry's location, listing every entry from the top down |
| WisTypeCheck.TypeFoldIfElse | wis.cpp:950-975 | branches are not merged: `if A else B end` is checked as the straight line `A B` after the `if` takes its bool |
| WisCodegen.DialectsDiffer | gollo.cpp:1717-1785 | the two compilers emit the same text for every op except `syscallN`, where wis.cpp adds a final `push rax` |
| WisCodegen.SyscallPops | wis.cpp:1755-1830 | `syscallN` pops the number into `rax`, then its N arguments into `rdi`, `rsi`, `rdx`, `r10`, `r8`, `r9` in that order, then issues `syscall` |
| WisCodegen.InternIndex | wis.cpp:1388-1391 | interning a string keeps its index if it has one, and otherwise gives it the number of distinct strings seen so far |
| WisCodegen.DistinctNoDuplicates | wis.cpp:1388-1391 | the interned strings are those of the program, each once |
| WisCodegen.PooledCodeIndex | wis.cpp:1384-1395 | `push str` and `here` push the string's length and then the label `str_<index>` of its pool entry |
| WisCodegen.GeneratePool | wis.cpp:1842-1859 | the data section holds each distinct string the program interns once, numbered by first occurrence, and nothing else |
| WisCodegen.OpCodeLabels | wis.cpp:1580-1620 | each op's lines define and branch to exactly the labels its kind and `JumpTo` say: `else` defines the one after it, `end` and `while` their own; `if`, `else` branch to `JumpTo`, `do` to `JumpTo - 1`, an `end` closing a `while` back to it |
| WisCodegen.GenerateLabels | wis.cpp:1306-1863 | the labels of the generated text are exactly those the ops define and its branches exactly those they refer to |
| WisCodegen.WellLinkedResolves | wis.cpp:1580-1620 | on a well-linked program every branch of the generated text names a label the text defines |
| WisCodegen.CrossreferencedLinked | wis.cpp:1580-1620 | every program the cross-reference pass accepts, with blocks nested and in sequence, is well linked (every label its code branches to is defined) whenever each `do` takes over a block a `while` opened and no `else` takes over a `do`'s block |
| WisCodegen.IfEndLinked | wis.cpp:1580-1605 | a program whose only block is `if … end` is well linked after cross-referencing |
| WisCodegen.IfElseEndLinked | wis.cpp:1580-1605 | a program whose only block is `if … else … end` is well linked after cross-referencing |
| WisCodegen.WhileDoEndLinked | wis.cpp:1596-1620 | a program whose only block is `while … do … end` is well linked after cross-referencing |
| WisCodegen.EndOfIfAfterLeadingWhile | wis.cpp:1596-1605 | an `end` whose `JumpTo` is still 0 emits a `jmp` back to the label of op 0 when op 0 is a `while`, so an `if … end` after a leading `while` loop jumps back to the loop's start |
| WisCodegen.IfDoEndUnlinked | wis.cpp:1580-1620 | `if … do … end` passes cross-referencing, but the `if` keeps the parser's `JumpTo`, so the code is well linked only when that already named the `end` |
| WisCodegen.OpCodeFails | wis.cpp:1596-1667 | an op fails exactly when it is an unexpanded `bind` or `use` or an `end` whose `JumpTo` indexes no op, with that op's error |
| WisCodegen.GenerateFails | wis.cpp:1373-1835 | generation fails exactly when some op is rejected, and then with the first such op's error |
| WisCodegen.GenerateNasm | wis.cpp:1306-1842 | the scan for a `put` and the loop over the ops compute `Generate`: whether the decimal-print helper is emitted, the lines in order and the string pool |
| GoStrings.FirstFrom | internal/lexer/lexer.go:79-86 | the index found lies between the start and the end of the line, and a found index satisfies the predicate |
| GoStrings.FirstFromIsFirst | internal/lexer/lexer.go:79-86 | no character between the start and the index found satisfies the predicate, so it is the first |
| GoStrings.FieldsShape | main.go:101-103 | every field `strings.FieldsFunc` yields is non-empty and holds no separator |
| GoStrconv.Atoi | internal/lexer/lexer.go:66 | a value is returned only within the signed 64-bit range |
| GoStrconv.ParseInt | main.go:115-119 | the value is always within the 64-bit range; the error is reported exactly when `Atoi` rejects the word, and otherwise the value is `Atoi`'s |
| GoStrconv.AtoiOfIntToString | internal/lexer/lexer.go:66 | the decimal spelling of every 64-bit value reads back as that value |
| GoStack.TopOnBelow | stack/stack.go:18-26 | on a non-empty stack the popped value sits on top of what the pop leaves |
| GoStack.PopAfterPush | stack/stack.go:13-26 | popping what was just pushed returns it and restores the contents |
| GoStack.Stack.constructor | stack/stack.go:8-10 | a new stack is empty |
| GoStack.Stack.Push | stack/stack.go:13-15 | the item is appended on top |
| GoStack.Stack.Pop | stack/stack.go:18-26 | a non-empty stack loses its top, which is returned; an empty one returns 0 and stays empty |
| GoStack.Stack.Peek | stack/stack.go:29-34 | the top without removing it, or 0 on an empty stack |
| GoStack.Stack.IsEmpty | stack/stack.go:37-39 | true exactly when the stack holds nothing |
| GoStack.PushThenPop | stack/stack.go:13-26 | `Push(x)` then `Pop()` returns `x` and leaves the stack as it was |
| GoLexer.FindCol | internal/lexer/lexer.go:79-86 | the loop returns the first index from `start` satisfying the predicate, or the length of the line |
| GoLexer.ScanToken | internal/lexer/lexer.go:52-72 | one turn of the loop of `LexLine` computes `Scan`: the token at the column and the next non-space column, or the panic of an unclosed literal |
| GoLexer.LexLine | internal/lexer/lexer.go:48-76 | the loop computes `LineTokens` |
| GoLexer.LexFromBare | internal/lexer/lexer.go:63-71 | a bare token is the next white-space-delimited field, located at its first character, and the lexer goes on after the white space behind it |
| GoLexer.LineTokensFields | internal/lexer/lexer.go:48-76 | a line without `"` always lexes, into one token per `unicode.IsSpace`-delimited field, each an integer exactly when `Atoi` accepts it, else a word |
| GoLexer.StringLiteral | internal/lexer/lexer.go:54-62 | a string literal is the text between a `"` and the next one, located at its opening quote |
| GoLexer.UnclosedLiteral | internal/lexer/lexer.go:55-58 | a `"` with no closing `"` on the line indexes past its end and panics |
| GoLexer.CodeLineShape | internal/lexer/lexer.go:38 | the lexed text of a line is what precedes its first `//`, then a newline; it holds no `//` |
| GoLexer.FileTokensQuoteFree | internal/lexer/lexer.go:33-40 | a file without `"` always lexes |
| GoLexer.ParseTokensAsOperations | internal/lexer/lexer.go:133-219 | the loop computes `TokenOps` |
| GoLexer.TokenOpShape | internal/lexer/lexer.go:139-215 | a token becomes an op exactly when it is a literal or a known word, carrying its value and location; an unknown word is the `can't parse token` error at its location |
| GoLexer.TokenOpsShape | internal/lexer/lexer.go:133-219 | every token becomes exactly one op, in order; parsing fails exactly when a word is unknown, reporting the first such word |
| GoLexer.TokenOpsErrorStays | internal/lexer/lexer.go:211-213 | once a prefix of the tokens fails, the whole parse fails with the same error |
| GoLexer.XrefIteration | internal/lexer/lexer.go:95-120 | one iteration, on the array and a `Stack`, does exactly what `XrefStep` says |
| GoLexer.CrossreferenceBlocks | internal/lexer/lexer.go:88-131 | the in-place pass succeeds exactly when `Xref` does and leaves `Xref`'s program, or reports its error |
| GoLexer.XrefInvariants | internal/lexer/lexer.go:88-131 | only `JumpTo` fields change, and targets within the program stay within it |
| GoLexer.XrefIfEnd | internal/lexer/lexer.go:110-113 | in `if … end` the `if` jumps to its `end`, which keeps its `JumpTo` |
| GoLexer.XrefIfElseEnd | internal/lexer/lexer.go:100-113 | in `if … else … end` the `if` jumps past the `else` and the `else` to the `end` |
| GoLexer.XrefWhileDoEnd | internal/lexer/lexer.go:104-116 | in `while … do … end` the `do` jumps past the `end` and the `end` back to the `while` |
| GoLexer.XrefUnclosed | internal/lexer/lexer.go:125-128 | a lone `if` or `while` is reported as unclosed at its location |
| GoLexer.XrefWhileEnd | internal/lexer/lexer.go:117-118 | `while … end` with no `do` fails the assertion at the `end` |
| GoLexer.XrefSurplusEnd | internal/lexer/lexer.go:109-113 | a surplus `end` is accepted: popping an empty stack gives 0, and `if … end … end` re-links the leading `if` to the second `end` |
| GoLexer.XrefWithoutBlocks | internal/lexer/lexer.go:88-131 | a program with no block op is left unchanged |
| GoLexer.LexFile | internal/lexer/lexer.go:31-45 | the line loop, the parse and the cross-reference compute `Lexed` |
| GoLexer.LexedOps | internal/lexer/lexer.go:16-46 | the front end yields one op per token of the file, in order, each with its token's code, value and location, and every jump target within the program or one past it |
| GoRunner.QuotRem | internal/runner/runner.go:53-62 | Go's `/` and `%`: the quotient times the divisor plus the remainder gives the dividend; the remainder is smaller than the divisor and takes the dividend's sign |
| GoRunner.ShiftRight | internal/runner/runner.go:83-87 | `>>` is the quotient by a power of two rounded down |
| GoRunner.BitwiseCommute | internal/runner/runner.go:63-77 | `|`, `&` and `^` do not depend on the order of their operands |
| GoRunner.BitwiseSelf | internal/runner/runner.go:63-77 | `x ^ x` is 0, and `x & x`, `x | x` are `x` |
| GoRunner.ExecuteBinary | internal/runner/runner.go:38-141 | pops `a` then `b` and leaves exactly `BinaryStack`, or its fault |
| GoRunner.ExecuteFlow | internal/runner/runner.go:142-165 | the block cases give the next value of `i` and the stack `FlowStep` says |
| GoRunner.ExecuteShuffle | internal/runner/runner.go:166-195 | `copy`, `2copy`, `swap`, `drop` and `over` leave exactly `Shuffle` |
| GoRunner.ExecuteReorder | internal/runner/runner.go:172-195 | `2copy`, `swap` and `over` through their pops and pushes leave exactly `Shuffle` |
| GoRunner.ExecuteSyscall | internal/runner/runner.go:196-237 | the syscall cases leave the stack and the writes `SyscallStep` says |
| GoRunner.Iterate | internal/runner/runner.go:23-240 | one iteration of the loop computes `Step` on the loop's variables |
| GoRunner.Run | internal/runner/runner.go:13-242 | the loop computes `Exec` from the start state |
| GoRunner.StepFaults | internal/runner/runner.go:53-239 | a step fails only by dividing by zero, shifting by a negative count, an `end` whose `JumpTo` indexes no op, `puts`, or an emulated write out of the buffer or to an unknown descriptor; never by an empty stack |
| GoRunner.StepPc | internal/runner/runner.go:142-165 | every op but the block ops moves to the next; `else` jumps; `if` and `do` jump when the popped value is 0; `end` jumps back only to a `while` |
| GoRunner.EndOfIfAfterLeadingWhile | internal/runner/runner.go:151-156 | an `end` whose `JumpTo` is 0 jumps back to the start when the program begins with `while` |
| GoRunner.BinaryShape | internal/runner/runner.go:38-141 | a binary op replaces `b` and the top `a` by its value |
| GoRunner.ShuffleShape | internal/runner/runner.go:169-195 | on `… b a`: `copy` gives `… b a a`, `2copy` `… b a b a`, `swap` `… a b`, `drop` `… b`, `over` `… b a b` |
| GoRunner.BinaryArithmetic | internal/runner/runner.go:43-114 | `-` gives `b - a`; `/` and `%` divide `b` by `a` as Go does; `<<` multiplies by a power of two; `<` gives 1 exactly when `b < a` |
| GoRunner.StepGrows | internal/runner/runner.go:29-37 | a step only appends to memory and output, keeping `strintsSize` equal to the bytes stored |
| GoRunner.PushStringAddress | internal/runner/runner.go:29-37 | a string push pushes the length then the address, and the memory at that address holds the literal |
| GoRunner.WriteEmulation | internal/runner/runner.go:219-232 | `syscall3` of number 1 writes the bytes and a newline to fd 1 or 2 and pushes the count; a slice past the buffer's capacity (640000 bytes, or the stored length once memory has grown past that) or another descriptor is a fault |
| GoRunner.RunStringsSize | internal/runner/runner.go:16-37 | in every state a run reaches `strintsSize` equals the bytes stored |
| GoRunner.PrintString | internal/runner/runner.go:29-232 | `"s" 1 1 syscall3` writes `s` and a newline to standard output |
| GoX86.SyscallPops | internal/compiler/x86_64.go:255-280 | `syscallN` pops the number into `rax`, then its N arguments into `rdi`, `rsi`, `rdx` in order |
| GoX86.GeneratePool | internal/compiler/x86_64.go:75-80 | the data section has one entry per string push, in program order, and the entry an op pushes holds that op's literal |
| GoX86.OpCodeLabels | internal/compiler/x86_64.go:197-221 | each op's lines define and branch to exactly the labels its code and `JumpTo` say |
| GoX86.GenerateLabels | internal/compiler/x86_64.go:13-302 | the labels of the generated text are those the ops define and its branches those they refer to |
| GoX86.WellLinkedResolves | internal/compiler/x86_64.go:197-221 | on a well-linked program every branch names a label the text defines |
| GoX86.CrossreferencedLinked | internal/compiler/x86_64.go:197-221 | every program the Go cross-referencer accepts, surplus `end`s included, with blocks nested and in sequence, is well linked whenever each `do` takes over a block a `while` opened and no `else` takes over a `do`'s block |
| GoX86.IfEndLinked | internal/compiler/x86_64.go:197-212 | a program whose only block is `if … end` is well linked after the Go cross-referencer |
| GoX86.IfElseEndLinked | internal/compiler/x86_64.go:197-212 | a program whose only block is `if … else … end` is well linked after cross-referencing |
| GoX86.WhileDoEndLinked | internal/compiler/x86_64.go:207-221 | a program whose only block is `while … do … end` is well linked after cross-referencing |
| GoX86.SurplusEndLinked | internal/compiler/x86_64.go:197-212 | a program whose only block ops are `if … end … end`, the `if` first, is accepted and well linked, the `if` branching to the second `end` |
| GoX86.EndOfIfAfterLeadingWhile | internal/compiler/x86_64.go:207-212 | an `end` whose `JumpTo` is still 0 emits a `jmp` back to the label of op 0 when op 0 is a `while`, so an `if … end` after a leading `while` loop jumps back to the loop's start |
| GoX86.OpCodeFails | internal/compiler/x86_64.go:207-283 | an op fails exactly when it is `puts` or an `end` whose `JumpTo` indexes no op |
| GoX86.GenerateFails | internal/compiler/x86_64.go:66-284 | generation fails exactly when some op is rejected, with the first one's error |
| GoX86.CompileX86 | internal/compiler/x86_64.go:56-294 | the loop over the ops computes `Generate`: the lines in order and the string pool |
| GoAgreement.BinaryEffects | internal/compiler/x86_64.go:81-196 | every binary op's text pops two and pushes one |
| GoAgreement.ShuffleEffects | internal/compiler/x86_64.go:222-254 | the net pushes of `copy`, `2copy`, `swap`, `drop`, `over` and `put` are 1, 2, 0, -1, 1, -1 |
| GoAgreement.SyscallEffects | internal/compiler/x86_64.go:255-280 | `syscallN` pops the number and N arguments and pushes the result |
| GoAgreement.StepAgrees | internal/runner/runner.go:38-237 | for every op with fixed text, the interpreter's stack grows by the pushes less the pops of the op's x86-64 text |
| GoCompiler.ListingShape | internal/compiler/compiler.go:37-175 | the text is the helper, `section .text`, `global _start`, `_start:`, the ops' lines, then the `exit` call with status 0 |
| GoCompiler.PushText | internal/compiler/compiler.go:79-81 | `push` writes a comment naming the value and `push <value>` |
| GoCompiler.EmitOps | internal/compiler/compiler.go:75-169 | the loop appends each op's lines in program order |
| GoCompiler.CompileX86 | internal/compiler/compiler.go:27-175 | the content written is `Listing` of the helper and the program |
| GoCompiler.ArithmeticAgrees | internal/compiler/compiler.go:82-99 | on the model CPU, whose stack is exactly `m.stack`, the `+`, `-` and `*` templates leave `a + b`, `b - a` and `b * a` where `b` and the top `a` were, and fault exactly when that stack holds fewer than two values |
| GoCompiler.DivisionAgrees | internal/compiler/compiler.go:100-106 | on the model CPU, the `/` template leaves `b / a` when the unsigned `div` computes it, and faults otherwise or when `m.stack` holds fewer than two values |
| GoCompiler.ComparisonAgrees | internal/compiler/compiler.go:107-151 | on the model CPU, each comparison template leaves 1 where `b` and `a` were when `b OP a` holds, else 0, and faults exactly when `m.stack` holds fewer than two values |
| GoCompiler.ShuffleAgrees | internal/compiler/compiler.go:79-166 | on the model CPU, `push`, `dump`, `copy` and `swap` do what they mean on `m.stack` and the printed values, and fault exactly when `m.stack` is too short for them |
| GoCompiler.OpAgrees | internal/compiler/compiler.go:79-166 | on the model CPU, every op's template does what `Apply` says on `m.stack` and the printed values, and faults exactly when `Apply` is undefined on `m.stack` |
| GoCompiler.CodeAgrees | internal/compiler/compiler.go:75-169 | on the model CPU, a whole program's code does what `Interpret` says on `m.stack`, faulting exactly when `Interpret` is undefined |
| GoCompiler.CompiledRun | internal/compiler/compiler.go:27-175 | on the model CPU with an empty stack at `_start`, the generated code hands `dump` the values `Interpret` prints, in order, and exits with status 0, and faults exactly when the program underflows or divides where division is undefined |
| GoCompiler.CompiledRunOnStartStack | internal/compiler/compiler.go:27-175 | whatever the stack holds at `_start` (argc, argv, the environment), a program that `Interpret` runs to the end has code that hands `dump` the same values, in order, and exits with status 0 |
| GoCompiler.BinaryMatchesRunner | internal/runner/runner.go:38-141 | where defined, each binary op computes the same stack as the interpreter's op of the same meaning |
| GoCompiler.OthersMatchRunner | internal/runner/runner.go:166-185 | `dump` is handed the top that `put` prints, and `copy` and `swap` are the interpreter's shuffles |
| GoFile.GetExtensionShape | pkg/file/file.go:14-17 | a non-empty extension starts with `.` and holds no other `.` or `/`; it is empty exactly when the last element has no `.`; it is a suffix of that element |
| GoFile.GetNameTrims | pkg/file/file.go:8-12 | `GetName` removes the extension when the path ends with it and otherwise changes nothing |
| GoFile.NameThenExtension | pkg/file/file.go:8-17 | for a non-empty path not ending in `/`, name and extension together give the path back |
| GoSlice.Chop | pkg/slice/slice.go:3-8 | an empty slice is the `can't chop` panic; otherwise the head and the tail, which together make up the slice |
| ProtoCpp.FindCol | main.cpp:94-100 | the index returned is the first from `start` whose character satisfies the predicate, or the length of the line; a start past the end comes back unchanged |
| ProtoCpp.StoiReadsPrefix | main.cpp:125-132 | `stoi` reads the spelling of any 32-bit value off the front of a token and ignores a tail that does not start with a digit |
| ProtoCpp.StoiInvalid | main.cpp:125-138 | `stoi` throws `invalid_argument` exactly when no digit follows the white space and the optional sign |
| ProtoCpp.ScanToken | main.cpp:108-140 | one turn of the loop of `lex_line` computes `Scan`: the token at the column and the next non-space column, or the unclosed-quote assertion |
| ProtoCpp.LexLine | main.cpp:102-143 | the loop computes `LineTokens` |
| ProtoCpp.ScanString | main.cpp:110-120 | a `"` fails exactly when no other `"` follows on the line; otherwise the token's text is what lies between the quotes and its location is the opening quote's 1-based column |
| ProtoCpp.IntPrefixToken | main.cpp:125-132 | a bare token starting with a 32-bit number, such as `2swap`, is the INT of that number |
| ProtoCpp.TwoSwapIsInt | main.cpp:125-132 | `2swap` lexes as the integer 2 |
| ProtoCpp.WordToken | main.cpp:133-138 | a bare token is a WORD carrying its text exactly when `stoi` finds no number in it |
| ProtoCpp.ParseTokensAsOperations | main.cpp:145-182 | the loop computes `TokenOps` |
| ProtoCpp.TokenOpsErrorStays | main.cpp:171-175 | once a prefix of the tokens fails, the whole parse fails with the same error |
| ProtoCpp.ParseOnePerToken | main.cpp:145-182 | every token becomes exactly one op, in order, with its location and value; parsing fails exactly when a word is neither `+` nor `put`, reporting the first such word |
| ProtoCpp.LexFile | main.cpp:190-221 | the lines numbered from 1 are lexed, their tokens joined in order and parsed: `FileProgram` |
| ProtoCpp.RunProgram | main.cpp:223-265 | the loop computes `Run` |
| ProtoCpp.StepHeights | main.cpp:233-260 | a step succeeds exactly when the stack holds what the op takes, and then changes the height and the output as the op says |
| ProtoCpp.RunSucceedsIffBalanced | main.cpp:223-265 | a run succeeds exactly when the stack never runs short and no string is pushed, and then prints one line per `put` |
| ProtoCpp.PushStringAborts | main.cpp:239-243 | reaching a string push aborts the run |
| ProtoCpp.SumExample | main.cpp:244-260 | `2 3 + put` prints `5` |
| ProtoGo.LoadProgram | main.go:99-123 | the loop computes `WordOps` of the words and prints `Messages` of them |
| ProtoGo.WordOpShape | main.go:107-120 | `+`, `-` and `put` become plus, minus and dump; a 64-bit number is pushed; another word is pushed as 0, or as the nearest 64-bit bound for a number out of range |
| ProtoGo.MessagesCount | main.go:115-118 | one message per word that is neither a keyword nor a 64-bit number, each naming a word of the source |
| ProtoGo.LoadShape | main.go:99-123 | the words are the non-empty runs free of spaces and newlines; one op per word, in order, as `WordOpMeans` says; one message per rejected word |
| ProtoGo.Execute | main.go:129-144 | one turn of the `switch` leaves the stack and the printed lines that `Step` gives |
| ProtoGo.Run | main.go:126-146 | the loop over a `stack.Stack` prints exactly `Output` |
| ProtoGo.RunFromPrints | main.go:126-146 | a run never fails and prints one line per dump after those already printed |
| ProtoGo.OutputLines | main.go:140-141 | a program prints exactly one line per dump |
| ProtoGo.MissingOperandsAreZero | main.go:132-141 | a missing operand reads as 0: `put` on an empty stack prints 0, `+` with one value keeps it, `-` with one value `x` leaves `-x` |
| ProtoGo.ArithmeticOnTopTwo | main.go:132-139 | with two values or more, `+` and `-` replace the top two by `a + b` and `b - a` and leave the rest |
| ProtoAgreement.PrototypesAgree | main.go:126-146 | where the C++ prototype's run succeeds, the Go prototype run on the same ops prints the same lines |
| ProtoAgreement.RunFromAgrees | main.cpp:223-265 | from any point, a successful C++ run and the Go run on the corresponding ops print the same lines |

## Left out

- Reading and writing files, running `nasm`/`ld` and the produced program, command-line parsing, usage text and timing: I/O. The pipelines start from the text of a file and end with the listing as a sequence of lines.
- The ARM64 back end (internal/compiler/arm64.go and `compileArm64` in main.go): not part of the core modelled here.
- Real system calls in the Go runner: `syscall` is emulated for `write` to standard output and error. Any other number is handed to a kernel function taken as a parameter.
- pkg/stack, pkg/str, pkg/log and pkg/assert are not part of this model. `GoStack` follows stack/stack.go, where a pop or peek of an empty stack gives 0. `log.Fatal` and `assert` failures are error results.
- Octal and hexadecimal escapes in string and character literals: wis.cpp computes their bytes by reading back from its half-built output stream. The model reports them as `UnmodelledEscape` in the lexer and `UnmodelledStringEscape` in the parser.
- The lines of the C++ data section and the `.bss` reservation: `WisCodegen.Assembly` keeps the string pool they are written from, and the listing stops at the `section .data` header. The flag `is_put_needed` is left uninitialised in wis.cpp and gollo.cpp when no `put` occurs. It is taken as false there.
- Machine-integer wrap-around: C++ `int` and Go `int` are unbounded `int`s. `std::stoi` out of range is a lexing error. Go `strconv.ParseInt` clamps to the 64-bit bounds, as `GoStrconv.ParseInt` models.
- The assembly text of the number-printing helper and of the fixed prologue is a constant parameter, so register use inside it is not modelled.
- GoCompiler.BinaryValue: division is defined only for a non-negative dividend and a positive divisor. For other operands the unsigned `div` that compiler.go emits does not compute Go's `/`, so both the op and its code are faults there.
- main.cpp's `crossreference_blocks` does nothing and is modelled as the identity. `std::stack::top` on an empty stack is undefined in C++ and is an `EmptyStack` error.
- GoCompiler.ArithmeticAgrees, GoCompiler.DivisionAgrees, GoCompiler.ComparisonAgrees, GoCompiler.ShuffleAgrees, GoCompiler.OpAgrees, GoCompiler.CodeAgrees: the fault half holds for the model CPU, whose stack ends at `m.stack`. On the hardware, the code of an op that underflows the program's own values pops whatever lies below them instead of faulting. The registers are unbounded, so 64-bit wrap-around of `add`, `sub` and `imul` is not modelled.
- GoCompiler.CompiledRun: the fault direction assumes an empty stack at `_start`. At a real `_start` the stack holds argc, the argv pointers and the environment, so an underflowing program's code reads those instead of faulting, and `dump` then prints argc. Only the defined direction is kept for a real start-up stack, as GoCompiler.CompiledRunOnStartStack.
- GoCompiler.CompiledRun, GoCompiler.CompiledRunOnStartStack and GoCompiler.OthersMatchRunner relate the values handed to the `dump` helper, not the text it writes. The helper compiler.go emits (compiler.go:37-71) converts its argument as an unsigned 64-bit number, so for a negative value `v` it writes the decimal digits of 2^64 + v, while the runner's `put` prints the signed decimal. For example, `0 1 - dump` makes the code write 18446744073709551615 where the runner prints -1. The helper's text is a constant parameter of the model, so this difference is outside what those lemmas state.
- GoRunner.MemorySlice: once the runner's memory has grown past its initial capacity of 640000 bytes, Go's `append` chooses a new capacity at run time, and bytes past the length but within that capacity read as zero. The model takes the capacity after growth to be the length of the memory, so a `write` whose slice ends past the length faults with `SliceBoundsOutOfRange` where Go may succeed. Up to 640000 bytes the model follows the code exactly.
- GoRunner.WriteEmulation: inherits GoRunner.MemorySlice's capacity. After memory grows past 640000 bytes, a `write` slice that reaches past the stored bytes is a fault in the model, where Go may read zeros up to the capacity its runtime chose.
- WisCodegen.IfEndLinked: covers a program whose only block is `if … end`. Nested and sequenced blocks are covered by WisCodegen.CrossreferencedLinked.
- WisCodegen.IfElseEndLinked: covers a program whose only block is `if … else … end`. Nested and sequenced blocks are covered by WisCodegen.CrossreferencedLinked.
- WisCodegen.WhileDoEndLinked: covers a program whose only block is `while … do … end`. Nested and sequenced blocks are covered by WisCodegen.CrossreferencedLinked.
- GoX86.IfEndLinked: covers a program whose only block is `if … end`. Nested and sequenced blocks are covered by GoX86.CrossreferencedLinked.
- GoX86.IfElseEndLinked: covers a program whose only block is `if … else … end`. Nested and sequenced blocks are covered by GoX86.CrossreferencedLinked.
- GoX86.WhileDoEndLinked: covers a program whose only block is `while … do … end`. Nested and sequenced blocks are covered by GoX86.CrossreferencedLinked.
- GoX86.SurplusEndLinked: covers a program whose only block ops are `if … end … end`. Any number of surplus `end`s, in any nesting, is covered by GoX86.CrossreferencedLinked.
- WisCodegen.CrossreferencedLinked and GoX86.CrossreferencedLinked assume that each `do` takes over a block a `while` opened and that no `else` takes over a `do`'s block (WisCrossref.DoFollowsWhile, GoLexer.DoFollowsWhile). The cross-reference passes accept programs that break this, and then the code can branch to a label nothing defines; WisCodegen.IfDoEndUnlinked shows one such program.
- GoLexer.IsSpace: Go's `unicode.IsSpace` on UTF-8 text also splits at the multi-byte spaces U+0085, U+00A0, U+1680, U+2000 to U+200A, U+2028, U+2029, U+202F, U+205F and U+3000. The model splits only at the six ASCII white-space bytes, so it agrees with Go on ASCII source text.
- Byte strings: a `char` is one byte, so lengths and columns in GoRunner.PushStringAddress, ProtoCpp.FindCol and GoX86.StringCode count bytes, as the code does. Text is never decoded as UTF-8.
- GoRunner.Run: the interpreter loop runs for at most a given number of steps (fuel), and a program that runs longer ends in `OutOfFuel`.
- WisParser.ParseTokensAsOperations: the expansion of `use` is bounded by a fuel count.
- The `use` directive: the file system is a map from the written path to the file's tokens. A missing path is the file-not-found error. `extend_with_include_directories` is not modelled.
- WisText.SplitString requires a non-empty delimiter: `split_string` with an empty delimiter never advances and does not terminate.
- main.go's operation constructors (`push`, `plus`, `minus`, `dump`) and main.cpp's three `Operation` constructors are datatype values rather than functions.
- main.go's `chop` is `slice.Chop` for strings and is covered by GoSlice.Chop.
