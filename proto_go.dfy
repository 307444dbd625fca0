/**
 * The Go prototype (main.go): a source is cut into words at spaces and newlines, each word
 * becomes one of four operations, and the operations run on a `stack.Stack`, `put` printing
 * what it pops. The stack is total, so a run never fails: a missing operand reads as 0.
 */
module ProtoGo {
  import opened Decimal
  import opened GoStrings
  import opened GoStrconv
  import GoStack

  /** `OperationPush`, `OperationPlus`, `OperationMinus`, `OperationDump`. */
  datatype Code = OperationPush | OperationPlus | OperationMinus | OperationDump

  /** An operation; the constructors `push`, `plus`, `minus` and `dump` leave `Value` 0 except for `push`. */
  datatype Operation = Operation(code: Code, value: int)

  // ---------------------------------------------------------------------------------
  // Loading

  predicate IsWordSeparator(c: char) { c == ' ' || c == '\n' }

  function Words(source: string): seq<string>
  {
    Fields(source, IsWordSeparator)
  }

  predicate IsKeyword(word: string) { word == "+" || word == "-" || word == "put" }

  /** The operation of one word: `+`, `-` and `put`, or a push of what `ParseInt` returns. */
  function WordOp(word: string): Operation
  {
    if word == "+" then Operation(OperationPlus, 0)
    else if word == "-" then Operation(OperationMinus, 0)
    else if word == "put" then Operation(OperationDump, 0)
    else Operation(OperationPush, ParseInt(word).value)
  }

  /** The message printed for a word `ParseInt` rejects (without a newline). */
  function ParseMessage(word: string): string
  {
    "ERROR: can't parse token as integer: " + word
  }

  /** The operations of the words, one per word. */
  function WordOps(words: seq<string>): (ops: seq<Operation>)
    ensures |ops| == |words|
  {
    if words == [] then [] else WordOps(words[..|words| - 1]) + [WordOp(words[|words| - 1])]
  }

  /** The messages printed while loading, in order. */
  function Messages(words: seq<string>): seq<string>
  {
    if words == [] then []
    else
      var w := words[|words| - 1];
      Messages(words[..|words| - 1]) + (if !IsKeyword(w) && ParseInt(w).failed then [ParseMessage(w)] else [])
  }

  /** `loadProgramFromFile` after the file is read: the program and the messages it prints. */
  method LoadProgram(source: string) returns (program: seq<Operation>, messages: seq<string>)
    ensures program == WordOps(Words(source)) && messages == Messages(Words(source))
  {
    var words := Fields(source, IsWordSeparator);
    program := [];
    messages := [];
    var k := 0;
    while k < |words|
      invariant 0 <= k <= |words|
      invariant program == WordOps(words[..k]) && messages == Messages(words[..k])
    {
      var word := words[k];
      assert words[..k + 1][..k] == words[..k];
      if word == "+" {
        program := program + [Operation(OperationPlus, 0)];
      } else if word == "-" {
        program := program + [Operation(OperationMinus, 0)];
      } else if word == "put" {
        program := program + [Operation(OperationDump, 0)];
      } else {
        var val := ParseInt(word);
        if val.failed {
          messages := messages + [ParseMessage(word)];
        }
        program := program + [Operation(OperationPush, val.value)];
      }
      k := k + 1;
    }
    assert words[..|words|] == words;
  }

  lemma {:induction false} WordOpsAt(words: seq<string>)
    ensures forall k :: 0 <= k < |words| ==> WordOps(words)[k] == WordOp(words[k])
    decreases |words|
  {
    if words != [] {
      var init := words[..|words| - 1];
      WordOpsAt(init);
      assert forall k :: 0 <= k < |init| ==> WordOps(words)[k] == WordOps(init)[k] && init[k] == words[k];
    }
  }

  /** The number of words `ParseInt` rejects that are not keywords. */
  function Rejected(words: seq<string>): nat
  {
    if words == [] then 0
    else
      var w := words[|words| - 1];
      Rejected(words[..|words| - 1]) + (if !IsKeyword(w) && Atoi(w).None? then 1 else 0)
  }

  lemma {:induction false} MessagesCount(words: seq<string>)
    ensures |Messages(words)| == Rejected(words)
    ensures forall m :: m in Messages(words) ==> exists k :: 0 <= k < |words| && m == ParseMessage(words[k])
    decreases |words|
  {
    if words != [] {
      var init := words[..|words| - 1];
      MessagesCount(init);
      forall m | m in Messages(words)
        ensures exists k :: 0 <= k < |words| && m == ParseMessage(words[k])
      {
        if m in Messages(init) {
          var k :| 0 <= k < |init| && m == ParseMessage(init[k]);
          assert words[k] == init[k];
        } else {
          assert m == ParseMessage(words[|words| - 1]);
        }
      }
    }
  }

  /**
   * The operation of a word: the keywords become plus, minus and dump; a number the push of
   * its value; any other word a push of 0, or of the nearest 64-bit bound for a number out of
   * range.
   */
  predicate WordOpMeans(word: string, op: Operation)
  {
    && (word == "+" ==> op == Operation(OperationPlus, 0))
    && (word == "-" ==> op == Operation(OperationMinus, 0))
    && (word == "put" ==> op == Operation(OperationDump, 0))
    && (!IsKeyword(word) && Atoi(word).Some? ==> op == Operation(OperationPush, Atoi(word).value))
    && (!IsKeyword(word) && SignedDecimal(word).None? ==> op == Operation(OperationPush, 0))
    && (!IsKeyword(word) && SignedDecimal(word).Some? && Atoi(word).None? ==>
          op.code == OperationPush && op.value in {INT64_MIN, INT64_MAX})
  }

  lemma WordOpShape(word: string)
    ensures WordOpMeans(word, WordOp(word))
  {
  }

  /**
   * Loading makes one operation per word, in order, each as `WordOpMeans` says, with one
   * message per word that is neither a keyword nor a 64-bit number. The words are the
   * non-empty runs free of spaces and newlines.
   */
  lemma LoadShape(source: string)
    ensures var words, ops := Words(source), WordOps(Words(source));
            && |ops| == |words|
            && (forall w :: w in words ==> |w| > 0 && forall k :: 0 <= k < |w| ==> w[k] != ' ' && w[k] != '\n')
            && (forall k :: 0 <= k < |words| ==> WordOpMeans(words[k], ops[k]))
            && |Messages(words)| == Rejected(words)
  {
    var words := Words(source);
    FieldsShape(source, IsWordSeparator);
    WordOpsAt(words);
    MessagesCount(words);
    forall k | 0 <= k < |words|
      ensures WordOpMeans(words[k], WordOps(words)[k])
    {
      WordOpShape(words[k]);
    }
  }

  // ---------------------------------------------------------------------------------
  // Running

  /** The stack (top last) and the lines printed. */
  datatype Vm = Vm(stack: seq<int>, out: seq<string>)

  /**
   * One operation: plus and minus pop `a` then `b` and push `a + b` and `b - a`, dump pops and
   * prints; a pop of an empty stack gives 0 and leaves it empty.
   */
  function Step(op: Operation, v: Vm): Vm
  {
    var a, s1 := GoStack.Top(v.stack), GoStack.Below(v.stack);
    var b, s2 := GoStack.Top(s1), GoStack.Below(s1);
    match op.code
    case OperationPush => v.(stack := v.stack + [op.value])
    case OperationPlus => v.(stack := s2 + [a + b])
    case OperationMinus => v.(stack := s2 + [b - a])
    case OperationDump => Vm(s1, v.out + [IntToString(a) + "\n"])
  }

  function RunFrom(p: seq<Operation>, i: nat, v: Vm): Vm
    requires i <= |p|
    decreases |p| - i
  {
    if i == |p| then v else RunFrom(p, i + 1, Step(p[i], v))
  }

  /** What a program prints from an empty stack. */
  function Output(p: seq<Operation>): seq<string>
  {
    RunFrom(p, 0, Vm([], [])).out
  }

  /** One turn of the `switch` of `run`, on the stack and the lines printed so far. */
  method Execute(op: Operation, st: GoStack.Stack, out: seq<string>) returns (out': seq<string>)
    modifies st
    ensures Vm(st.items, out') == Step(op, Vm(old(st.items), out))
  {
    out' := out;
    match op.code {
      case OperationPush =>
        st.Push(op.value);
      case OperationPlus =>
        var a := st.Pop();
        var b := st.Pop();
        st.Push(a + b);
      case OperationMinus =>
        var a := st.Pop();
        var b := st.Pop();
        st.Push(b - a);
      case OperationDump =>
        var a := st.Pop();
        out' := out + [IntToString(a) + "\n"];
    }
  }

  /** `run`, with what `fmt.Println` writes returned as lines. */
  method Run(program: seq<Operation>) returns (out: seq<string>)
    ensures out == Output(program)
  {
    var st := new GoStack.Stack();
    out := [];
    var i := 0;
    while i < |program|
      invariant 0 <= i <= |program|
      invariant RunFrom(program, i, Vm(st.items, out)) == RunFrom(program, 0, Vm([], []))
      modifies st
    {
      RunFromStep(program, i, Vm(st.items, out));
      out := Execute(program[i], st, out);
      i := i + 1;
    }
  }

  lemma RunFromStep(p: seq<Operation>, i: nat, v: Vm)
    requires i < |p|
    ensures RunFrom(p, i, v) == RunFrom(p, i + 1, Step(p[i], v))
  {
  }

  /** The number of dumps from index `i` on. */
  function DumpsFrom(p: seq<Operation>, i: nat): nat
    requires i <= |p|
    decreases |p| - i
  {
    if i == |p| then 0 else (if p[i].code == OperationDump then 1 else 0) + DumpsFrom(p, i + 1)
  }

  /** Running never fails and prints exactly one line per dump, after those already printed. */
  lemma {:induction false} RunFromPrints(p: seq<Operation>, i: nat, v: Vm)
    requires i <= |p|
    ensures |RunFrom(p, i, v).out| == |v.out| + DumpsFrom(p, i)
    ensures RunFrom(p, i, v).out[..|v.out|] == v.out
    decreases |p| - i
  {
    if i < |p| {
      var w := Step(p[i], v);
      RunFromPrints(p, i + 1, w);
      var o := RunFrom(p, i, v).out;
      assert o[..|w.out|][..|v.out|] == o[..|v.out|];
    }
  }

  lemma OutputLines(p: seq<Operation>)
    ensures |Output(p)| == DumpsFrom(p, 0)
  {
    RunFromPrints(p, 0, Vm([], []));
  }

  /**
   * Underflow reads zeros: `put` on an empty stack prints 0, `+` with one value leaves it, and
   * `-` with one value `x` leaves `-x`.
   */
  lemma MissingOperandsAreZero(x: int, out: seq<string>)
    ensures Step(Operation(OperationDump, 0), Vm([], out)) == Vm([], out + ["0\n"])
    ensures Step(Operation(OperationPlus, 0), Vm([x], out)) == Vm([x], out)
    ensures Step(Operation(OperationMinus, 0), Vm([x], out)) == Vm([-x], out)
  {
    assert DigitChar(0) == '0' && NatToString(0) == "0" && IntToString(0) + "\n" == "0\n";
    assert GoStack.Below([x]) == [] && GoStack.Top([x]) == x;
    assert [] + [-x] == [-x] && [] + [x + 0] == [x];
  }

  /** With two values or more, plus and minus act on the top two and leave the rest. */
  lemma ArithmeticOnTopTwo(s: seq<int>, b: int, a: int, out: seq<string>)
    ensures Step(Operation(OperationPlus, 0), Vm(s + [b, a], out)) == Vm(s + [a + b], out)
    ensures Step(Operation(OperationMinus, 0), Vm(s + [b, a], out)) == Vm(s + [b - a], out)
  {
    var t := s + [b, a];
    assert t[..|t| - 1] == s + [b];
    assert (s + [b])[..|s|] == s;
  }
}
