/**
 * The two prototypes side by side (main.cpp and main.go): on the operations they share, the
 * Go interpreter prints what the C++ interpreter prints whenever the C++ one runs to the end.
 * Where the C++ stack runs short the Go one reads zeros instead.
 */
module ProtoAgreement {
  import ProtoCpp
  import ProtoGo
  import GoStack

  /** The Go operation of a C++ operation (a string push, which the C++ run rejects, becomes a push of 0). */
  function GoOp(op: ProtoCpp.Operation): ProtoGo.Operation
  {
    match op.kind
    case PushInt => ProtoGo.Operation(ProtoGo.OperationPush, op.intValue)
    case PushString => ProtoGo.Operation(ProtoGo.OperationPush, 0)
    case Plus => ProtoGo.Operation(ProtoGo.OperationPlus, 0)
    case Put => ProtoGo.Operation(ProtoGo.OperationDump, 0)
  }

  function GoProgram(p: seq<ProtoCpp.Operation>): (q: seq<ProtoGo.Operation>)
    ensures |q| == |p| && forall k :: 0 <= k < |p| ==> q[k] == GoOp(p[k])
  {
    seq(|p|, k requires 0 <= k < |p| => GoOp(p[k]))
  }

  /** A C++ step that succeeds is the Go step on the same stack and output. */
  lemma StepAgrees(op: ProtoCpp.Operation, stack: seq<int>, out: seq<string>)
    requires ProtoCpp.Step(op, stack, out).Ok?
    ensures var r := ProtoCpp.Step(op, stack, out).value;
            ProtoGo.Step(GoOp(op), ProtoGo.Vm(stack, out)) == ProtoGo.Vm(r.0, r.1)
  {
    if op.kind == ProtoCpp.Plus {
      var s := stack;
      assert GoStack.Below(s) == s[..|s| - 1];
      assert GoStack.Below(s[..|s| - 1]) == s[..|s| - 2];
    }
  }

  lemma {:induction false} RunFromAgrees(p: seq<ProtoCpp.Operation>, i: nat, stack: seq<int>, out: seq<string>)
    requires i <= |p| && ProtoCpp.RunFrom(p, i, stack, out).Ok?
    ensures ProtoGo.RunFrom(GoProgram(p), i, ProtoGo.Vm(stack, out)).out == ProtoCpp.RunFrom(p, i, stack, out).value
    decreases |p| - i
  {
    if i < |p| {
      var r := ProtoCpp.Step(p[i], stack, out);
      StepAgrees(p[i], stack, out);
      RunFromAgrees(p, i + 1, r.value.0, r.value.1);
    }
  }

  /** Whenever the C++ prototype runs a program to the end, the Go prototype prints the same lines. */
  lemma PrototypesAgree(p: seq<ProtoCpp.Operation>)
    requires ProtoCpp.Run(p).Ok?
    ensures ProtoGo.Output(GoProgram(p)) == ProtoCpp.Run(p).value
  {
    RunFromAgrees(p, 0, [], []);
  }
}
