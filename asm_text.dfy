/**
 * The NASM text the compilers write, as a list of lines. The lines that carry a number (a
 * pushed value, a pool index, a branch target, a label) are kept apart from the fixed ones
 * so that labels and pool indices can be reasoned about; `Render` spells each one out. The
 * C++ compilers and the Go generator differ only in how they name labels and pool entries.
 */
module AsmText {
  import opened Decimal

  datatype Line =
    | Text(text: string)                     // a fixed line
    | PushNumber(value: int)                 // `push <value>`
    | PushPooled(index: int)                 // `push <pool prefix><index>`
    | Branch(mnemonic: string, target: int)  // `je`/`jmp` to the label `<target>`
    | Label(indent: string, name: int)       // the definition of the label `<name>`

  /** The prefixes of label names and of pool entry names. */
  datatype Naming = Naming(labelPrefix: string, poolPrefix: string)

  function LabelName(nm: Naming, n: int): string { nm.labelPrefix + IntToString(n) }

  function Render(nm: Naming, l: Line): string
  {
    match l
    case Text(t) => t
    case PushNumber(v) => "    push    " + IntToString(v)
    case PushPooled(j) => "    push    " + nm.poolPrefix + IntToString(j)
    case Branch(m, t) => m + LabelName(nm, t)
    case Label(indent, n) => indent + LabelName(nm, n) + ":"
  }

  /** `complete_string` (and Go's `str.Complete`) on each line in turn: the line, then a newline. */
  function Content(nm: Naming, lines: seq<Line>): string
  {
    if lines == [] then "" else Content(nm, lines[..|lines| - 1]) + Render(nm, lines[|lines| - 1]) + "\n"
  }

  /** Different label numbers are spelled differently, so a branch names exactly one label. */
  lemma LabelNameInjective(nm: Naming, a: int, b: int)
    requires LabelName(nm, a) == LabelName(nm, b)
    ensures a == b
  {
    assert LabelName(nm, a)[|nm.labelPrefix|..] == IntToString(a);
    assert LabelName(nm, b)[|nm.labelPrefix|..] == IntToString(b);
    IntToStringInjective(a, b);
  }

  function TextLines(texts: seq<string>): (lines: seq<Line>)
    ensures |lines| == |texts|
  {
    seq(|texts|, j requires 0 <= j < |texts| => Text(texts[j]))
  }

  function LabelsIn(lines: seq<Line>): set<int> { set l | l in lines && l.Label? :: l.name }

  function TargetsIn(lines: seq<Line>): set<int> { set l | l in lines && l.Branch? :: l.target }

  lemma LabelsInAppend(a: seq<Line>, b: seq<Line>)
    ensures LabelsIn(a + b) == LabelsIn(a) + LabelsIn(b)
    ensures TargetsIn(a + b) == TargetsIn(a) + TargetsIn(b)
  {
    assert forall l :: l in a + b <==> l in a || l in b;
  }

  /** Fixed lines define no label and branch nowhere. */
  lemma TextLinesPlain(texts: seq<string>)
    ensures LabelsIn(TextLines(texts)) == {} && TargetsIn(TextLines(texts)) == {}
  {
    var lines := TextLines(texts);
    assert forall l :: l in lines ==> l.Text? by {
      forall l | l in lines ensures l.Text? {
        var j :| 0 <= j < |lines| && lines[j] == l;
      }
    }
  }

  /**
   * Lines whose branch targets are all defined: each branch names a label line, and the two
   * spell the label the same way.
   */
  lemma Resolves(nm: Naming, lines: seq<Line>)
    requires TargetsIn(lines) <= LabelsIn(lines)
    ensures forall b :: b in lines && b.Branch? ==>
              exists l :: l in lines && l.Label? && l.name == b.target
                          && Render(nm, b) == b.mnemonic + LabelName(nm, b.target)
                          && Render(nm, l) == l.indent + LabelName(nm, b.target) + ":"
  {
    forall b | b in lines && b.Branch?
      ensures exists l :: l in lines && l.Label? && l.name == b.target
                          && Render(nm, b) == b.mnemonic + LabelName(nm, b.target)
                          && Render(nm, l) == l.indent + LabelName(nm, b.target) + ":"
    {
      assert b.target in TargetsIn(lines);
      var l :| l in lines && l.Label? && l.name == b.target;
    }
  }
}
