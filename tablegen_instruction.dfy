/**
 * One instruction of the generated instruction-set description and the
 * printers that write it, field by field, as YAML lines to an output
 * stream.
 *
 * Every printer formats one line with `std::setw` and `std::left`: a run
 * of blanks, a left-justified label padded to a fixed width (never cut),
 * then the value. The stream is an object whose text the printers extend.
 */
module UnisonInstruction {

  import opened Strings

  /**
   * An operand of an instruction: a label, a bound (an immediate), or a
   * register with its use/def tag and register type.
   */
  datatype Operand = Operand(name: string, isLabel: bool, isBound: bool, usedefField: string, regtypeField: string)

  /** The instruction as the generator collects it. */
  datatype Instruction = Instruction(
    id: string,
    instrType: string,
    operands: seq<Operand>,
    uses: seq<string>,
    defs: seq<string>,
    size: int,
    affectsMem: bool,
    affectedMem: bool,
    affectsReg: seq<string>,
    affectedReg: seq<string>,
    itinerary: string)

  /** The output stream: what has been written so far. */
  class OutStream {
    var text: string

    constructor ()
      ensures text == ""
    {
      text := "";
    }
  }

  /** The `id` line: 8 blanks, "- id:" in a field of 22, the id. */
  function IdLine(id: string): string {
    Spaces(8) + PadRight("- id:", 22) + id + "\n"
  }

  /** `printAttribute`: 10 blanks, then the bare name, or the name in a field of 20 and the value. */
  function AttributeLine(name: string, value: string): string {
    if value == "" then Spaces(10) + name + "\n"
    else Spaces(10) + PadRight(name, 20) + value + "\n"
  }

  /** `printField`: 11 blanks, "- name: " in a field of 19, the value. */
  function FieldLine(name: string, value: string): string {
    Spaces(11) + PadRight("- " + name + ": ", 19) + value + "\n"
  }

  /** What an operand prints as: a label takes precedence over a bound. */
  function OperandValue(op: Operand): string {
    if op.isLabel then "label"
    else if op.isBound then "bound"
    else "[register, " + op.usedefField + ", " + op.regtypeField + "]"
  }

  /** The value of the `uses` and `defines` attributes. */
  function UseDefsValue(usedefs: seq<string>): string {
    "[" + Join(usedefs, ", ") + "]"
  }

  /** `print_usedefs`: the attribute `name:` with the bracketed list. */
  function UseDefsLine(name: string, usedefs: seq<string>): string {
    AttributeLine(name + ":", UseDefsValue(usedefs))
  }

  function OperandLines(ops: seq<Operand>): string {
    if ops == [] then "" else OperandLines(ops[..|ops| - 1]) + FieldLine(ops[|ops| - 1].name, OperandValue(ops[|ops| - 1]))
  }

  function OperandsText(ops: seq<Operand>): string {
    Spaces(10) + "operands:\n" + OperandLines(ops)
  }

  function RegisterLines(regs: seq<string>): string {
    if regs == [] then "" else RegisterLines(regs[..|regs| - 1]) + FieldLine(regs[|regs| - 1], "register")
  }

  /** `print_affs`: a header, a memory field when memory is affected, one field per register. */
  function AffsText(name: string, memory: bool, regs: seq<string>): string {
    Spaces(10) + name + ":\n" + (if memory then FieldLine("mem", "memory") else "") + RegisterLines(regs)
  }

  /**
   * `print_all`: what the stream holds after printing `inst` onto `out`: a
   * blank line and the nine attributes in their fixed order.
   */
  function PrintedOnto(out: string, inst: Instruction): string {
    out + "\n" + IdLine(inst.id) + AttributeLine("type:", inst.instrType) + OperandsText(inst.operands) +
    UseDefsLine("uses", inst.uses) + UseDefsLine("defines", inst.defs) +
    AttributeLine("size:", IntToString(inst.size)) + AffsText("affects", inst.affectsMem, inst.affectsReg) +
    AffsText("affected-by", inst.affectedMem, inst.affectedReg) + AttributeLine("itinerary:", inst.itinerary)
  }

  /** The join loop of `print_usedefs`: a separator before every element but the first. */
  method JoinUseDefs(usedefs: seq<string>) returns (value: string)
    ensures value == UseDefsValue(usedefs)
  {
    value := "";
    for i := 0 to |usedefs|
      invariant value == Join(usedefs[..i], ", ")
    {
      assert usedefs[..i + 1][..i] == usedefs[..i];
      if i != 0 {
        value := value + ", ";
      }
      value := value + usedefs[i];
    }
    assert usedefs[..|usedefs|] == usedefs;
    value := "[" + value + "]";
  }

  method PrintAttribute(name: string, value: string, os: OutStream)
    modifies os
    ensures os.text == old(os.text) + AttributeLine(name, value)
  {
    if value == "" {
      os.text := os.text + (Spaces(10) + name + "\n");
    } else {
      os.text := os.text + (Spaces(10) + PadRight(name, 20) + value + "\n");
    }
  }

  method PrintField(name: string, value: string, os: OutStream)
    modifies os
    ensures os.text == old(os.text) + FieldLine(name, value)
  {
    var name1 := "- " + name + ": ";
    os.text := os.text + (Spaces(11) + PadRight(name1, 19) + value + "\n");
  }

  method PrintId(inst: Instruction, os: OutStream)
    modifies os
    ensures os.text == old(os.text) + IdLine(inst.id)
  {
    os.text := os.text + (Spaces(8) + PadRight("- id:", 22) + inst.id + "\n");
  }

  method PrintOperands(inst: Instruction, os: OutStream)
    modifies os
    ensures os.text == old(os.text) + OperandsText(inst.operands)
  {
    ghost var t0 := os.text;
    var header := Spaces(10) + "operands:\n";
    os.text := os.text + header;
    var ops := inst.operands;
    for i := 0 to |ops|
      invariant os.text == t0 + header + OperandLines(ops[..i])
    {
      ghost var done := OperandLines(ops[..i]);
      assert ops[..i + 1][..i] == ops[..i];
      var op := ops[i];
      var value := OperandValue(op);
      PrintField(op.name, value, os);
      AppendAssoc(t0 + header, done, FieldLine(op.name, value));
    }
    assert ops[..|ops|] == ops;
    AppendAssoc(t0, header, OperandLines(ops));
  }

  method PrintUseDefs(usedefs: seq<string>, name: string, os: OutStream)
    modifies os
    ensures os.text == old(os.text) + UseDefsLine(name, usedefs)
  {
    var value := JoinUseDefs(usedefs);
    PrintAttribute(name + ":", value, os);
  }

  method PrintAffs(name: string, memory: bool, regs: seq<string>, os: OutStream)
    modifies os
    ensures os.text == old(os.text) + AffsText(name, memory, regs)
  {
    ghost var t0 := os.text;
    var header := Spaces(10) + name + ":\n";
    os.text := os.text + header;
    ghost var mem := if memory then FieldLine("mem", "memory") else "";
    if memory {
      PrintField("mem", "memory", os);
    }
    AppendAssoc(t0, header, mem);
    for i := 0 to |regs|
      invariant os.text == t0 + (header + mem) + RegisterLines(regs[..i])
    {
      ghost var done := RegisterLines(regs[..i]);
      assert regs[..i + 1][..i] == regs[..i];
      PrintField(regs[i], "register", os);
      AppendAssoc(t0 + (header + mem), done, FieldLine(regs[i], "register"));
    }
    assert regs[..|regs|] == regs;
    AppendAssoc(t0, header + mem, RegisterLines(regs));
  }

  /** `print_all`: a blank line, then id, type, operands, uses, defines, size, affects, affected-by, itinerary. */
  method PrintAll(inst: Instruction, os: OutStream)
    modifies os
    ensures os.text == PrintedOnto(old(os.text), inst)
  {
    os.text := os.text + "\n";
    PrintId(inst, os);
    PrintAttribute("type:", inst.instrType, os);
    PrintOperands(inst, os);
    PrintUseDefs(inst.uses, "uses", os);
    PrintUseDefs(inst.defs, "defines", os);
    PrintAttribute("size:", IntToString(inst.size), os);
    PrintAffs("affects", inst.affectsMem, inst.affectsReg, os);
    PrintAffs("affected-by", inst.affectedMem, inst.affectedReg, os);
    PrintAttribute("itinerary:", inst.itinerary, os);
  }

  /**
   * The layout of an attribute line: 10 blanks, the whole name, blanks up to
   * column 30 when the name is shorter than 20, then the value and a newline;
   * with an empty value, just the name.
   */
  lemma AttributeLineLayout(name: string, value: string)
    ensures var r := AttributeLine(name, value);
      r[..10] == Spaces(10) && r[10..10 + |name|] == name && r[|r| - 1] == '\n'
    ensures value == "" ==> |AttributeLine(name, value)| == 11 + |name|
    ensures value != "" ==>
      var r := AttributeLine(name, value);
      var col := if |name| < 20 then 30 else 10 + |name|;
      |r| == col + |value| + 1 && r[col..] == value + "\n" &&
      forall i :: 10 + |name| <= i < col ==> r[i] == ' '
  {
    var r := AttributeLine(name, value);
    if value != "" {
      var p := PadRight(name, 20);
      assert r == Spaces(10) + p + value + "\n";
      assert r[10..10 + |p|] == p;
      forall i | 10 + |name| <= i < 10 + |p|
        ensures r[i] == ' '
      {
        assert r[i] == p[i - 10];
      }
    }
  }

  /** Short labels line all values up at column 30: ids, attributes and fields alike. */
  lemma ValuesAlignAtColumn30(name: string, value: string, id: string)
    ensures |IdLine(id)| == 31 + |id| && IdLine(id)[30..] == id + "\n"
    ensures |name| < 20 && value != "" ==> AttributeLine(name, value)[30..] == value + "\n"
    ensures |name| < 15 ==> |FieldLine(name, value)| == 31 + |value| && FieldLine(name, value)[30..] == value + "\n"
  {
    assert |PadRight("- id:", 22)| == 22;
    var idLine := IdLine(id);
    assert idLine == (Spaces(8) + PadRight("- id:", 22)) + (id + "\n");
    if |name| < 20 && value != "" {
      AttributeLineLayout(name, value);
    }
    if |name| < 15 {
      var f := FieldLine(name, value);
      assert |PadRight("- " + name + ": ", 19)| == 19;
      assert f == (Spaces(11) + PadRight("- " + name + ": ", 19)) + (value + "\n");
    }
  }

  /** The printed value tells the three kinds of operand apart. */
  lemma OperandValueKinds(op: Operand)
    ensures OperandValue(op) == "label" <==> op.isLabel
    ensures OperandValue(op) == "bound" <==> !op.isLabel && op.isBound
    ensures OperandValue(op)[0] == '[' <==> !op.isLabel && !op.isBound
  {
    if !op.isLabel && !op.isBound {
      var v := OperandValue(op);
      assert v[0] == '[';
      assert v != "label" && v != "bound" by {
        assert "label"[0] != '[' && "bound"[0] != '[';
      }
    }
  }

  /** The uses/defines value of no names is "[]", of one name that name in brackets. */
  lemma UseDefsValueShapes(x: string, xs: seq<string>)
    ensures UseDefsValue([]) == "[]"
    ensures UseDefsValue([x]) == "[" + x + "]"
    ensures |xs| > 0 ==> UseDefsValue(xs + [x]) == "[" + Join(xs, ", ") + ", " + x + "]"
  {
    if |xs| > 0 {
      assert (xs + [x])[..|xs|] == xs;
      var j := Join(xs, ", ");
      assert Join(xs + [x], ", ") == j + ", " + x;
      AppendAssoc("[", j + ", ", x);
      AppendAssoc("[", j, ", ");
    }
  }

  /** Number of newlines in a string. */
  function Newlines(s: string): nat {
    if s == [] then 0 else Newlines(s[..|s| - 1]) + (if s[|s| - 1] == '\n' then 1 else 0)
  }

  lemma {:induction false} NewlinesAppend(a: string, b: string)
    ensures Newlines(a + b) == Newlines(a) + Newlines(b)
    decreases |b|
  {
    if b == [] {
      assert a + b == a;
    } else {
      assert (a + b)[..|a + b| - 1] == a + b[..|b| - 1];
      NewlinesAppend(a, b[..|b| - 1]);
    }
  }

  predicate OneLine(s: string) {
    forall i :: 0 <= i < |s| ==> s[i] != '\n'
  }

  lemma {:induction false} NoNewlines(s: string)
    requires OneLine(s)
    ensures Newlines(s) == 0
    decreases |s|
  {
    if s != [] {
      NoNewlines(s[..|s| - 1]);
    }
  }

  /** A field whose name and value hold no newline is one line. */
  lemma FieldIsOneLine(name: string, value: string)
    requires OneLine(name) && OneLine(value)
    ensures Newlines(FieldLine(name, value)) == 1
  {
    var p := PadRight("- " + name + ": ", 19);
    assert OneLine(Spaces(11) + p + value) by {
      var s := Spaces(11) + p + value;
      forall i | 0 <= i < |s|
        ensures s[i] != '\n'
      {
        if i < 11 {
        } else if i < 11 + |p| {
          assert s[i] == p[i - 11];
          if i - 11 < 2 + |name| + 2 {
            assert p[i - 11] == ("- " + name + ": ")[i - 11];
          }
        } else {
          assert s[i] == value[i - 11 - |p|];
        }
      }
    }
    NoNewlines(Spaces(11) + p + value);
    NewlinesAppend(Spaces(11) + p + value, "\n");
  }

  /** The register fields take one line per register. */
  lemma {:induction false} RegisterLinesCount(regs: seq<string>)
    requires forall k :: 0 <= k < |regs| ==> OneLine(regs[k])
    ensures Newlines(RegisterLines(regs)) == |regs|
    decreases |regs|
  {
    if regs != [] {
      RegisterLinesCount(regs[..|regs| - 1]);
      FieldIsOneLine(regs[|regs| - 1], "register");
      NewlinesAppend(RegisterLines(regs[..|regs| - 1]), FieldLine(regs[|regs| - 1], "register"));
    }
  }

  /** `print_affs` writes a header line, one line for memory when it is set, and one per register. */
  lemma AffsLineCount(name: string, memory: bool, regs: seq<string>)
    requires OneLine(name) && forall k :: 0 <= k < |regs| ==> OneLine(regs[k])
    ensures Newlines(AffsText(name, memory, regs)) == 1 + (if memory then 1 else 0) + |regs|
  {
    var header := Spaces(10) + name + ":\n";
    var mem := if memory then FieldLine("mem", "memory") else "";
    AffsHeaderIsOneLine(name);
    if memory {
      FieldIsOneLine("mem", "memory");
    }
    RegisterLinesCount(regs);
    NewlinesAppend(header, mem);
    NewlinesAppend(header + mem, RegisterLines(regs));
  }

  lemma AffsHeaderIsOneLine(name: string)
    requires OneLine(name)
    ensures Newlines(Spaces(10) + name + ":\n") == 1
  {
    var s := Spaces(10) + name + ":";
    forall i | 0 <= i < |s|
      ensures s[i] != '\n'
    {
      if 10 <= i < 10 + |name| {
        assert s[i] == name[i - 10];
      }
    }
    NoNewlines(s);
    NewlinesAppend(s, "\n");
    assert Spaces(10) + name + ":\n" == s + "\n";
  }
  lemma PrefixTrans(a: string, b: string, c: string)
    requires |a| <= |b| && b[..|a|] == a
    requires |b| <= |c| && c[..|b|] == b
    ensures c[..|a|] == a
  {
    assert c[..|a|] == c[..|b|][..|a|];
  }

  lemma PrefixOfAppend(p: string, x: string, y: string)
    requires |p| <= |x| && x[..|p|] == p
    ensures |p| <= |x + y| && (x + y)[..|p|] == p
  {
    assert (x + y)[..|p|] == x[..|p|];
  }

  /**
   * `print_all` only appends: what was on the stream stays, and the
   * instruction starts with a blank line and its id line.
   */
  lemma PrintAllExtends(out: string, inst: Instruction)
    ensures var p := out + "\n" + IdLine(inst.id);
      |p| <= |PrintedOnto(out, inst)| && PrintedOnto(out, inst)[..|p|] == p
    ensures |out| <= |PrintedOnto(out, inst)| && PrintedOnto(out, inst)[..|out|] == out
  {
    var p := out + "\n" + IdLine(inst.id);
    var x := p;
    x := x + AttributeLine("type:", inst.instrType);
    PrefixOfAppend(p, p, AttributeLine("type:", inst.instrType));
    PrefixOfAppend(p, x, OperandsText(inst.operands));
    x := x + OperandsText(inst.operands);
    PrefixOfAppend(p, x, UseDefsLine("uses", inst.uses));
    x := x + UseDefsLine("uses", inst.uses);
    PrefixOfAppend(p, x, UseDefsLine("defines", inst.defs));
    x := x + UseDefsLine("defines", inst.defs);
    PrefixOfAppend(p, x, AttributeLine("size:", IntToString(inst.size)));
    x := x + AttributeLine("size:", IntToString(inst.size));
    PrefixOfAppend(p, x, AffsText("affects", inst.affectsMem, inst.affectsReg));
    x := x + AffsText("affects", inst.affectsMem, inst.affectsReg);
    PrefixOfAppend(p, x, AffsText("affected-by", inst.affectedMem, inst.affectedReg));
    x := x + AffsText("affected-by", inst.affectedMem, inst.affectedReg);
    PrefixOfAppend(p, x, AttributeLine("itinerary:", inst.itinerary));
    x := x + AttributeLine("itinerary:", inst.itinerary);
    assert x == PrintedOnto(out, inst);
    assert p[..|out|] == out;
    assert x[..|out|] == x[..|p|][..|out|];
  }
}
