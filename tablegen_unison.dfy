/**
 * The instruction-set generator: from the target description's records it
 * collects, per instruction, the operands (flattened, named, with tied
 * operands swapped by the constraint string), uses and defines, flags and
 * register lists, and prints them all as one YAML document.
 *
 * A record is a plain value here: the fields the generator reads, with
 * `fields` telling which of them the record actually has. The record table
 * the operand types are looked up in is a map from record names.
 */
module UnisonRecords {

  import opened Wrappers
  import opened Strings
  import opened UnisonText
  import opened UnisonInstruction

  /** An operand definition and, when it has the field, its `MIOperandInfo` sub-operands. */
  datatype OperandDef = OperandDef(name: string, info: OperandInfo)

  datatype OperandInfo = NoOperandInfo | OperandInfo(args: seq<OperandDef>)

  /** One argument of an operand list: the operand's definition and its name in the list. */
  datatype DagArg = DagArg(def: OperandDef, argName: string)

  /** `string_pair`: an operand's type (the name of a record) and the operand's name. */
  type StringPair = (string, string)

  function Flatten(xss: seq<seq<string>>): (r: seq<string>)
    ensures (exists k :: 0 <= k < |xss| && xss[k] != []) ==> r != []
  {
    if xss == [] then [] else Flatten(xss[..|xss| - 1]) + xss[|xss| - 1]
  }

  /**
   * `flat`: the names of the leaf sub-operands of an operand, left to right;
   * an operand without sub-operands (no field, or an empty list) is its own
   * leaf, so the list is never empty.
   */
  function Flat(d: OperandDef): (r: seq<string>)
    ensures |r| >= 1
    ensures d.info.NoOperandInfo? || d.info.args == [] ==> r == [d.name]
  {
    match d.info
    case NoOperandInfo => [d.name]
    case OperandInfo(args) =>
      if args == [] then [d.name]
      else
        var subs := seq(|args|, i requires 0 <= i < |args| => Flat(args[i]));
        assert subs[0] != [];
        Flatten(subs)
  }

  /** The name `parseOperands` gives sub-operand `j` of `k`: the argument's own name for one, numbered from 1 for several. */
  function SubOperandName(argName: string, k: nat, j: nat): string {
    var name := if k == 1 then argName else argName + NatToString(j + 1);
    if name == "" then "unnamed" else name
  }

  /** The pairs one argument contributes: one per leaf, its type and its escaped name. */
  function ArgPairs(a: DagArg): seq<StringPair> {
    var types := Flat(a.def);
    seq(|types|, j requires 0 <= j < |types| => (types[j], Escape(SubOperandName(a.argName, |types|, j))))
  }

  function ParsedOperands(dag: seq<DagArg>): seq<StringPair> {
    if dag == [] then [] else ParsedOperands(dag[..|dag| - 1]) + ArgPairs(dag[|dag| - 1])
  }

  /** `parseOperands`: for every argument, every leaf of its flattening, in order. */
  method ParseOperands(dag: seq<DagArg>) returns (ret: seq<StringPair>)
    ensures ret == ParsedOperands(dag)
  {
    ret := [];
    for i := 0 to |dag|
      invariant ret == ParsedOperands(dag[..i])
    {
      ParsedOperandsStep(dag, i);
      var types := Flat(dag[i].def);
      ghost var base := ret;
      ghost var pairs := ArgPairs(dag[i]);
      for j := 0 to |types|
        invariant ret == base + pairs[..j]
      {
        var name := if |types| == 1 then dag[i].argName else dag[i].argName + NatToString(j + 1);
        if name == "" {
          name := "unnamed";
        }
        ArgPairAt(dag[i], j, name);
        ret := ret + [(types[j], Escape(name))];
      }
      assert pairs[..|types|] == pairs;
    }
    assert dag[..|dag|] == dag;
  }

  lemma ParsedOperandsStep(dag: seq<DagArg>, i: nat)
    requires i < |dag|
    ensures ParsedOperands(dag[..i + 1]) == ParsedOperands(dag[..i]) + ArgPairs(dag[i])
  {
    assert dag[..i + 1][..i] == dag[..i];
  }

  /** Leaf `j`'s pair, with `name` the sub-operand name as the inner loop builds it. */
  lemma ArgPairAt(a: DagArg, j: nat, name: string)
    requires j < |Flat(a.def)|
    requires name == SubOperandName(a.argName, |Flat(a.def)|, j)
    ensures ArgPairs(a)[..j + 1] == ArgPairs(a)[..j] + [(Flat(a.def)[j], Escape(name))]
  {
    var pairs := ArgPairs(a);
    assert pairs[j] == (Flat(a.def)[j], Escape(name));
    assert pairs[..j + 1] == pairs[..j] + [pairs[j]];
  }

  /** An argument with a single leaf keeps its own name, or "unnamed" when it has none. */
  lemma SingleLeafName(a: DagArg)
    requires |Flat(a.def)| == 1
    ensures ArgPairs(a) == [(Flat(a.def)[0], Escape(if a.argName == "" then "unnamed" else a.argName))]
  {
  }

  /** No YAML boolean ends in a digit, so escaping leaves a name ending in one alone. */
  lemma EscapeDigitEnding(name: string)
    requires name != [] && IsDigit(name[|name| - 1])
    ensures Escape(name) == name
  {
    var l := Lower(name);
    assert l[|l| - 1] == name[|name| - 1];
  }

  /**
   * Leaf `j` of an argument with several leaves is named after the argument
   * with `j + 1` appended, never "unnamed".
   */
  lemma NumberedLeafName(a: DagArg, j: nat)
    requires |Flat(a.def)| > 1 && j < |Flat(a.def)|
    ensures ArgPairs(a)[j].1 == a.argName + NatToString(j + 1)
  {
    var n := a.argName + NatToString(j + 1);
    assert SubOperandName(a.argName, |Flat(a.def)|, j) == n;
    EscapeDigitEnding(n);
  }

  /** No two leaves of an argument share a name. */
  lemma LeafNamesDistinct(a: DagArg, j1: nat, j2: nat)
    requires j1 < |Flat(a.def)| && j2 < |Flat(a.def)| && j1 != j2
    ensures ArgPairs(a)[j1].1 != ArgPairs(a)[j2].1
  {
    NumberedLeafName(a, j1);
    NumberedLeafName(a, j2);
    var n1, n2 := a.argName + NatToString(j1 + 1), a.argName + NatToString(j2 + 1);
    if n1 == n2 {
      assert n1[|a.argName|..] == NatToString(j1 + 1);
      assert n2[|a.argName|..] == NatToString(j2 + 1);
      NatToStringRoundTrip(j1 + 1);
      NatToStringRoundTrip(j2 + 1);
    }
  }

  /** `getNames`: the names of a list of pairs, in order. */
  function Names(list: seq<StringPair>): seq<string> {
    seq(|list|, i requires 0 <= i < |list| => list[i].1)
  }
  /** Swaps two names throughout a list of pairs; the types stay where they are. */
  function SwapNames(outs: seq<StringPair>, first: string, second: string): (r: seq<StringPair>)
    ensures |r| == |outs|
    ensures forall i :: 0 <= i < |outs| ==> r[i].0 == outs[i].0
  {
    seq(|outs|, i requires 0 <= i < |outs| =>
      if outs[i].1 == first then (outs[i].0, second)
      else if outs[i].1 == second then (outs[i].0, first)
      else outs[i])
  }

  /** One entry of a constraint string: an early-clobber marker or a tie of two operand names. */
  datatype Constraint = EarlyClobber | Tie(first: string, second: string)

  /**
   * How one comma-separated entry reads: trimmed, an entry beginning with
   * "@earlyclobber" is skipped; any other must split on '=' into exactly two
   * parts (an assertion) each with a first character to drop (`substr(1)`
   * throws on an empty part). `None` is that failure.
   */
  function ParseConstraint(con: string): Option<Constraint> {
    var con0 := Trim(con);
    if StartsWith(con0, "@earlyclobber") then Some(EarlyClobber)
    else
      var list := Split(con0, '=');
      if |list| != 2 then None
      else
        var a, b := Trim(list[0]), Trim(list[1]);
        if a == [] || b == [] then None
        else Some(Tie(Escape(a[1..]), Escape(b[1..])))
  }

  function ApplyConstraint(outs: seq<StringPair>, con: string): Option<seq<StringPair>> {
    match ParseConstraint(con)
    case None => None
    case Some(EarlyClobber) => Some(outs)
    case Some(Tie(first, second)) => Some(SwapNames(outs, first, second))
  }

  /** The entries applied from first to last; a failing entry aborts. */
  function ApplyConstraints(outs: seq<StringPair>, cons: seq<string>): Option<seq<StringPair>> {
    if cons == [] then Some(outs)
    else
      match ApplyConstraints(outs, cons[..|cons| - 1])
      case None => None
      case Some(o) => ApplyConstraint(o, cons[|cons| - 1])
  }

  function ExecutedConstraints(outs: seq<StringPair>, cons: string): Option<seq<StringPair>> {
    if |cons| == 0 then Some(outs) else ApplyConstraints(outs, Split(cons, ','))
  }

  /** Once an entry has failed, the whole constraint string fails. */
  lemma {:induction false} FailureAborts(outs: seq<StringPair>, cons: seq<string>, k: nat)
    requires k <= |cons| && ApplyConstraints(outs, cons[..k]) == None
    ensures ApplyConstraints(outs, cons) == None
    decreases |cons| - k
  {
    if k < |cons| {
      assert cons[..k + 1][..k] == cons[..k];
      FailureAborts(outs, cons, k + 1);
    } else {
      assert cons[..k] == cons;
    }
  }

  /** The swap loop of `execute_constraints`, over the positions of the list. */
  method SwapLoop(outs0: seq<StringPair>, first: string, second: string) returns (outs: seq<StringPair>)
    ensures outs == SwapNames(outs0, first, second)
  {
    outs := outs0;
    ghost var target := SwapNames(outs0, first, second);
    for i := 0 to |outs|
      invariant |outs| == |outs0|
      invariant forall k :: 0 <= k < i ==> outs[k] == target[k]
      invariant forall k :: i <= k < |outs| ==> outs[k] == outs0[k]
    {
      if outs[i].1 == first {
        outs := outs[i := (outs[i].0, second)];
      } else if outs[i].1 == second {
        outs := outs[i := (outs[i].0, first)];
      }
    }
  }

  /** The body of the loop of `execute_constraints`: one entry. */
  method ApplyEntry(outs: seq<StringPair>, con: string) returns (r: Option<seq<StringPair>>)
    ensures r == ApplyConstraint(outs, con)
  {
    var con0 := EatWhiteSpace(con);
    if StartsWith(con0, "@earlyclobber") {
      return Some(outs);
    }
    var list := SplitString(con0, '=');
    if |list| != 2 {
      return None;
    }
    var a := EatWhiteSpace(list[0]);
    var b := EatWhiteSpace(list[1]);
    if |a| == 0 || |b| == 0 {
      return None;
    }
    var first := Escape(a[1..]);
    var second := Escape(b[1..]);
    assert ParseConstraint(con) == Some(Tie(first, second));
    var swapped := SwapLoop(outs, first, second);
    return Some(swapped);
  }

  /**
   * `execute_constraints`: nothing to do for an empty string; otherwise every
   * comma-separated entry in turn, skipping early-clobber markers and
   * swapping the two tied names throughout the output operands.
   */
  method ExecuteConstraints(outs0: seq<StringPair>, cons: string) returns (r: Option<seq<StringPair>>)
    ensures r == ExecutedConstraints(outs0, cons)
  {
    if |cons| == 0 {
      return Some(outs0);
    }
    var entries := SplitString(cons, ',');
    var outs := outs0;
    for c := 0 to |entries|
      invariant ApplyConstraints(outs0, entries[..c]) == Some(outs)
    {
      assert entries[..c + 1][..c] == entries[..c];
      var step := ApplyEntry(outs, entries[c]);
      if step.None? {
        FailureAborts(outs0, entries, c + 1);
        return None;
      }
      outs := step.value;
    }
    assert entries[..|entries|] == entries;
    return Some(outs);
  }

  /** Swapping the same two names twice restores the list. */
  lemma SwapTwiceRestores(outs: seq<StringPair>, first: string, second: string)
    ensures SwapNames(SwapNames(outs, first, second), first, second) == outs
  {
    var once := SwapNames(outs, first, second);
    var twice := SwapNames(once, first, second);
    forall i | 0 <= i < |outs|
      ensures twice[i] == outs[i]
    {
      if outs[i].1 == first {
        assert once[i].1 == second;
      } else if outs[i].1 == second {
        assert once[i].1 == first;
      }
    }
  }

  /** Applying the same entry twice restores the list. */
  lemma ConstraintTwiceRestores(outs: seq<StringPair>, con: string)
    requires ApplyConstraint(outs, con).Some?
    ensures ApplyConstraint(ApplyConstraint(outs, con).value, con) == Some(outs)
  {
    match ParseConstraint(con)
    case Some(Tie(first, second)) =>
      SwapTwiceRestores(outs, first, second);
    case Some(EarlyClobber) =>
  }

  /** Constraints rename operands only: the list keeps its length and every type. */
  lemma {:induction false} ConstraintsKeepTypes(outs: seq<StringPair>, cons: seq<string>)
    requires ApplyConstraints(outs, cons).Some?
    ensures |ApplyConstraints(outs, cons).value| == |outs|
    ensures forall i :: 0 <= i < |outs| ==> ApplyConstraints(outs, cons).value[i].0 == outs[i].0
    decreases |cons|
  {
    if cons != [] {
      ConstraintsKeepTypes(outs, cons[..|cons| - 1]);
    }
  }

  /**
   * What an entry does: an early-clobber marker nothing, a well-formed tie a
   * swap of the two names without their first characters, and anything
   * else (no '=', more than one, an empty side) stops the generator.
   */
  lemma ConstraintEntry(outs: seq<StringPair>, con: string)
    ensures StartsWith(Trim(con), "@earlyclobber") ==> ApplyConstraint(outs, con) == Some(outs)
    ensures ApplyConstraint(outs, con) == None <==>
      !StartsWith(Trim(con), "@earlyclobber") &&
      (|Split(Trim(con), '=')| != 2 || Trim(Split(Trim(con), '=')[0]) == [] || Trim(Split(Trim(con), '=')[1]) == [])
  {
  }

  /** The empty constraint string changes nothing, and so does a string of early-clobber markers only. */
  lemma {:induction false} EarlyClobbersOnly(outs: seq<StringPair>, cons: seq<string>)
    requires forall k :: 0 <= k < |cons| ==> ParseConstraint(cons[k]) == Some(EarlyClobber)
    ensures ExecutedConstraints(outs, "") == Some(outs)
    ensures ApplyConstraints(outs, cons) == Some(outs)
    decreases |cons|
  {
    if cons != [] {
      EarlyClobbersOnly(outs, cons[..|cons| - 1]);
    }
  }
  /** What the generator reads of an operand type's record: its superclasses and its `Type` field. */
  datatype TypeRecord = TypeRecord(superClasses: seq<string>, valueType: Option<string>)

  /** The classes whose subclasses are registers. */
  const RegisterNames: set<string> := {"RegisterClass", "Register", "RegisterOperand", "RegisterTuples"}

  /** `isRegister`: some superclass is one of the register classes. */
  predicate IsRegister(r: TypeRecord) {
    exists i :: 0 <= i < |r.superClasses| && r.superClasses[i] in RegisterNames
  }

  /** `isLabel`: the record's `Type` field is `OtherVT`. */
  predicate IsLabel(r: TypeRecord) {
    r.valueType == Some("OtherVT")
  }

  /** Every type in the list names a record of the table. */
  predicate KnownTypes(pairs: seq<StringPair>, records: map<string, TypeRecord>) {
    forall i :: 0 <= i < |pairs| ==> pairs[i].0 in records
  }

  /** The use/def tag: "def" or "use", turned into "usedef" when the same pair is on the other side too. */
  function UseDefTag(pr: StringPair, help: seq<StringPair>, isDef: bool): string {
    var base := if isDef then "def" else "use";
    if pr in help then (if isDef then "use" + base else base + "def") else base
  }

  /** The operand `get_operands_from_vector` builds from a pair. */
  function MakeOperand(pr: StringPair, help: seq<StringPair>, isDef: bool, records: map<string, TypeRecord>): Operand
    requires pr.0 in records
  {
    var r := records[pr.0];
    if IsRegister(r) then Operand(pr.1, false, false, UseDefTag(pr, help, isDef), pr.0)
    else if IsLabel(r) then Operand(pr.1, true, false, UseDefTag(pr, help, isDef), pr.0)
    else Operand(pr.1, false, true, UseDefTag(pr, help, isDef), pr.0)
  }

  predicate HasName(ops: seq<Operand>, name: string) {
    exists i :: 0 <= i < |ops| && ops[i].name == name
  }

  /** The operands after adding those of `vec` in order, skipping a name already present. */
  function AddOperands(vec: seq<StringPair>, help: seq<StringPair>, ops: seq<Operand>, isDef: bool, records: map<string, TypeRecord>): seq<Operand>
    requires KnownTypes(vec, records)
  {
    if vec == [] then ops
    else
      var prev := AddOperands(vec[..|vec| - 1], help, ops, isDef, records);
      if HasName(prev, vec[|vec| - 1].1) then prev
      else prev + [MakeOperand(vec[|vec| - 1], help, isDef, records)]
  }

  /** `getOperands`: the outputs as definitions, then the inputs as uses. */
  function Operands(outs: seq<StringPair>, ins: seq<StringPair>, records: map<string, TypeRecord>): seq<Operand>
    requires KnownTypes(outs, records) && KnownTypes(ins, records)
  {
    AddOperands(ins, outs, AddOperands(outs, ins, [], true, records), false, records)
  }

  /** `get_operands_from_vector`: a linear search for the name, then the tag and the kind. */
  method GetOperandsFromVector(vec: seq<StringPair>, help: seq<StringPair>, operands0: seq<Operand>, isDef: bool, records: map<string, TypeRecord>)
    returns (operands: seq<Operand>)
    requires KnownTypes(vec, records)
    ensures operands == AddOperands(vec, help, operands0, isDef, records)
  {
    operands := operands0;
    for v := 0 to |vec|
      invariant operands == AddOperands(vec[..v], help, operands0, isDef, records)
    {
      assert vec[..v + 1][..v] == vec[..v];
      var pr := vec[v];
      var flag := false;
      var i := 0;
      while i < |operands|
        invariant i <= |operands|
        invariant flag ==> HasName(operands, pr.1)
        invariant !flag ==> forall k :: 0 <= k < i ==> operands[k].name != pr.1
      {
        if operands[i].name == pr.1 {
          flag := true;
          break;
        }
        i := i + 1;
      }
      if flag {
        continue;
      }
      var usedef := if isDef then "def" else "use";
      if pr in help {
        if isDef {
          usedef := "use" + usedef;
        } else {
          usedef := usedef + "def";
        }
      }
      var r := records[pr.0];
      var op;
      if IsRegister(r) {
        op := Operand(pr.1, false, false, usedef, pr.0);
      } else if IsLabel(r) {
        op := Operand(pr.1, true, false, usedef, pr.0);
      } else {
        op := Operand(pr.1, false, true, usedef, pr.0);
      }
      operands := operands + [op];
    }
    assert vec[..|vec|] == vec;
  }

  method GetOperands(outs: seq<StringPair>, ins: seq<StringPair>, records: map<string, TypeRecord>) returns (operands: seq<Operand>)
    requires KnownTypes(outs, records) && KnownTypes(ins, records)
    ensures operands == Operands(outs, ins, records)
  {
    operands := GetOperandsFromVector(outs, ins, [], true, records);
    operands := GetOperandsFromVector(ins, outs, operands, false, records);
  }

  /**
   * The tag and the kind of an operand: "def" for an output and "use" for an
   * input, "usedef" exactly when the same (type, name) pair is also on the
   * other side; a register is neither label nor bound, a label type only a
   * label, anything else only a bound, so never both.
   */
  lemma OperandTagAndKind(pr: StringPair, help: seq<StringPair>, isDef: bool, records: map<string, TypeRecord>)
    requires pr.0 in records
    ensures var op := MakeOperand(pr, help, isDef, records);
      op.name == pr.1 && op.regtypeField == pr.0 &&
      (op.usedefField == "usedef" <==> pr in help) &&
      (pr !in help ==> op.usedefField == (if isDef then "def" else "use")) &&
      !(op.isLabel && op.isBound) &&
      (IsRegister(records[pr.0]) ==> !op.isLabel && !op.isBound) &&
      (op.isLabel <==> !IsRegister(records[pr.0]) && IsLabel(records[pr.0])) &&
      (op.isBound <==> !IsRegister(records[pr.0]) && !IsLabel(records[pr.0]))
  {
  }

  predicate NamesDistinct(ops: seq<Operand>) {
    forall i, j :: 0 <= i < j < |ops| ==> ops[i].name != ops[j].name
  }

  /** Adding operands keeps the names distinct and keeps what was there, in front. */
  lemma {:induction false} AddOperandsDistinct(vec: seq<StringPair>, help: seq<StringPair>, ops: seq<Operand>, isDef: bool, records: map<string, TypeRecord>)
    requires KnownTypes(vec, records) && NamesDistinct(ops)
    ensures NamesDistinct(AddOperands(vec, help, ops, isDef, records))
    ensures |ops| <= |AddOperands(vec, help, ops, isDef, records)|
    ensures AddOperands(vec, help, ops, isDef, records)[..|ops|] == ops
    decreases |vec|
  {
    if vec != [] {
      AddOperandsDistinct(vec[..|vec| - 1], help, ops, isDef, records);
      var prev := AddOperands(vec[..|vec| - 1], help, ops, isDef, records);
      if !HasName(prev, vec[|vec| - 1].1) {
        var r := prev + [MakeOperand(vec[|vec| - 1], help, isDef, records)];
        assert r[..|ops|] == prev[..|ops|];
      }
    }
  }

  /**
   * The first occurrence of a name wins: a pair whose name is not among the
   * existing operands nor earlier in the list becomes an operand, and every
   * added operand comes from such a first occurrence.
   */
  lemma {:induction false} FirstOccurrenceWins(vec: seq<StringPair>, help: seq<StringPair>, ops: seq<Operand>, isDef: bool, records: map<string, TypeRecord>)
    requires KnownTypes(vec, records)
    ensures forall k :: 0 <= k < |vec| && !HasName(ops, vec[k].1) && (forall k' :: 0 <= k' < k ==> vec[k'].1 != vec[k].1) ==>
      MakeOperand(vec[k], help, isDef, records) in AddOperands(vec, help, ops, isDef, records)
    ensures forall op :: op in AddOperands(vec, help, ops, isDef, records) ==>
      op in ops || exists k :: 0 <= k < |vec| && op == MakeOperand(vec[k], help, isDef, records)
    decreases |vec|
  {
    if vec != [] {
      var init := vec[..|vec| - 1];
      FirstOccurrenceWins(init, help, ops, isDef, records);
      var prev := AddOperands(init, help, ops, isDef, records);
      var res := AddOperands(vec, help, ops, isDef, records);
      var last := vec[|vec| - 1];
      assert forall op :: op in prev ==> op in res;
      forall k | 0 <= k < |vec| && !HasName(ops, vec[k].1) && (forall k' :: 0 <= k' < k ==> vec[k'].1 != vec[k].1)
        ensures MakeOperand(vec[k], help, isDef, records) in res
      {
        if k < |vec| - 1 {
          assert init[k] == vec[k];
          assert MakeOperand(init[k], help, isDef, records) in prev;
        } else if HasName(prev, last.1) {
          NameComesFrom(init, help, ops, isDef, records, last.1);
          assert false;
        }
      }
      forall op | op in res
        ensures op in ops || exists k :: 0 <= k < |vec| && op == MakeOperand(vec[k], help, isDef, records)
      {
        if op in prev {
          if !(op in ops) {
            var k :| 0 <= k < |init| && op == MakeOperand(init[k], help, isDef, records);
            assert init[k] == vec[k];
          }
        } else {
          assert op == MakeOperand(vec[|vec| - 1], help, isDef, records);
        }
      }
    }
  }

  /** A name present after adding is a name that was there or that the list brought. */
  lemma {:induction false} NameComesFrom(vec: seq<StringPair>, help: seq<StringPair>, ops: seq<Operand>, isDef: bool, records: map<string, TypeRecord>, name: string)
    requires KnownTypes(vec, records)
    requires HasName(AddOperands(vec, help, ops, isDef, records), name)
    ensures HasName(ops, name) || exists k :: 0 <= k < |vec| && vec[k].1 == name
    decreases |vec|
  {
    if vec != [] {
      var init := vec[..|vec| - 1];
      var prev := AddOperands(init, help, ops, isDef, records);
      if HasName(prev, name) {
        NameComesFrom(init, help, ops, isDef, records, name);
        if !HasName(ops, name) {
          var k :| 0 <= k < |init| && init[k].1 == name;
          assert vec[k].1 == name;
        }
      } else {
        var i :| 0 <= i < |AddOperands(vec, help, ops, isDef, records)| && AddOperands(vec, help, ops, isDef, records)[i].name == name;
        assert i == |prev|;
        assert vec[|vec| - 1].1 == name;
      }
    }
  }

  /** `getOperands` lists every output operand before every input operand, with pairwise distinct names. */
  lemma OperandsOrder(outs: seq<StringPair>, ins: seq<StringPair>, records: map<string, TypeRecord>)
    requires KnownTypes(outs, records) && KnownTypes(ins, records)
    ensures var defs := AddOperands(outs, ins, [], true, records);
      |defs| <= |Operands(outs, ins, records)| && Operands(outs, ins, records)[..|defs|] == defs
    ensures NamesDistinct(Operands(outs, ins, records))
  {
    var defs := AddOperands(outs, ins, [], true, records);
    AddOperandsDistinct(outs, ins, [], true, records);
    AddOperandsDistinct(ins, outs, defs, false, records);
  }
  /** `getRecordBool`: the bit's value, or the default when it is unset (`?`). */
  function GetRecordBool(bit: Option<bool>, def: bool): bool {
    match bit
    case None => def
    case Some(b) => b
  }

  /** An instruction definition as the generator reads it; `fields` are the fields it has. */
  datatype Record = Record(
    name: string,
    fields: set<string>,
    isCall: Option<bool>,
    isBranch: Option<bool>,
    isReturn: Option<bool>,
    mayLoad: Option<bool>,
    mayStore: Option<bool>,
    constraints: string,
    outOperandList: seq<DagArg>,
    inOperandList: seq<DagArg>,
    size: int,
    itinerary: string,
    uses: seq<string>,
    defs: seq<string>)

  /** `getRecordType`. */
  function RecordType(rec: Record): string {
    if GetRecordBool(rec.isCall, false) then "call"
    else if GetRecordBool(rec.isBranch, false) || GetRecordBool(rec.isReturn, false) then "branch"
    else "linear"
  }

  /** The fields a record must have to be read as an instruction. */
  const NeededFields: set<string> := {"isCall", "isBranch", "Constraints", "OutOperandList", "InOperandList", "Size",
    "mayLoad", "mayStore", "Itinerary", "isReturn", "Uses", "Defs"}

  /** `checkIfAllNeededFieldsExist`. */
  predicate Complete(rec: Record) {
    NeededFields <= rec.fields
  }

  /** Escapes every name of a register list (`getRegisterList`). */
  function EscapeAll(names: seq<string>): seq<string> {
    seq(|names|, i requires 0 <= i < |names| => Escape(names[i]))
  }

  /** The operand types of a record all name records of the table. */
  predicate TypesKnown(rec: Record, records: map<string, TypeRecord>) {
    KnownTypes(ParsedOperands(rec.outOperandList), records) && KnownTypes(ParsedOperands(rec.inOperandList), records)
  }

  lemma ExecutedKeepsTypes(outs: seq<StringPair>, cons: string)
    requires ExecutedConstraints(outs, cons).Some?
    ensures |ExecutedConstraints(outs, cons).value| == |outs|
    ensures forall i :: 0 <= i < |outs| ==> ExecutedConstraints(outs, cons).value[i].0 == outs[i].0
  {
    if |cons| != 0 {
      ConstraintsKeepTypes(outs, Split(cons, ','));
    }
  }

  /**
   * The instruction the generator makes of a complete record; `None` when
   * its constraint string stops the generator.
   */
  function ToInstruction(rec: Record, records: map<string, TypeRecord>): Option<Instruction>
    requires TypesKnown(rec, records)
  {
    var outs := ParsedOperands(rec.outOperandList);
    var ins := ParsedOperands(rec.inOperandList);
    match ExecutedConstraints(outs, rec.constraints)
    case None => None
    case Some(outs1) =>
      ExecutedKeepsTypes(outs, rec.constraints);
      Some(Instruction(rec.name, RecordType(rec), Operands(outs1, ins, records), Names(ins), Names(outs1), rec.size,
        GetRecordBool(rec.mayStore, false), GetRecordBool(rec.mayLoad, false), EscapeAll(rec.defs), EscapeAll(rec.uses),
        rec.itinerary))
  }

  predicate AllTypesKnown(recs: seq<Record>, records: map<string, TypeRecord>) {
    forall k :: 0 <= k < |recs| && Complete(recs[k]) ==> TypesKnown(recs[k], records)
  }

  /** The instructions of the complete records, in order; `None` when one of them stops the generator. */
  function Instructions(recs: seq<Record>, records: map<string, TypeRecord>): Option<seq<Instruction>>
    requires AllTypesKnown(recs, records)
  {
    if recs == [] then Some([])
    else
      var rec := recs[|recs| - 1];
      match Instructions(recs[..|recs| - 1], records)
      case None => None
      case Some(insts) =>
        if !Complete(rec) then Some(insts)
        else
          match ToInstruction(rec, records)
          case None => None
          case Some(inst) => Some(insts + [inst])
  }

  /** The header `printYaml` writes before the instructions. */
  function YamlHeaderOnto(out: string): string {
    out + "---\ninstruction-set:\n\n" + (Spaces(3) + "- group: " + "allInstructions" + "\n") + (Spaces(5) + "instructions:" + "\n\n")
  }

  /** `printYaml`: the header, then every instruction. */
  function YamlOnto(out: string, insts: seq<Instruction>): string {
    if insts == [] then YamlHeaderOnto(out) else PrintedOnto(YamlOnto(out, insts[..|insts| - 1]), insts[|insts| - 1])
  }

  method GetNames(list: seq<StringPair>) returns (names: seq<string>)
    ensures names == Names(list)
  {
    names := [];
    for i := 0 to |list|
      invariant names == Names(list[..i])
    {
      names := names + [list[i].1];
    }
    assert list[..|list|] == list;
  }

  method GetRegisterList(list: seq<string>) returns (regs: seq<string>)
    ensures regs == EscapeAll(list)
  {
    regs := [];
    for i := 0 to |list|
      invariant regs == EscapeAll(list[..i])
    {
      regs := regs + [Escape(list[i])];
    }
    assert list[..|list|] == list;
  }

  /** The body of the loop of `printUnisonFile` for a complete record. */
  method BuildInstruction(rec: Record, records: map<string, TypeRecord>) returns (r: Option<Instruction>)
    requires TypesKnown(rec, records)
    ensures r == ToInstruction(rec, records)
  {
    var outList := ParseOperands(rec.outOperandList);
    var inList := ParseOperands(rec.inOperandList);
    var executed := ExecuteConstraints(outList, rec.constraints);
    if executed.None? {
      return None;
    }
    outList := executed.value;
    ExecutedKeepsTypes(ParsedOperands(rec.outOperandList), rec.constraints);
    var uses := GetNames(inList);
    var defs := GetNames(outList);
    var operands := GetOperands(outList, inList, records);
    var affectsReg := GetRegisterList(rec.defs);
    var affectedReg := GetRegisterList(rec.uses);
    r := Some(Instruction(rec.name, RecordType(rec), operands, uses, defs, rec.size,
      GetRecordBool(rec.mayStore, false), GetRecordBool(rec.mayLoad, false), affectsReg, affectedReg, rec.itinerary));
  }

  method PrintYaml(insts: seq<Instruction>, os: OutStream)
    modifies os
    ensures os.text == YamlOnto(old(os.text), insts)
  {
    os.text := os.text + "---\ninstruction-set:\n\n";
    os.text := os.text + (Spaces(3) + "- group: " + "allInstructions" + "\n");
    os.text := os.text + (Spaces(5) + "instructions:" + "\n\n");
    ghost var t0 := old(os.text);
    for i := 0 to |insts|
      invariant os.text == YamlOnto(t0, insts[..i])
    {
      assert insts[..i + 1][..i] == insts[..i];
      PrintAll(insts[i], os);
    }
    assert insts[..|insts|] == insts;
  }

  /**
   * `printUnisonFile`: every complete record becomes an instruction, in the
   * order `getDefs()` lists them (`recs` here: name order, since the records
   * are kept in a `std::map` keyed by name), and the whole document is
   * printed once all are built.
   * A record whose constraints stop the generator leaves nothing printed.
   */
  method PrintUnisonFile(recs: seq<Record>, records: map<string, TypeRecord>, os: OutStream) returns (ok: bool)
    requires AllTypesKnown(recs, records)
    modifies os
    ensures ok <==> Instructions(recs, records).Some?
    ensures ok ==> os.text == YamlOnto(old(os.text), Instructions(recs, records).value)
    ensures !ok ==> os.text == old(os.text)
  {
    var instructions: seq<Instruction> := [];
    for k := 0 to |recs|
      invariant Instructions(recs[..k], records) == Some(instructions)
      invariant os.text == old(os.text)
    {
      assert recs[..k + 1][..k] == recs[..k];
      if !Complete(recs[k]) {
        continue;
      }
      var inst := BuildInstruction(recs[k], records);
      if inst.None? {
        InstructionsAbort(recs, records, k + 1);
        return false;
      }
      instructions := instructions + [inst.value];
    }
    assert recs[..|recs|] == recs;
    PrintYaml(instructions, os);
    return true;
  }

  lemma {:induction false} InstructionsAbort(recs: seq<Record>, records: map<string, TypeRecord>, k: nat)
    requires AllTypesKnown(recs, records) && k <= |recs|
    requires AllTypesKnown(recs[..k], records) && Instructions(recs[..k], records) == None
    ensures Instructions(recs, records) == None
    decreases |recs| - k
  {
    if k < |recs| {
      assert recs[..k + 1][..k] == recs[..k];
      InstructionsAbort(recs, records, k + 1);
    } else {
      assert recs[..k] == recs;
    }
  }
  /**
   * An instruction is a call when `isCall` is set, otherwise a branch when
   * `isBranch` or `isReturn` is set, otherwise linear; unset bits count as
   * false.
   */
  lemma RecordTypeCases(rec: Record)
    ensures RecordType(rec) in {"call", "branch", "linear"}
    ensures RecordType(rec) == "call" <==> rec.isCall == Some(true)
    ensures RecordType(rec) == "branch" <==> rec.isCall != Some(true) && (rec.isBranch == Some(true) || rec.isReturn == Some(true))
    ensures RecordType(rec) == "linear" <==> rec.isCall != Some(true) && rec.isBranch != Some(true) && rec.isReturn != Some(true)
  {
  }

  function CompleteNames(recs: seq<Record>): seq<string> {
    if recs == [] then []
    else CompleteNames(recs[..|recs| - 1]) + (if Complete(recs[|recs| - 1]) then [recs[|recs| - 1].name] else [])
  }

  function Ids(insts: seq<Instruction>): seq<string> {
    if insts == [] then [] else Ids(insts[..|insts| - 1]) + [insts[|insts| - 1].id]
  }

  lemma AllTypesKnownPrefix(recs: seq<Record>, records: map<string, TypeRecord>)
    requires recs != [] && AllTypesKnown(recs, records)
    ensures AllTypesKnown(recs[..|recs| - 1], records)
  {
    var init := recs[..|recs| - 1];
    forall k | 0 <= k < |init| && Complete(init[k])
      ensures TypesKnown(init[k], records)
    {
      assert init[k] == recs[k];
    }
  }

  /** Exactly the complete records become instructions, in the table's order, each named after its record. */
  lemma {:induction false} InstructionsOfCompleteRecords(recs: seq<Record>, records: map<string, TypeRecord>)
    requires AllTypesKnown(recs, records) && Instructions(recs, records).Some?
    ensures Ids(Instructions(recs, records).value) == CompleteNames(recs)
    decreases |recs|
  {
    if recs != [] {
      var init := recs[..|recs| - 1];
      var rec := recs[|recs| - 1];
      AllTypesKnownPrefix(recs, records);
      InstructionsOfCompleteRecords(init, records);
      if Complete(rec) {
        var insts := Instructions(init, records).value;
        var inst := ToInstruction(rec, records).value;
        assert (insts + [inst])[..|insts|] == insts;
      }
    }
  }

  /** A complete record whose operands or constraints stop the generator. */
  predicate Stops(rec: Record, records: map<string, TypeRecord>) {
    Complete(rec) && TypesKnown(rec, records) && ToInstruction(rec, records).None?
  }

  /** The generator stops exactly when one of the complete records cannot be read. */
  lemma {:induction false} InstructionsFailIff(recs: seq<Record>, records: map<string, TypeRecord>)
    requires AllTypesKnown(recs, records)
    ensures Instructions(recs, records).None? <==>
      exists k :: 0 <= k < |recs| && Stops(recs[k], records)
    decreases |recs|
  {
    if recs != [] {
      AllTypesKnownPrefix(recs, records);
      InstructionsFailIff(recs[..|recs| - 1], records);
      InstructionsFailStep(recs, records);
      StopsSnoc(recs, recs[..|recs| - 1], records);
    }
  }

  /** The generator stops on `recs` exactly when it stops on all but the last record or on the last one. */
  lemma InstructionsFailStep(recs: seq<Record>, records: map<string, TypeRecord>)
    requires recs != [] && AllTypesKnown(recs, records) && AllTypesKnown(recs[..|recs| - 1], records)
    ensures Instructions(recs, records).None? <==>
      Instructions(recs[..|recs| - 1], records).None? || Stops(recs[|recs| - 1], records)
  {
  }

  lemma StopsSnoc(recs: seq<Record>, init: seq<Record>, records: map<string, TypeRecord>)
    requires recs != [] && init == recs[..|recs| - 1]
    ensures (exists k :: 0 <= k < |recs| && Stops(recs[k], records)) <==>
      (exists k :: 0 <= k < |init| && Stops(init[k], records)) || Stops(recs[|recs| - 1], records)
  {
    ExistsSnoc(recs, init, r => Stops(r, records));
  }

  /** Some element satisfies `p` exactly when one before the last does or the last one does. */
  lemma ExistsSnoc<T>(xs: seq<T>, init: seq<T>, p: T -> bool)
    requires xs != [] && init == xs[..|xs| - 1]
    ensures (exists k :: 0 <= k < |xs| && p(xs[k])) <==>
      (exists k :: 0 <= k < |init| && p(init[k])) || p(xs[|xs| - 1])
  {
    if exists k :: 0 <= k < |xs| && p(xs[k]) {
      var k :| 0 <= k < |xs| && p(xs[k]);
      if k < |init| {
        assert init[k] == xs[k];
      }
    }
    if exists k :: 0 <= k < |init| && p(init[k]) {
      var k :| 0 <= k < |init| && p(init[k]);
      assert xs[k] == init[k];
    }
  }

  /** The document begins with this header. */
  lemma YamlHeaderText()
    ensures YamlHeaderOnto("") == "---\ninstruction-set:\n\n" + "   - group: allInstructions\n" + "     instructions:\n\n"
  {
    assert Spaces(3) + "- group: " + "allInstructions" + "\n" == "   - group: allInstructions\n";
    assert Spaces(5) + "instructions:" + "\n\n" == "     instructions:\n\n";
    assert "" + "---\ninstruction-set:\n\n" == "---\ninstruction-set:\n\n";
  }

  /**
   * `printYaml` only appends, and what it appends starts with the header;
   * each instruction then starts with a blank line and its id line.
   */
  lemma {:induction false} YamlStartsWithHeader(out: string, insts: seq<Instruction>)
    ensures var h := YamlHeaderOnto(out);
      |h| <= |YamlOnto(out, insts)| && YamlOnto(out, insts)[..|h|] == h
    ensures |out| <= |YamlOnto(out, insts)| && YamlOnto(out, insts)[..|out|] == out
    decreases |insts|
  {
    var h := YamlHeaderOnto(out);
    if insts != [] {
      var prev := YamlOnto(out, insts[..|insts| - 1]);
      YamlStartsWithHeader(out, insts[..|insts| - 1]);
      PrintAllExtends(prev, insts[|insts| - 1]);
      var r := YamlOnto(out, insts);
      assert r == PrintedOnto(prev, insts[|insts| - 1]);
      PrefixTrans(h, prev, r);
      PrefixTrans(out, prev, r);
    } else {
      assert h[..|out|] == out;
    }
  }

  /** The instruction a record becomes: its operands have distinct names, outputs first, and its lists follow the operand lists. */
  lemma InstructionOfRecord(rec: Record, records: map<string, TypeRecord>)
    requires TypesKnown(rec, records) && ToInstruction(rec, records).Some?
    ensures var inst := ToInstruction(rec, records).value;
      inst.id == rec.name &&
      NamesDistinct(inst.operands) &&
      |inst.defs| == |ParsedOperands(rec.outOperandList)| &&
      inst.uses == Names(ParsedOperands(rec.inOperandList)) &&
      inst.affectsMem == (rec.mayStore == Some(true)) && inst.affectedMem == (rec.mayLoad == Some(true)) &&
      |inst.affectsReg| == |rec.defs| && |inst.affectedReg| == |rec.uses|
  {
    var outs := ParsedOperands(rec.outOperandList);
    var ins := ParsedOperands(rec.inOperandList);
    var outs1 := ExecutedConstraints(outs, rec.constraints).value;
    ExecutedKeepsTypes(outs, rec.constraints);
    OperandsOrder(outs1, ins, records);
  }
}
