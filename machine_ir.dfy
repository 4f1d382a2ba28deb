/**
 * The machine-level program that the code-generation passes walk: metadata
 * nodes, machine operands, machine instructions with the descriptor flags the
 * passes query, basic blocks and the machine function whose blocks the
 * passes update in place.
 *
 * A block is the sequence of ALL its instructions (what `instr_begin()` ..
 * `instr_end()` visits), including instructions inside bundles. Most passes
 * walk a block with its bundle iterator (`MBB->begin()`, a range `for` over
 * `MBB`), which visits bundle headers and unbundled instructions and skips
 * the instructions inside a bundle: `TopLevel` says which ones it visits.
 */
module MachineIR {

  import opened Strings

  /** One operand of a metadata node. */
  datatype MDOperand =
    | MDString(str: string)
    | MDConstant(value: int)
    | MDOtherNode

  /** A machine operand; the metadata kind carries its node's operands. */
  datatype MachineOperand =
    | RegisterOperand(reg: nat, isDef: bool)
    | ImmediateOperand(imm: int)
    | FrameIndexOperand(index: int)
    | BlockOperand(block: nat)
    | MetadataOperand(node: seq<MDOperand>)
    | OtherOperand

  /**
   * A machine instruction: the opcode's name (`TII->getName`), its operands,
   * the size its descriptor gives (`getDesc().getSize()`) and its flags.
   */
  datatype MachineInstr = MachineInstr(
    name: string,
    operands: seq<MachineOperand>,
    size: nat,
    isBundle: bool,
    isInsideBundle: bool,
    mayLoad: bool,
    mayStore: bool,
    isTransient: bool,
    isCall: bool,
    isCopy: bool,
    isUnconditionalBranch: bool)

  type MachineBasicBlock = seq<MachineInstr>

  /** Visited by a block's bundle iterator. */
  predicate TopLevel(mi: MachineInstr) {
    !mi.isInsideBundle
  }

  /** The instructions of `s` the bundle iterator visits, in order. */
  function Visited(s: seq<MachineInstr>): (r: seq<MachineInstr>)
    ensures |r| <= |s|
  {
    if s == [] then [] else Visited(s[..|s| - 1]) + (if TopLevel(s[|s| - 1]) then [s[|s| - 1]] else [])
  }

  lemma {:induction false} VisitedAppend(a: seq<MachineInstr>, c: seq<MachineInstr>)
    ensures Visited(a + c) == Visited(a) + Visited(c)
    decreases |c|
  {
    if c == [] {
      assert a + c == a;
    } else {
      assert (a + c)[..|a + c| - 1] == a + c[..|c| - 1];
      VisitedAppend(a, c[..|c| - 1]);
    }
  }

  /** `MI.addOperand(MF, Op)`: the operand goes at the end. */
  function AddOperand(mi: MachineInstr, op: MachineOperand): (r: MachineInstr)
    ensures r.operands == mi.operands + [op]
    ensures r.(operands := mi.operands) == mi
  {
    mi.(operands := mi.operands + [op])
  }

  /** The string key of a metadata node: its first operand, when that is a string. */
  predicate HasStringKey(op: MachineOperand, key: string) {
    op.MetadataOperand? && |op.node| >= 1 && op.node[0].MDString? && op.node[0].str == key
  }

  /** The machine function a pass runs on; passes replace its blocks. */
  class MachineFunction {
    const name: string
    var blocks: seq<MachineBasicBlock>

    constructor (name: string, blocks: seq<MachineBasicBlock>)
      ensures this.name == name && this.blocks == blocks
    {
      this.name := name;
      this.blocks := blocks;
    }
  }
}
