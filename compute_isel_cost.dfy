/**
 * Unison's cost of one selected machine instruction: the call-frame pseudo
 * instructions and every instruction with a stack-slot (frame index) operand
 * cost nothing; any other instruction costs the latency the target's
 * scheduling model computes for it. That latency is host code, the model's
 * parameter `latency`.
 */
module ComputeISelCost {

  import opened MachineIR

  /** The two call-frame pseudo instructions, recognised by name. */
  predicate IsCallFramePseudo(name: string) {
    name == "ADJCALLSTACKDOWN" || name == "ADJCALLSTACKUP"
  }

  /** Some operand refers to a stack slot. */
  predicate AccessesStack(ops: seq<MachineOperand>) {
    exists i :: 0 <= i < |ops| && ops[i].FrameIndexOperand?
  }

  /** The cost model as a specification. */
  function InstrCost(mi: MachineInstr, latency: MachineInstr -> nat): nat {
    if IsCallFramePseudo(mi.name) || AccessesStack(mi.operands) then 0 else latency(mi)
  }

  /** `getInstrCost`: the name test, then a scan of the operands that returns early on a frame index. */
  method GetInstrCost(mi: MachineInstr, latency: MachineInstr -> nat) returns (cost: nat)
    ensures cost == InstrCost(mi, latency)
    ensures IsCallFramePseudo(mi.name) ==> cost == 0
    ensures (exists i :: 0 <= i < |mi.operands| && mi.operands[i].FrameIndexOperand?) ==> cost == 0
    ensures !IsCallFramePseudo(mi.name) && (forall i :: 0 <= i < |mi.operands| ==> !mi.operands[i].FrameIndexOperand?)
      ==> cost == latency(mi)
  {
    if mi.name == "ADJCALLSTACKDOWN" || mi.name == "ADJCALLSTACKUP" {
      return 0;
    }
    var op := 0;
    while op < |mi.operands|
      invariant 0 <= op <= |mi.operands|
      invariant forall k :: 0 <= k < op ==> !mi.operands[k].FrameIndexOperand?
    {
      if mi.operands[op].FrameIndexOperand? {
        return 0;
      }
      op := op + 1;
    }
    return latency(mi);
  }

  /** The cost never exceeds the latency, and is zero or the full latency. */
  lemma InstrCostBounds(mi: MachineInstr, latency: MachineInstr -> nat)
    ensures InstrCost(mi, latency) <= latency(mi)
    ensures InstrCost(mi, latency) == 0 || InstrCost(mi, latency) == latency(mi)
  {
  }

  /**
   * Whether an instruction is free depends only on its name and on which
   * operands it has, not on their order.
   */
  lemma {:induction false} FreeIndependentOfOperandOrder(mi: MachineInstr, mj: MachineInstr, latency: MachineInstr -> nat)
    requires mi.name == mj.name && multiset(mi.operands) == multiset(mj.operands)
    requires latency(mi) > 0 && latency(mj) > 0
    ensures InstrCost(mi, latency) == 0 <==> InstrCost(mj, latency) == 0
  {
    if AccessesStack(mi.operands) {
      var i :| 0 <= i < |mi.operands| && mi.operands[i].FrameIndexOperand?;
      assert mi.operands[i] in multiset(mj.operands);
      var j :| 0 <= j < |mj.operands| && mj.operands[j] == mi.operands[i];
      assert AccessesStack(mj.operands);
    }
    if AccessesStack(mj.operands) {
      var j :| 0 <= j < |mj.operands| && mj.operands[j].FrameIndexOperand?;
      assert mj.operands[j] in multiset(mi.operands);
      var i :| 0 <= i < |mi.operands| && mi.operands[i] == mj.operands[j];
      assert AccessesStack(mi.operands);
    }
  }

  /** Annotating an instruction with metadata never makes it free or costly. */
  lemma AddMetadataKeepsFreeness(mi: MachineInstr, node: seq<MDOperand>, latency: MachineInstr -> nat)
    requires latency(mi) > 0 && latency(AddOperand(mi, MetadataOperand(node))) > 0
    ensures InstrCost(AddOperand(mi, MetadataOperand(node)), latency) == 0 <==> InstrCost(mi, latency) == 0
  {
    var mj := AddOperand(mi, MetadataOperand(node));
    if AccessesStack(mj.operands) {
      var j :| 0 <= j < |mj.operands| && mj.operands[j].FrameIndexOperand?;
      assert j < |mi.operands| && mi.operands[j] == mj.operands[j];
    }
    if AccessesStack(mi.operands) {
      var i :| 0 <= i < |mi.operands| && mi.operands[i].FrameIndexOperand?;
      assert mj.operands[i] == mi.operands[i];
    }
  }
}
