/**
 * The Hexagon pass that tells Unison which instructions are constant
 * extended: every instruction the block iterator visits that is not
 * transient and that the target reports as extended or constant extended
 * gets one more operand, the metadata node
 * `!{"unison-property", "constant-extended"}`.
 *
 * The two target queries (`HexagonInstrInfo::isExtended` and
 * `isConstExtended`) are host code; the model takes their disjunction as the
 * parameter `extended`.
 */
module HexagonConstExtension {

  import opened MachineIR
  import CleanUnisonMetadata

  /** The operand the pass attaches. */
  const ConstantExtendedOperand: MachineOperand :=
    MetadataOperand([MDString("unison-property"), MDString("constant-extended")])

  /** The pass marks `mi`: visited, not transient, and extended for the target. */
  predicate Marks(mi: MachineInstr, extended: MachineInstr -> bool) {
    TopLevel(mi) && !mi.isTransient && extended(mi)
  }

  function MarkInstr(mi: MachineInstr, extended: MachineInstr -> bool): MachineInstr {
    if Marks(mi, extended) then AddOperand(mi, ConstantExtendedOperand) else mi
  }

  function MarkBlock(block: MachineBasicBlock, extended: MachineInstr -> bool): (r: MachineBasicBlock)
    ensures |r| == |block|
    ensures forall i :: 0 <= i < |block| ==> r[i] == MarkInstr(block[i], extended)
  {
    seq(|block|, i requires 0 <= i < |block| => MarkInstr(block[i], extended))
  }

  function MarkFunction(blocks: seq<MachineBasicBlock>, extended: MachineInstr -> bool): (r: seq<MachineBasicBlock>)
    ensures |r| == |blocks|
    ensures forall b :: 0 <= b < |blocks| ==> r[b] == MarkBlock(blocks[b], extended)
  {
    seq(|blocks|, b requires 0 <= b < |blocks| => MarkBlock(blocks[b], extended))
  }

  predicate BlockMarksSome(block: MachineBasicBlock, extended: MachineInstr -> bool) {
    exists i :: 0 <= i < |block| && Marks(block[i], extended)
  }

  predicate FunctionMarksSome(blocks: seq<MachineBasicBlock>, extended: MachineInstr -> bool) {
    exists b :: 0 <= b < |blocks| && BlockMarksSome(blocks[b], extended)
  }

  /** Marks one block in a loop and reports whether some instruction was marked. */
  method MarkBlockOperands(block: MachineBasicBlock, extended: MachineInstr -> bool)
    returns (res: MachineBasicBlock, changed: bool)
    ensures res == MarkBlock(block, extended)
    ensures changed <==> BlockMarksSome(block, extended)
  {
    res, changed := block, false;
    for i := 0 to |block|
      invariant |res| == |block|
      invariant forall k :: 0 <= k < i ==> res[k] == MarkInstr(block[k], extended)
      invariant forall k :: i <= k < |block| ==> res[k] == block[k]
      invariant changed <==> exists k :: 0 <= k < i && Marks(block[k], extended)
    {
      if TopLevel(block[i]) && !block[i].isTransient && extended(block[i]) {
        res := res[i := AddOperand(block[i], ConstantExtendedOperand)];
        changed := true;
      }
    }
  }

  /** `HexagonConstExtension::runOnMachineFunction`. */
  method RunOnMachineFunction(mf: MachineFunction, extended: MachineInstr -> bool) returns (changed: bool)
    modifies mf
    ensures mf.blocks == MarkFunction(old(mf.blocks), extended)
    ensures changed <==> FunctionMarksSome(old(mf.blocks), extended)
  {
    changed := false;
    for b := 0 to |mf.blocks|
      invariant |mf.blocks| == |old(mf.blocks)|
      invariant forall k :: 0 <= k < b ==> mf.blocks[k] == MarkBlock(old(mf.blocks)[k], extended)
      invariant forall k :: b <= k < |mf.blocks| ==> mf.blocks[k] == old(mf.blocks)[k]
      invariant changed <==> exists k :: 0 <= k < b && BlockMarksSome(old(mf.blocks)[k], extended)
    {
      var block, blockChanged := MarkBlockOperands(mf.blocks[b], extended);
      mf.blocks := mf.blocks[b := block];
      changed := changed || blockChanged;
    }
  }

  /**
   * A marked instruction keeps its operands and gains the constant-extended
   * property as its last one; an unmarked instruction is untouched; nothing but the operand
   * list ever changes.
   */
  lemma MarkInstrEffect(mi: MachineInstr, extended: MachineInstr -> bool)
    ensures MarkInstr(mi, extended).(operands := mi.operands) == mi
    ensures Marks(mi, extended) ==>
      |MarkInstr(mi, extended).operands| == |mi.operands| + 1 &&
      MarkInstr(mi, extended).operands[..|mi.operands|] == mi.operands &&
      MarkInstr(mi, extended).operands[|mi.operands|] == ConstantExtendedOperand &&
      HasStringKey(MarkInstr(mi, extended).operands[|mi.operands|], "unison-property")
    ensures !Marks(mi, extended) ==> MarkInstr(mi, extended) == mi
  {
  }

  /** The attached operand is one of those the metadata cleaner strips. */
  lemma ConstantExtendedIsUnison()
    ensures CleanUnisonMetadata.IsUnisonMetadata(ConstantExtendedOperand)
  {
    assert "unison-property"[..|"unison"|] == "unison";
  }

  /** Cleaning Unison metadata undoes the marking, instruction by instruction. */
  lemma CleanUndoesMarkInstr(mi: MachineInstr, extended: MachineInstr -> bool)
    ensures CleanUnisonMetadata.CleanInstr(MarkInstr(mi, extended)) == CleanUnisonMetadata.CleanInstr(mi)
  {
    if Marks(mi, extended) {
      ConstantExtendedIsUnison();
      CleanUnisonMetadata.KeepOperandsAppend(mi.operands, [ConstantExtendedOperand]);
      assert CleanUnisonMetadata.KeepOperands([ConstantExtendedOperand]) == [] by {
        assert [ConstantExtendedOperand][1..] == [];
      }
      assert CleanUnisonMetadata.KeepOperands(mi.operands + [ConstantExtendedOperand])
          == CleanUnisonMetadata.KeepOperands(mi.operands);
    }
  }

  /** The metadata cleaner run after this pass yields what it yields without it. */
  lemma CleanUndoesMark(blocks: seq<MachineBasicBlock>, extended: MachineInstr -> bool)
    ensures CleanUnisonMetadata.CleanFunction(MarkFunction(blocks, extended))
         == CleanUnisonMetadata.CleanFunction(blocks)
  {
    forall b | 0 <= b < |blocks|
      ensures CleanUnisonMetadata.CleanBlock(MarkBlock(blocks[b], extended))
           == CleanUnisonMetadata.CleanBlock(blocks[b])
    {
      forall i | 0 <= i < |blocks[b]|
        ensures CleanUnisonMetadata.CleanInstr(MarkInstr(blocks[b][i], extended))
             == CleanUnisonMetadata.CleanInstr(blocks[b][i])
      {
        CleanUndoesMarkInstr(blocks[b][i], extended);
      }
    }
  }

  /** The pass changes the function exactly when it reports a change. */
  lemma MarkFunctionUnchangedIff(blocks: seq<MachineBasicBlock>, extended: MachineInstr -> bool)
    ensures MarkFunction(blocks, extended) == blocks <==> !FunctionMarksSome(blocks, extended)
  {
    if FunctionMarksSome(blocks, extended) {
      var b :| 0 <= b < |blocks| && BlockMarksSome(blocks[b], extended);
      var i :| 0 <= i < |blocks[b]| && Marks(blocks[b][i], extended);
      assert |MarkFunction(blocks, extended)[b][i].operands| == |blocks[b][i].operands| + 1;
    } else {
      forall b | 0 <= b < |blocks|
        ensures MarkBlock(blocks[b], extended) == blocks[b]
      {
        forall i | 0 <= i < |blocks[b]|
          ensures MarkInstr(blocks[b][i], extended) == blocks[b][i]
        {
          assert !Marks(blocks[b][i], extended);
        }
      }
    }
  }
}
