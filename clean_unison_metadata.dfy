/**
 * The pass that strips the metadata operands Unison attached: every metadata
 * operand whose node starts with a string beginning with "unison" is removed
 * from every instruction the block iterator visits, restarting the scan of an
 * instruction's operands after each removal.
 */
module CleanUnisonMetadata {

  import opened Strings
  import opened MachineIR

  /** A metadata operand whose first node operand is a string starting with "unison". */
  predicate IsUnisonMetadata(op: MachineOperand) {
    op.MetadataOperand? && |op.node| >= 1 && op.node[0].MDString? && StartsWith(op.node[0].str, "unison")
  }

  predicate HasUnisonOperand(ops: seq<MachineOperand>) {
    exists i :: 0 <= i < |ops| && IsUnisonMetadata(ops[i])
  }

  /** The operands that are not Unison metadata, in their original order. */
  function KeepOperands(ops: seq<MachineOperand>): (r: seq<MachineOperand>)
    ensures |r| <= |ops|
  {
    if ops == [] then []
    else (if IsUnisonMetadata(ops[0]) then [] else [ops[0]]) + KeepOperands(ops[1..])
  }

  /** The kept operands are exactly the operands of `ops` that are not Unison metadata. */
  lemma {:induction false} KeepOperandsMembers(ops: seq<MachineOperand>)
    ensures forall o :: o in KeepOperands(ops) <==> o in ops && !IsUnisonMetadata(o)
    decreases |ops|
  {
    if ops != [] {
      KeepOperandsMembers(ops[1..]);
      assert ops == [ops[0]] + ops[1..];
    }
  }

  /** Filtering distributes over concatenation, so relative order is kept. */
  lemma {:induction false} KeepOperandsAppend(a: seq<MachineOperand>, b: seq<MachineOperand>)
    ensures KeepOperands(a + b) == KeepOperands(a) + KeepOperands(b)
    decreases |a|
  {
    if a == [] {
      assert a + b == b;
    } else {
      assert (a + b)[0] == a[0];
      assert (a + b)[1..] == a[1..] + b;
      KeepOperandsAppend(a[1..], b);
    }
  }

  /** Removing one Unison operand does not change what the filter keeps. */
  lemma KeepOperandsRemoveAt(ops: seq<MachineOperand>, i: nat)
    requires i < |ops| && IsUnisonMetadata(ops[i])
    ensures KeepOperands(ops[..i] + ops[i + 1..]) == KeepOperands(ops)
  {
    var pre, x, post := ops[..i], ops[i], ops[i + 1..];
    assert ops == pre + ([x] + post);
    KeepOperandsAppend(pre, [x] + post);
    KeepOperandsAppend([x], post);
    assert KeepOperands([x]) == [] by {
      assert [x][1..] == [];
    }
    assert KeepOperands([x] + post) == KeepOperands(post);
    KeepOperandsAppend(pre, post);
  }

  /** Nothing is removed exactly when no operand is Unison metadata. */
  lemma {:induction false} KeepOperandsUnchanged(ops: seq<MachineOperand>)
    ensures KeepOperands(ops) == ops <==> !HasUnisonOperand(ops)
    decreases |ops|
  {
    if ops != [] {
      KeepOperandsUnchanged(ops[1..]);
      if IsUnisonMetadata(ops[0]) {
        assert |KeepOperands(ops)| < |ops|;
      } else if HasUnisonOperand(ops[1..]) {
        var i :| 0 <= i < |ops[1..]| && IsUnisonMetadata(ops[1..][i]);
        assert IsUnisonMetadata(ops[i + 1]);
      }
      if HasUnisonOperand(ops) && !IsUnisonMetadata(ops[0]) {
        var i :| 0 <= i < |ops| && IsUnisonMetadata(ops[i]);
        assert IsUnisonMetadata(ops[1..][i - 1]);
      }
    }
  }

  /**
   * The restart scan on one instruction's operand list: find the first Unison
   * operand, remove it, rescan from the start; stop when a scan finds none.
   */
  method CleanOperands(ops: seq<MachineOperand>) returns (res: seq<MachineOperand>, removedAny: bool)
    ensures res == KeepOperands(ops)
    ensures !HasUnisonOperand(res)
    ensures removedAny <==> HasUnisonOperand(ops)
  {
    res, removedAny := ops, false;
    while true
      invariant KeepOperands(res) == KeepOperands(ops)
      invariant |res| <= |ops|
      invariant removedAny <==> |res| < |ops|
      invariant !removedAny ==> res == ops
      decreases |res|
    {
      var i := 0;
      while i < |res| && !IsUnisonMetadata(res[i])
        invariant 0 <= i <= |res|
        invariant forall k :: 0 <= k < i ==> !IsUnisonMetadata(res[k])
      {
        i := i + 1;
      }
      if i == |res| {
        break;
      }
      KeepOperandsRemoveAt(res, i);
      res := res[..i] + res[i + 1..];
      removedAny := true;
    }
    KeepOperandsUnchanged(res);
    KeepOperandsUnchanged(ops);
  }

  /** What the pass does to one instruction: only those the block iterator visits are cleaned. */
  function CleanInstr(mi: MachineInstr): MachineInstr {
    if TopLevel(mi) then mi.(operands := KeepOperands(mi.operands)) else mi
  }

  function CleanBlock(block: MachineBasicBlock): (r: MachineBasicBlock)
    ensures |r| == |block|
    ensures forall i :: 0 <= i < |block| ==> r[i] == CleanInstr(block[i])
  {
    seq(|block|, i requires 0 <= i < |block| => CleanInstr(block[i]))
  }

  function CleanFunction(blocks: seq<MachineBasicBlock>): (r: seq<MachineBasicBlock>)
    ensures |r| == |blocks|
    ensures forall b :: 0 <= b < |blocks| ==> r[b] == CleanBlock(blocks[b])
  {
    seq(|blocks|, b requires 0 <= b < |blocks| => CleanBlock(blocks[b]))
  }

  predicate InstrHasUnison(mi: MachineInstr) {
    TopLevel(mi) && HasUnisonOperand(mi.operands)
  }

  predicate BlockHasUnison(block: MachineBasicBlock) {
    exists i :: 0 <= i < |block| && InstrHasUnison(block[i])
  }

  predicate FunctionHasUnison(blocks: seq<MachineBasicBlock>) {
    exists b :: 0 <= b < |blocks| && BlockHasUnison(blocks[b])
  }

  /** Cleans one block, instruction by instruction, and reports whether anything was removed. */
  method CleanBlockOperands(block: MachineBasicBlock) returns (res: MachineBasicBlock, changed: bool)
    ensures res == CleanBlock(block)
    ensures changed <==> BlockHasUnison(block)
  {
    res, changed := block, false;
    for i := 0 to |block|
      invariant |res| == |block|
      invariant forall k :: 0 <= k < i ==> res[k] == CleanInstr(block[k])
      invariant forall k :: i <= k < |block| ==> res[k] == block[k]
      invariant changed <==> exists k :: 0 <= k < i && InstrHasUnison(block[k])
    {
      if TopLevel(block[i]) {
        var ops, removed := CleanOperands(block[i].operands);
        res := res[i := block[i].(operands := ops)];
        changed := changed || removed;
      }
    }
  }

  /**
   * `CleanUnisonMetadata::runOnMachineFunction`: no block or instruction is
   * added, removed or reordered; only operands are dropped.
   */
  method RunOnMachineFunction(mf: MachineFunction) returns (changed: bool)
    modifies mf
    ensures mf.blocks == CleanFunction(old(mf.blocks))
    ensures changed <==> FunctionHasUnison(old(mf.blocks))
  {
    changed := false;
    for b := 0 to |mf.blocks|
      invariant |mf.blocks| == |old(mf.blocks)|
      invariant forall k :: 0 <= k < b ==> mf.blocks[k] == CleanBlock(old(mf.blocks)[k])
      invariant forall k :: b <= k < |mf.blocks| ==> mf.blocks[k] == old(mf.blocks)[k]
      invariant changed <==> exists k :: 0 <= k < b && BlockHasUnison(old(mf.blocks)[k])
    {
      var block, blockChanged := CleanBlockOperands(mf.blocks[b]);
      mf.blocks := mf.blocks[b := block];
      changed := changed || blockChanged;
    }
  }

  /** After the pass no visited instruction carries Unison metadata. */
  lemma NoUnisonLeft(blocks: seq<MachineBasicBlock>)
    ensures !FunctionHasUnison(CleanFunction(blocks))
  {
    forall b, i | 0 <= b < |blocks| && 0 <= i < |blocks[b]|
      ensures !InstrHasUnison(CleanFunction(blocks)[b][i])
    {
      var mi := blocks[b][i];
      if TopLevel(mi) {
        KeepOperandsIdempotent(mi.operands);
        KeepOperandsUnchanged(KeepOperands(mi.operands));
      }
    }
  }

  lemma {:induction false} KeepOperandsIdempotent(ops: seq<MachineOperand>)
    ensures KeepOperands(KeepOperands(ops)) == KeepOperands(ops)
    decreases |ops|
  {
    if ops != [] {
      KeepOperandsIdempotent(ops[1..]);
      var head := if IsUnisonMetadata(ops[0]) then [] else [ops[0]];
      KeepOperandsAppend(head, KeepOperands(ops[1..]));
    }
  }

  /** Running the pass a second time changes nothing (and so reports no change). */
  lemma CleanFunctionIdempotent(blocks: seq<MachineBasicBlock>)
    ensures CleanFunction(CleanFunction(blocks)) == CleanFunction(blocks)
  {
    forall b | 0 <= b < |blocks|
      ensures CleanBlock(CleanBlock(blocks[b])) == CleanBlock(blocks[b])
    {
      forall i | 0 <= i < |blocks[b]|
        ensures CleanInstr(CleanInstr(blocks[b][i])) == CleanInstr(blocks[b][i])
      {
        KeepOperandsIdempotent(blocks[b][i].operands);
      }
    }
  }

  /** The pass leaves a function unchanged exactly when it reports no change. */
  lemma CleanFunctionUnchangedIff(blocks: seq<MachineBasicBlock>)
    ensures CleanFunction(blocks) == blocks <==> !FunctionHasUnison(blocks)
  {
    if FunctionHasUnison(blocks) {
      var b :| 0 <= b < |blocks| && BlockHasUnison(blocks[b]);
      var i :| 0 <= i < |blocks[b]| && InstrHasUnison(blocks[b][i]);
      var mi := blocks[b][i];
      KeepOperandsUnchanged(mi.operands);
      assert KeepOperands(mi.operands) != mi.operands;
      assert CleanInstr(mi).operands != mi.operands;
      assert CleanFunction(blocks)[b][i] != blocks[b][i];
    } else {
      forall b | 0 <= b < |blocks|
        ensures CleanBlock(blocks[b]) == blocks[b]
      {
        forall i | 0 <= i < |blocks[b]|
          ensures CleanInstr(blocks[b][i]) == blocks[b][i]
        {
          if TopLevel(blocks[b][i]) {
            assert !InstrHasUnison(blocks[b][i]);
            KeepOperandsUnchanged(blocks[b][i].operands);
          }
        }
      }
    }
  }
}
