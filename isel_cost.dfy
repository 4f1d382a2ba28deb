/**
 * The pass that reports the cost of instruction selection under Unison's
 * cost model: the sum of the encoded sizes of the instructions the block
 * iterator visits, printed as the one-line JSON object `{"size": N}`. The
 * pass changes nothing.
 */
module ISelCost {

  import opened Strings
  import opened MachineIR

  /** Contribution of one instruction: its size when the iterator visits it. */
  function VisitedSize(mi: MachineInstr): nat {
    if TopLevel(mi) then mi.size else 0
  }

  /** Sum of the visited sizes of a block, accumulated front to back. */
  function BlockSize(block: MachineBasicBlock): nat {
    if block == [] then 0 else BlockSize(block[..|block| - 1]) + VisitedSize(block[|block| - 1])
  }

  /** Sum of the block sizes of a function, block by block. */
  function FunctionSize(blocks: seq<MachineBasicBlock>): nat {
    if blocks == [] then 0 else FunctionSize(blocks[..|blocks| - 1]) + BlockSize(blocks[|blocks| - 1])
  }

  /** The line the pass writes to the error stream. */
  function SizeReport(size: int): (r: string)
    ensures StartsWith(r, "{\"size\": ")
    ensures r[|r| - 2..] == "}\n"
  {
    "{\"size\": " + IntToString(size) + "}\n"
  }

  /**
   * `ISelCost::runOnMachineFunction`: the nested walk over blocks and their
   * visited instructions; reports the report line and that nothing changed.
   */
  method RunOnMachineFunction(mf: MachineFunction) returns (changed: bool, report: string)
    ensures !changed
    ensures report == SizeReport(FunctionSize(mf.blocks))
  {
    var size := 0;
    var b := 0;
    while b < |mf.blocks|
      invariant 0 <= b <= |mf.blocks|
      invariant size == FunctionSize(mf.blocks[..b])
    {
      var block := mf.blocks[b];
      var i := 0;
      while i < |block|
        invariant 0 <= i <= |block|
        invariant size == FunctionSize(mf.blocks[..b]) + BlockSize(block[..i])
      {
        if TopLevel(block[i]) {
          size := size + block[i].size;
        }
        assert block[..i + 1][..i] == block[..i];
        i := i + 1;
      }
      assert block[..i] == block;
      assert mf.blocks[..b + 1][..b] == mf.blocks[..b];
      b := b + 1;
    }
    assert mf.blocks[..b] == mf.blocks;
    report := SizeReport(size);
    changed := false;
  }

  /** The size of a block is additive over any split of the block. */
  lemma {:induction false} BlockSizeAppend(a: MachineBasicBlock, c: MachineBasicBlock)
    ensures BlockSize(a + c) == BlockSize(a) + BlockSize(c)
    decreases |c|
  {
    if c == [] {
      assert a + c == a;
    } else {
      var c' := c[..|c| - 1];
      assert (a + c)[..|a + c| - 1] == a + c';
      BlockSizeAppend(a, c');
    }
  }

  /** The size of a function is additive over any split of its block list. */
  lemma {:induction false} FunctionSizeAppend(a: seq<MachineBasicBlock>, c: seq<MachineBasicBlock>)
    ensures FunctionSize(a + c) == FunctionSize(a) + FunctionSize(c)
    decreases |c|
  {
    if c == [] {
      assert a + c == a;
    } else {
      var c' := c[..|c| - 1];
      assert (a + c)[..|a + c| - 1] == a + c';
      FunctionSizeAppend(a, c');
    }
  }

  /** Taking one instruction out of a block removes exactly its visited size. */
  lemma BlockSizeRemove(block: MachineBasicBlock, i: nat)
    requires i < |block|
    ensures BlockSize(block) == BlockSize(block[..i] + block[i + 1..]) + VisitedSize(block[i])
  {
    SplitAt(block, i);
    BlockSizeSplit(block[..i], block[i], block[i + 1..]);
  }

  lemma SplitAt(block: MachineBasicBlock, i: nat)
    requires i < |block|
    ensures block == block[..i] + ([block[i]] + block[i + 1..])
  {
    assert block[i..] == [block[i]] + block[i + 1..];
    assert block == block[..i] + block[i..];
  }

  lemma BlockSizeSplit(left: MachineBasicBlock, x: MachineInstr, right: MachineBasicBlock)
    ensures BlockSize(left + ([x] + right)) == BlockSize(left + right) + VisitedSize(x)
  {
    BlockSizeAppend(left, [x] + right);
    BlockSizeAppend([x], right);
    BlockSizeSingle(x);
    BlockSizeAppend(left, right);
  }

  lemma BlockSizeSingle(x: MachineInstr)
    ensures BlockSize([x]) == VisitedSize(x)
  {
    assert [x][..0] == [];
  }

  /** Removing the element at `j` removes one occurrence of it. */
  lemma MultisetRemove(c: MachineBasicBlock, j: nat)
    requires j < |c|
    ensures multiset(c[..j] + c[j + 1..]) == multiset(c) - multiset{c[j]}
  {
    assert c == c[..j] + [c[j]] + c[j + 1..];
  }

  /** The size does not depend on the order of the instructions in a block. */
  lemma {:induction false} BlockSizePermutation(a: MachineBasicBlock, c: MachineBasicBlock)
    requires multiset(a) == multiset(c)
    ensures BlockSize(a) == BlockSize(c)
    decreases |a|
  {
    if a != [] {
      var init, last := a[..|a| - 1], a[|a| - 1];
      assert last in multiset(c);
      var j :| 0 <= j < |c| && c[j] == last;
      var c' := c[..j] + c[j + 1..];
      MultisetRemove(c, j);
      MultisetRemove(a, |a| - 1);
      assert a[..|a| - 1] + a[|a| - 1 + 1..] == init;
      BlockSizePermutation(init, c');
      BlockSizeRemove(c, j);
      assert BlockSize(a) == BlockSize(init) + VisitedSize(last);
    } else {
      assert |multiset(c)| == 0;
    }
  }

  /** Instructions inside bundles contribute nothing; only the bundle header's size counts. */
  lemma {:induction false} BlockSizeIgnoresBundled(block: MachineBasicBlock, i: nat, mi: MachineInstr)
    requires i < |block| && !TopLevel(block[i]) && !TopLevel(mi)
    ensures BlockSize(block[i := mi]) == BlockSize(block)
  {
    BlockSizeRemove(block, i);
    BlockSizeRemove(block[i := mi], i);
    assert block[i := mi][..i] + block[i := mi][i + 1..] == block[..i] + block[i + 1..];
  }
}
