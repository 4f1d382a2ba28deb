/**
 * The statistics pass that reports the average number of instructions per
 * bundle, weighted by block frequency.
 *
 * Per block, every instruction (bundled ones included) is counted: a bundle
 * header counts one bundle; once a real bundle header has been seen, an
 * instruction inside a bundle counts one instruction; any other instruction
 * is a singleton bundle and counts one of each (some targets mark lone
 * instructions as inside a bundle, hence the wait for a real header). A
 * block's ratio is instructions / bundles; the reported value sums, over the
 * non-empty blocks, the ratio times the block's share of the total
 * frequency. Block frequencies come from the spill-placement analysis, the
 * parameter `freq` over block numbers. Arithmetic is exact (`real`), where
 * the source uses `double`; a 0/0 share, the source's NaN, is `None`.
 */
module WeightedIPB {

  import opened Wrappers
  import opened MachineIR

  /** The per-block counters of the loop. */
  datatype Tally = Tally(instructions: nat, bundles: nat, realBundles: bool)

  function Step(t: Tally, mi: MachineInstr): Tally {
    if mi.isBundle then Tally(t.instructions, t.bundles + 1, true)
    else if t.realBundles && mi.isInsideBundle then Tally(t.instructions + 1, t.bundles, t.realBundles)
    else Tally(t.instructions + 1, t.bundles + 1, t.realBundles)
  }

  /** The counters after walking a whole block front to back. */
  function CountBlock(block: MachineBasicBlock): Tally {
    if block == [] then Tally(0, 0, false) else Step(CountBlock(block[..|block| - 1]), block[|block| - 1])
  }

  /** Number of bundle headers in a block. */
  function Headers(block: MachineBasicBlock): nat {
    if block == [] then 0 else Headers(block[..|block| - 1]) + (if block[|block| - 1].isBundle then 1 else 0)
  }

  /** The counting loop over all instructions of one block. */
  method CountBlockInstructions(block: MachineBasicBlock) returns (instructions: nat, bundles: nat)
    ensures instructions == CountBlock(block).instructions
    ensures bundles == CountBlock(block).bundles
  {
    instructions, bundles := 0, 0;
    var realBundles := false;
    for i := 0 to |block|
      invariant CountBlock(block[..i]) == Tally(instructions, bundles, realBundles)
    {
      assert block[..i + 1][..i] == block[..i];
      var mi := block[i];
      if mi.isBundle {
        realBundles := true;
        bundles := bundles + 1;
      } else if realBundles && mi.isInsideBundle {
        instructions := instructions + 1;
      } else {
        instructions := instructions + 1;
        bundles := bundles + 1;
      }
    }
    assert block[..|block|] == block;
  }

  /**
   * Every instruction that is not a header counts as an instruction; headers
   * are bundles; real bundles start exactly at the first header; a
   * non-empty block has at least one bundle and no more bundles than
   * instructions in it.
   */
  lemma {:induction false} CountBlockFacts(block: MachineBasicBlock)
    ensures CountBlock(block).instructions + Headers(block) == |block|
    ensures Headers(block) <= CountBlock(block).bundles <= |block|
    ensures CountBlock(block).realBundles <==> Headers(block) > 0
    ensures |block| > 0 ==> CountBlock(block).bundles >= 1
    decreases |block|
  {
    if block != [] {
      CountBlockFacts(block[..|block| - 1]);
    }
  }

  /** Without bundle headers every instruction is its own bundle. */
  lemma {:induction false} UnbundledBlock(block: MachineBasicBlock)
    requires Headers(block) == 0
    ensures CountBlock(block).instructions == CountBlock(block).bundles == |block|
    decreases |block|
  {
    if block != [] {
      var init := block[..|block| - 1];
      assert Headers(init) == 0;
      UnbundledBlock(init);
      CountBlockFacts(init);
    }
  }

  /** The instructions-per-bundle ratio of a non-empty block. */
  function BlockRatio(block: MachineBasicBlock): real
    requires |block| > 0
  {
    CountBlockFacts(block);
    CountBlock(block).instructions as real / CountBlock(block).bundles as real
  }

  /** Sum of the frequencies of blocks 0 .. n-1. */
  function TotalFreq(freq: nat -> nat, n: nat): nat {
    if n == 0 then 0 else TotalFreq(freq, n - 1) + freq(n - 1)
  }

  /** The weighted sum over the first `n` blocks, skipping empty ones. */
  function WeightedUpTo(blocks: seq<MachineBasicBlock>, freq: nat -> nat, total: nat, n: nat): real
    requires total > 0 && n <= |blocks|
  {
    if n == 0 then 0.0
    else
      var share := if |blocks[n - 1]| > 0 then BlockRatio(blocks[n - 1]) * (freq(n - 1) as real / total as real) else 0.0;
      WeightedUpTo(blocks, freq, total, n - 1) + share
  }

  predicate HasNonEmptyBlock(blocks: seq<MachineBasicBlock>) {
    exists b :: 0 <= b < |blocks| && |blocks[b]| > 0
  }

  /** The reported value; `None` when a non-empty block's share is 0/0. */
  function Weighted(blocks: seq<MachineBasicBlock>, freq: nat -> nat): Option<real> {
    var total := TotalFreq(freq, |blocks|);
    if total > 0 then Some(WeightedUpTo(blocks, freq, total, |blocks|))
    else if HasNonEmptyBlock(blocks) then None
    else Some(0.0)
  }

  /** The first loop: each block's ratio (left at zero for an empty block) and the total frequency. */
  method BlockRatios(blocks: seq<MachineBasicBlock>, freq: nat -> nat) returns (ratios: seq<real>, total: nat)
    ensures |ratios| == |blocks| && total == TotalFreq(freq, |blocks|)
    ensures forall b :: 0 <= b < |blocks| && |blocks[b]| > 0 ==> ratios[b] == BlockRatio(blocks[b])
  {
    ratios, total := [], 0;
    for b := 0 to |blocks|
      invariant |ratios| == b && total == TotalFreq(freq, b)
      invariant forall k :: 0 <= k < b && |blocks[k]| > 0 ==> ratios[k] == BlockRatio(blocks[k])
    {
      var instructions, bundles := CountBlockInstructions(blocks[b]);
      var ratio := 0.0;
      if |blocks[b]| > 0 {
        CountBlockFacts(blocks[b]);
        ratio := instructions as real / bundles as real;
      }
      ratios := ratios + [ratio];
      total := total + freq(b);
    }
  }

  /** The second loop: the frequency-weighted sum over the non-empty blocks. */
  method SumShares(blocks: seq<MachineBasicBlock>, freq: nat -> nat, ratios: seq<real>, total: nat) returns (weighted: Option<real>)
    requires |ratios| == |blocks| && total == TotalFreq(freq, |blocks|)
    requires forall b :: 0 <= b < |blocks| && |blocks[b]| > 0 ==> ratios[b] == BlockRatio(blocks[b])
    ensures weighted == Weighted(blocks, freq)
  {
    var sum := 0.0;
    var notANumber := false;
    for b := 0 to |blocks|
      invariant total > 0 ==> sum == WeightedUpTo(blocks, freq, total, b) && !notANumber
      invariant total == 0 ==> sum == 0.0 && (notANumber <==> exists k :: 0 <= k < b && |blocks[k]| > 0)
    {
      if |blocks[b]| > 0 {
        if total == 0 {
          notANumber := true;
        } else {
          sum := sum + ratios[b] * (freq(b) as real / total as real);
        }
      }
    }
    weighted := if notANumber then None else Some(sum);
  }

  /** `WeightedIPB::runOnMachineFunction`: the two loops over the blocks; never changes the function. */
  method RunOnMachineFunction(mf: MachineFunction, freq: nat -> nat) returns (changed: bool, weighted: Option<real>)
    ensures !changed
    ensures weighted == Weighted(mf.blocks, freq)
  {
    var ratios, total := BlockRatios(mf.blocks, freq);
    weighted := SumShares(mf.blocks, freq, ratios, total);
    changed := false;
  }

  /** The weighted sum of ones over blocks 0 .. n-1 is their share of the total. */
  lemma {:induction false} WeightedOfUnbundled(blocks: seq<MachineBasicBlock>, freq: nat -> nat, total: nat, n: nat)
    requires total > 0 && n <= |blocks|
    requires forall b :: 0 <= b < |blocks| ==> |blocks[b]| > 0 && Headers(blocks[b]) == 0
    ensures WeightedUpTo(blocks, freq, total, n) == TotalFreq(freq, n) as real / total as real
    decreases n
  {
    if n > 0 {
      WeightedOfUnbundled(blocks, freq, total, n - 1);
      UnbundledBlock(blocks[n - 1]);
      assert BlockRatio(blocks[n - 1]) == 1.0;
      SharesAdd(TotalFreq(freq, n - 1) as real, freq(n - 1) as real, total as real);
    }
  }

  lemma SharesAdd(a: real, f: real, t: real)
    requires t > 0.0
    ensures a / t + 1.0 * (f / t) == (a + f) / t
  {
  }

  /** Code without bundles, on blocks that are all non-empty, reports exactly one instruction per bundle. */
  lemma UnbundledFunctionWeighsOne(blocks: seq<MachineBasicBlock>, freq: nat -> nat)
    requires forall b :: 0 <= b < |blocks| ==> |blocks[b]| > 0 && Headers(blocks[b]) == 0
    requires TotalFreq(freq, |blocks|) > 0
    ensures Weighted(blocks, freq) == Some(1.0)
  {
    var total := TotalFreq(freq, |blocks|);
    WeightedOfUnbundled(blocks, freq, total, |blocks|);
    DivSelf(total as real);
  }

  lemma DivSelf(x: real)
    requires x > 0.0
    ensures x / x == 1.0
  {
  }
}
