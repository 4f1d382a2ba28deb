/**
 * The statistics pass that counts, at a chosen point of the pipeline (before
 * or after register allocation), the basic blocks, the machine instructions,
 * the register definitions, the copies and calls, and the largest block of a
 * function; before register allocation it also counts the register classes
 * of the distinct virtual registers and summarises their class weights.
 *
 * Blocks are walked with the bundle iterator, so the instructions counted are
 * the ones `Visited` keeps. Whether a register is virtual, its register
 * class and that class's weight are target information, given as the
 * parameters `isVirtual`, `regClass` and `classWeight`. The statistics are
 * process-wide counters; here they are the fields of a `Statistics` object
 * that the pass updates.
 */
module MachineCodeStats {

  import opened Wrappers
  import opened MachineIR

  datatype StatsPoint = PreRA | PostRA

  /** The counters of one stats point. */
  datatype Counters = Counters(
    basicBlocks: nat,
    machineInsts: nat,
    virtualRegs: nat,
    maxBlockInsts: nat,
    copyInsts: nat,
    callInsts: nat)

  /** What a walk over instructions adds up. */
  datatype Tally = Tally(insts: nat, defs: nat, copies: nat, calls: nat)

  const NoTally := Tally(0, 0, 0, 0)

  function Plus(a: Tally, b: Tally): Tally {
    Tally(a.insts + b.insts, a.defs + b.defs, a.copies + b.copies, a.calls + b.calls)
  }

  predicate IsRegisterDef(op: MachineOperand) {
    op.RegisterOperand? && op.isDef
  }

  /** Number of register-definition operands, physical and virtual alike. */
  function DefCount(ops: seq<MachineOperand>): nat {
    if ops == [] then 0 else DefCount(ops[..|ops| - 1]) + (if IsRegisterDef(ops[|ops| - 1]) then 1 else 0)
  }

  /** One visited instruction's contribution. */
  function InstrTally(mi: MachineInstr): Tally {
    Tally(1, DefCount(mi.operands), if mi.isCopy then 1 else 0, if mi.isCall then 1 else 0)
  }

  /** The tally of the instructions the bundle iterator visits in a block. */
  function BlockTally(block: MachineBasicBlock): Tally {
    if block == [] then NoTally
    else
      var t := BlockTally(block[..|block| - 1]);
      if TopLevel(block[|block| - 1]) then Plus(t, InstrTally(block[|block| - 1])) else t
  }

  function FunctionTally(blocks: seq<MachineBasicBlock>): Tally {
    if blocks == [] then NoTally else Plus(FunctionTally(blocks[..|blocks| - 1]), BlockTally(blocks[|blocks| - 1]))
  }

  function Max(a: nat, b: nat): nat {
    if a < b then b else a
  }

  /** The running maximum of the block instruction counts, starting from 0. */
  function MaxBlockInsts(blocks: seq<MachineBasicBlock>): nat {
    if blocks == [] then 0 else Max(MaxBlockInsts(blocks[..|blocks| - 1]), BlockTally(blocks[|blocks| - 1]).insts)
  }

  /** The virtual registers among the register operands. */
  function OperandVirtualRegs(ops: seq<MachineOperand>, isVirtual: nat -> bool): set<nat> {
    if ops == [] then {}
    else
      var op := ops[|ops| - 1];
      OperandVirtualRegs(ops[..|ops| - 1], isVirtual) + (if op.RegisterOperand? && isVirtual(op.reg) then {op.reg} else {})
  }

  function BlockVirtualRegs(block: MachineBasicBlock, isVirtual: nat -> bool): set<nat> {
    if block == [] then {}
    else
      var mi := block[|block| - 1];
      BlockVirtualRegs(block[..|block| - 1], isVirtual) + (if TopLevel(mi) then OperandVirtualRegs(mi.operands, isVirtual) else {})
  }

  /** The distinct virtual registers a function's visited instructions mention. */
  function FunctionVirtualRegs(blocks: seq<MachineBasicBlock>, isVirtual: nat -> bool): set<nat> {
    if blocks == [] then {}
    else FunctionVirtualRegs(blocks[..|blocks| - 1], isVirtual) + BlockVirtualRegs(blocks[|blocks| - 1], isVirtual)
  }

  /** The distinct register classes of a set of registers. */
  function RegClasses(vregs: set<nat>, regClass: nat -> nat): set<nat> {
    set r | r in vregs :: regClass(r)
  }

  /**
   * A stats point's counters after one run over `blocks`: every counter
   * accumulates except the largest block, which is overwritten.
   */
  function Record(c: Counters, blocks: seq<MachineBasicBlock>): Counters {
    var t := FunctionTally(blocks);
    Counters(c.basicBlocks + |blocks|, c.machineInsts + t.insts, c.virtualRegs + t.defs,
             MaxBlockInsts(blocks), c.copyInsts + t.copies, c.callInsts + t.calls)
  }

  /** The operand loop of one instruction. */
  method CountOperands(ops: seq<MachineOperand>, isVirtual: nat -> bool) returns (defs: nat, vregs: set<nat>)
    ensures defs == DefCount(ops)
    ensures vregs == OperandVirtualRegs(ops, isVirtual)
  {
    defs, vregs := 0, {};
    for k := 0 to |ops|
      invariant defs == DefCount(ops[..k])
      invariant vregs == OperandVirtualRegs(ops[..k], isVirtual)
    {
      assert ops[..k + 1][..k] == ops[..k];
      var op := ops[k];
      if op.RegisterOperand? && op.isDef {
        defs := defs + 1;
      }
      if op.RegisterOperand? && isVirtual(op.reg) {
        vregs := vregs + {op.reg};
      }
    }
    assert ops[..|ops|] == ops;
  }

  /** The instruction loop of one block. */
  method CountBlock(block: MachineBasicBlock, isVirtual: nat -> bool) returns (t: Tally, vregs: set<nat>)
    ensures t == BlockTally(block)
    ensures vregs == BlockVirtualRegs(block, isVirtual)
  {
    t, vregs := NoTally, {};
    for i := 0 to |block|
      invariant t == BlockTally(block[..i])
      invariant vregs == BlockVirtualRegs(block[..i], isVirtual)
    {
      var mi := block[i];
      BlockStep(block, i, isVirtual);
      if TopLevel(mi) {
        var defs, opRegs := CountOperands(mi.operands, isVirtual);
        t := Plus(t, Tally(1, defs, if mi.isCopy then 1 else 0, if mi.isCall then 1 else 0));
        vregs := vregs + opRegs;
      }
    }
    assert block[..|block|] == block;
  }

  /** What one more instruction adds to a block's tally and registers. */
  lemma BlockStep(block: MachineBasicBlock, i: nat, isVirtual: nat -> bool)
    requires i < |block|
    ensures TopLevel(block[i]) ==> BlockTally(block[..i + 1]) == Plus(BlockTally(block[..i]), InstrTally(block[i]))
    ensures TopLevel(block[i]) ==> BlockVirtualRegs(block[..i + 1], isVirtual) == BlockVirtualRegs(block[..i], isVirtual) + OperandVirtualRegs(block[i].operands, isVirtual)
    ensures !TopLevel(block[i]) ==> BlockTally(block[..i + 1]) == BlockTally(block[..i])
    ensures !TopLevel(block[i]) ==> BlockVirtualRegs(block[..i + 1], isVirtual) == BlockVirtualRegs(block[..i], isVirtual)
  {
    assert block[..i + 1][..i] == block[..i];
  }

  /** The block loop: the function's tally, its largest block and its virtual registers. */
  method CountFunction(blocks: seq<MachineBasicBlock>, isVirtual: nat -> bool) returns (t: Tally, maxInsts: nat, vregs: set<nat>)
    ensures t == FunctionTally(blocks)
    ensures maxInsts == MaxBlockInsts(blocks)
    ensures vregs == FunctionVirtualRegs(blocks, isVirtual)
  {
    t, maxInsts, vregs := NoTally, 0, {};
    for b := 0 to |blocks|
      invariant t == FunctionTally(blocks[..b])
      invariant maxInsts == MaxBlockInsts(blocks[..b])
      invariant vregs == FunctionVirtualRegs(blocks[..b], isVirtual)
    {
      assert blocks[..b + 1][..b] == blocks[..b];
      var bt, blockRegs := CountBlock(blocks[b], isVirtual);
      assert FunctionTally(blocks[..b + 1]) == Plus(FunctionTally(blocks[..b]), bt);
      assert MaxBlockInsts(blocks[..b + 1]) == Max(MaxBlockInsts(blocks[..b]), bt.insts);
      assert FunctionVirtualRegs(blocks[..b + 1], isVirtual) == FunctionVirtualRegs(blocks[..b], isVirtual) + blockRegs;
      t := Plus(t, bt);
      if bt.insts > maxInsts {
        maxInsts := bt.insts;
      }
      vregs := vregs + blockRegs;
    }
    assert blocks[..|blocks|] == blocks;
  }

  /** The smallest register of a non-empty set. */
  ghost function SetMin(s: set<nat>): (m: nat)
    requires s != {}
    ensures m in s && forall x :: x in s ==> m <= x
    decreases |s|
  {
    var x :| x in s;
    if s == {x} then
      assert forall y :: y in s ==> y == x;
      x
    else
      var m := SetMin(s - {x});
      assert forall y :: y in s ==> y == x || y in s - {x};
      if x < m then x else m
  }

  /** The registers of `s` in increasing order, as a `std::set` lists them. */
  ghost function Ascending(s: set<nat>): (r: seq<nat>)
    ensures |r| == |s|
    decreases |s|
  {
    if s == {} then [] else [SetMin(s)] + Ascending(s - {SetMin(s)})
  }

  /** The enumeration is strictly increasing and lists exactly the set. */
  lemma AscendingFacts(s: set<nat>)
    ensures forall i, j :: 0 <= i < j < |Ascending(s)| ==> Ascending(s)[i] < Ascending(s)[j]
    ensures forall x :: x in s <==> x in Ascending(s)
  {
    AscendingMembers(s);
    AscendingSorted(s);
  }

  lemma {:induction false} AscendingMembers(s: set<nat>)
    ensures forall x :: x in s <==> x in Ascending(s)
    decreases |s|
  {
    if s != {} {
      var m := SetMin(s);
      var t := Ascending(s - {m});
      AscendingMembers(s - {m});
      assert Ascending(s) == [m] + t;
    }
  }

  lemma {:induction false} AscendingSorted(s: set<nat>)
    ensures forall i, j :: 0 <= i < j < |Ascending(s)| ==> Ascending(s)[i] < Ascending(s)[j]
    decreases |s|
  {
    if s != {} {
      var m := SetMin(s);
      var t := Ascending(s - {m});
      AscendingSorted(s - {m});
      AscendingMembers(s - {m});
      assert Ascending(s) == [m] + t;
      forall i, j | 0 <= i < j < |Ascending(s)|
        ensures Ascending(s)[i] < Ascending(s)[j]
      {
        if i == 0 {
          assert Ascending(s)[j] == t[j - 1] && t[j - 1] in s - {m};
        } else {
          assert Ascending(s)[i] == t[i - 1] && Ascending(s)[j] == t[j - 1];
        }
      }
    }
  }

  /**
   * The loop over the distinct virtual registers, in increasing order: their
   * classes, and the class weight of each register in that order.
   */
  method RegClassWeights(vregs: set<nat>, regClass: nat -> nat, classWeight: nat -> nat) returns (classes: set<nat>, weights: seq<nat>)
    ensures classes == RegClasses(vregs, regClass)
    ensures |weights| == |vregs|
    ensures forall i :: 0 <= i < |weights| ==> weights[i] == classWeight(regClass(Ascending(vregs)[i]))
  {
    classes, weights := {}, [];
    var rest := vregs;
    ghost var done: seq<nat> := [];
    while rest != {}
      invariant WeightsSoFar(vregs, rest, done, classes, weights, regClass, classWeight)
      decreases |rest|
    {
      ghost var m := SetMin(rest);
      var r :| r in rest && forall y :: y in rest ==> r <= y;
      assert r <= m && m <= r;
      assert r == m;
      WeightsStep(vregs, rest, done, classes, weights, regClass, classWeight);
      classes := classes + {regClass(r)};
      weights := weights + [classWeight(regClass(r))];
      done := done + [r];
      rest := rest - {r};
    }
    WeightsDone(vregs, done, classes, weights, regClass, classWeight);
  }

  /**
   * The register loop's invariant: the registers `done` so far are the first
   * ones in increasing order, `rest` the ones still to visit, and `classes`
   * and `weights` hold what they contributed.
   */
  ghost predicate WeightsSoFar(vregs: set<nat>, rest: set<nat>, done: seq<nat>, classes: set<nat>, weights: seq<nat>,
                               regClass: nat -> nat, classWeight: nat -> nat) {
    rest <= vregs &&
    classes == RegClasses(vregs - rest, regClass) &&
    Ascending(vregs) == done + Ascending(rest) &&
    |weights| == |done| &&
    forall i :: 0 <= i < |weights| ==> weights[i] == classWeight(regClass(done[i]))
  }

  lemma WeightsStep(vregs: set<nat>, rest: set<nat>, done: seq<nat>, classes: set<nat>, weights: seq<nat>,
                    regClass: nat -> nat, classWeight: nat -> nat)
    requires rest != {} && WeightsSoFar(vregs, rest, done, classes, weights, regClass, classWeight)
    ensures |rest - {SetMin(rest)}| < |rest|
    ensures WeightsSoFar(vregs, rest - {SetMin(rest)}, done + [SetMin(rest)], classes + {regClass(SetMin(rest))},
                         weights + [classWeight(regClass(SetMin(rest)))], regClass, classWeight)
  {
    var r := SetMin(rest);
    EnumerationStep(vregs, rest, done);
    ClassesStep(vregs, rest, r, regClass);
  }

  lemma WeightsDone(vregs: set<nat>, done: seq<nat>, classes: set<nat>, weights: seq<nat>,
                    regClass: nat -> nat, classWeight: nat -> nat)
    requires WeightsSoFar(vregs, {}, done, classes, weights, regClass, classWeight)
    ensures classes == RegClasses(vregs, regClass)
    ensures |weights| == |vregs|
    ensures forall i :: 0 <= i < |weights| ==> weights[i] == classWeight(regClass(Ascending(vregs)[i]))
  {
    assert vregs - {} == vregs;
    assert Ascending(vregs) == done;
  }

  /** Taking the least register of `rest` advances the enumeration by one. */
  lemma EnumerationStep(vregs: set<nat>, rest: set<nat>, done: seq<nat>)
    requires rest != {}
    requires Ascending(vregs) == done + Ascending(rest)
    ensures Ascending(vregs) == (done + [SetMin(rest)]) + Ascending(rest - {SetMin(rest)})
  {
    var m := SetMin(rest);
    var t := Ascending(rest - {m});
    assert Ascending(rest) == [m] + t;
    assert done + ([m] + t) == (done + [m]) + t;
  }

  /** ... and the classes seen by that register's class. */
  lemma ClassesStep(vregs: set<nat>, rest: set<nat>, m: nat, regClass: nat -> nat)
    requires m in rest && rest <= vregs
    ensures RegClasses(vregs - (rest - {m}), regClass) == RegClasses(vregs - rest, regClass) + {regClass(m)}
  {
    assert vregs - (rest - {m}) == (vregs - rest) + {m};
    RegClassesAdd(vregs - rest, m, regClass);
  }

  lemma RegClassesAdd(a: set<nat>, r: nat, regClass: nat -> nat)
    ensures RegClasses(a + {r}, regClass) == RegClasses(a, regClass) + {regClass(r)}
  {
    assert regClass(r) in RegClasses(a + {r}, regClass);
  }

  /** Sum of a sequence of weights. */
  function Sum(w: seq<nat>): nat {
    if w == [] then 0 else Sum(w[..|w| - 1]) + w[|w| - 1]
  }

  /**
   * The mean as the source computes it: the vector holds `unsigned`, so the
   * sum and the size wrap at 2^32 and the division truncates before the
   * result is widened to `double`; a size that wraps to 0 divides by zero,
   * `None` here.
   */
  function MeanAsWritten(w: seq<nat>): (r: Option<nat>)
    ensures r.Some? <==> |w| % 0x1_0000_0000 != 0
    ensures r.Some? ==> r.value < 0x1_0000_0000
  {
    if |w| % 0x1_0000_0000 == 0 then None
    else Some((Sum(w) % 0x1_0000_0000) / (|w| % 0x1_0000_0000))
  }

  /** The arithmetic mean the coefficient of variation is defined over. */
  function Mean(w: seq<nat>): (r: real)
    requires |w| > 0
    ensures r * |w| as real == Sum(w) as real
  {
    Sum(w) as real / |w| as real
  }

  lemma {:induction false} SumBounds(w: seq<nat>, lo: nat, hi: nat)
    requires forall i :: 0 <= i < |w| ==> lo <= w[i] <= hi
    ensures lo * |w| <= Sum(w) <= hi * |w|
    decreases |w|
  {
    if w != [] {
      var k := |w| - 1;
      SumBounds(w[..k], lo, hi);
      assert lo <= w[k] <= hi;
      MulSucc(lo, k);
      MulSucc(hi, k);
    }
  }

  lemma MulSucc(a: nat, k: nat)
    ensures a * (k + 1) == a * k + a
  {
  }

  /** The mean lies between the smallest and the largest weight. */
  lemma MeanBounds(w: seq<nat>, lo: nat, hi: nat)
    requires |w| > 0
    requires forall i :: 0 <= i < |w| ==> lo <= w[i] <= hi
    ensures lo as real <= Mean(w) <= hi as real
  {
    SumBounds(w, lo, hi);
    QuotientBounds(Sum(w), |w|, lo, hi);
  }

  lemma QuotientBounds(s: nat, n: nat, lo: nat, hi: nat)
    requires n > 0 && lo * n <= s <= hi * n
    ensures lo as real <= s as real / n as real <= hi as real
  {
    var q, m := s as real / n as real, n as real;
    DivTimes(s as real, m);
    CastTimes(lo, n);
    CastTimes(hi, n);
    ScaleCancels(lo as real, q, m);
    ScaleCancels(q, hi as real, m);
  }

  lemma DivTimes(x: real, m: real)
    requires m > 0.0
    ensures (x / m) * m == x
  {
  }

  lemma CastTimes(a: nat, b: nat)
    ensures (a * b) as real == a as real * b as real
  {
  }

  lemma ScaleCancels(a: real, b: real, m: real)
    requires m > 0.0 && a * m <= b * m
    ensures a <= b
  {
  }

  /**
   * Without wrap-around (the sum and the size below 2^32) the source's mean
   * is the floor of the mean.
   */
  lemma MeanAsWrittenIsFloor(w: seq<nat>)
    requires 0 < |w| < 0x1_0000_0000 && Sum(w) < 0x1_0000_0000
    ensures MeanAsWritten(w).Some?
    ensures MeanAsWritten(w).value as real <= Mean(w) < (MeanAsWritten(w).value + 1) as real
  {
    var n, s := |w|, Sum(w);
    assert n % 0x1_0000_0000 == n && s % 0x1_0000_0000 == s;
    assert MeanAsWritten(w) == Some(s / n);
    QuotientFloor(s, n);
  }

  /** Truncating division is the floor of exact division. */
  lemma QuotientFloor(s: nat, n: nat)
    requires n > 0
    ensures (s / n) as real <= s as real / n as real < (s / n + 1) as real
  {
    var q := s / n;
    DivisionBounds(s, n);
    var m, x := n as real, s as real / n as real;
    DivTimes(s as real, m);
    CastTimes(q, n);
    CastTimes(q + 1, n);
    ScaleCancels(q as real, x, m);
    StrictScaleCancels(x, (q + 1) as real, m);
  }

  lemma DivisionBounds(s: nat, n: nat)
    requires n > 0
    ensures (s / n) * n <= s < (s / n + 1) * n
  {
    var q, r := s / n, s % n;
    assert s == q * n + r && r < n;
    assert (q + 1) * n == q * n + n;
  }

  lemma StrictScaleCancels(a: real, b: real, m: real)
    requires m > 0.0 && a * m < b * m
    ensures a < b
  {
  }

  /** Weights 1 and 2: the source's mean is 1, the mean is 1.5. */
  lemma MeanAsWrittenTruncates()
    ensures MeanAsWritten([1, 2]) == Some(1)
    ensures Mean([1, 2]) == 1.5
  {
    assert Sum([1, 2]) == 3 by {
      assert [1, 2][..1] == [1];
      assert [1][..0] == [];
    }
  }

  /** Two weights of 2^32 - 1: the wrapped sum puts the source's mean below every weight. */
  lemma MeanAsWrittenBelowMinimum()
    ensures MeanAsWritten([0xFFFF_FFFF, 0xFFFF_FFFF]) == Some(0x7FFF_FFFF)
    ensures Mean([0xFFFF_FFFF, 0xFFFF_FFFF]) == 0xFFFF_FFFF as real
  {
    var w: seq<nat> := [0xFFFF_FFFF, 0xFFFF_FFFF];
    assert Sum(w) == 0x1_FFFF_FFFE by {
      assert w[..1] == [0xFFFF_FFFF];
      assert w[..1][..0] == [];
    }
  }

  /** The global statistic counters the pass adds to. */
  class Statistics {
    var preRA: Counters
    var postRA: Counters
    var regClassesPreRA: nat

    constructor ()
      ensures preRA == Counters(0, 0, 0, 0, 0, 0) && postRA == Counters(0, 0, 0, 0, 0, 0)
      ensures regClassesPreRA == 0
    {
      preRA := Counters(0, 0, 0, 0, 0, 0);
      postRA := Counters(0, 0, 0, 0, 0, 0);
      regClassesPreRA := 0;
    }
  }

  /** The pass, created for one stats point. */
  class MachineCodeStatsPass {
    const p: StatsPoint

    /** The default pass counts before register allocation. */
    constructor ()
      ensures p == PreRA
    {
      p := PreRA;
    }

    constructor WithPoint(p0: StatsPoint)
      ensures p == p0
    {
      p := p0;
    }

    /**
     * `MachineCodeStats::runOnMachineFunction`: adds this function to the
     * counters of the pass's stats point and no others; before register
     * allocation, with some virtual register, sets the register-class count
     * and returns the class weights, in increasing register order, and their
     * mean as the source computes it in `unsigned`. Never changes the
     * function.
     */
    method RunOnMachineFunction(mf: MachineFunction, stats: Statistics, isVirtual: nat -> bool,
                                regClass: nat -> nat, classWeight: nat -> nat)
      returns (changed: bool, weights: seq<nat>, weightMean: Option<nat>)
      modifies stats
      ensures !changed
      ensures p == PreRA ==> stats.preRA == Record(old(stats.preRA), mf.blocks) && stats.postRA == old(stats.postRA)
      ensures p == PostRA ==> stats.postRA == Record(old(stats.postRA), mf.blocks) && stats.preRA == old(stats.preRA)
      ensures p == PreRA && FunctionVirtualRegs(mf.blocks, isVirtual) != {} ==>
        stats.regClassesPreRA == |RegClasses(FunctionVirtualRegs(mf.blocks, isVirtual), regClass)| &&
        |weights| == |FunctionVirtualRegs(mf.blocks, isVirtual)| && |weights| > 0 && weightMean == MeanAsWritten(weights) &&
        forall i :: 0 <= i < |weights| ==>
          weights[i] == classWeight(regClass(Ascending(FunctionVirtualRegs(mf.blocks, isVirtual))[i]))
      ensures !(p == PreRA && FunctionVirtualRegs(mf.blocks, isVirtual) != {}) ==>
        stats.regClassesPreRA == old(stats.regClassesPreRA) && weights == [] && weightMean == None
    {
      var t, maxInsts, vregs := CountFunction(mf.blocks, isVirtual);
      var c0 := if p == PreRA then stats.preRA else stats.postRA;
      var c := Counters(c0.basicBlocks + |mf.blocks|, c0.machineInsts + t.insts, c0.virtualRegs + t.defs,
                        maxInsts, c0.copyInsts + t.copies, c0.callInsts + t.calls);
      assert c == Record(c0, mf.blocks);
      if p == PreRA {
        stats.preRA := c;
      } else {
        stats.postRA := c;
      }
      weights, weightMean := [], None;
      if p == PreRA && vregs != {} {
        var classes;
        classes, weights := RegClassWeights(vregs, regClass, classWeight);
        stats.regClassesPreRA := |classes|;
        weightMean := MeanAsWritten(weights);
      }
      changed := false;
    }
  }

  /** The instruction counter grows by the number of instructions the block iterator visits. */
  lemma {:induction false} BlockInstsAreVisited(block: MachineBasicBlock)
    ensures BlockTally(block).insts == |Visited(block)|
    decreases |block|
  {
    if block != [] {
      BlockInstsAreVisited(block[..|block| - 1]);
    }
  }

  /** Copies and calls are each among the counted instructions. */
  lemma {:induction false} CopiesAndCallsBounded(blocks: seq<MachineBasicBlock>)
    ensures FunctionTally(blocks).copies <= FunctionTally(blocks).insts
    ensures FunctionTally(blocks).calls <= FunctionTally(blocks).insts
    decreases |blocks|
  {
    if blocks != [] {
      CopiesAndCallsBounded(blocks[..|blocks| - 1]);
      BlockCopiesAndCallsBounded(blocks[|blocks| - 1]);
    }
  }

  lemma {:induction false} BlockCopiesAndCallsBounded(block: MachineBasicBlock)
    ensures BlockTally(block).copies <= BlockTally(block).insts
    ensures BlockTally(block).calls <= BlockTally(block).insts
    decreases |block|
  {
    if block != [] {
      BlockCopiesAndCallsBounded(block[..|block| - 1]);
    }
  }

  /** The largest-block statistic is the largest block's count, or 0 without blocks. */
  lemma {:induction false} MaxBlockIsMaximum(blocks: seq<MachineBasicBlock>)
    ensures forall b :: 0 <= b < |blocks| ==> BlockTally(blocks[b]).insts <= MaxBlockInsts(blocks)
    ensures blocks == [] ==> MaxBlockInsts(blocks) == 0
    ensures blocks != [] ==> exists b :: 0 <= b < |blocks| && BlockTally(blocks[b]).insts == MaxBlockInsts(blocks)
    decreases |blocks|
  {
    if blocks != [] {
      var init := blocks[..|blocks| - 1];
      MaxBlockIsMaximum(init);
      assert forall b :: 0 <= b < |init| ==> init[b] == blocks[b];
      if init != [] && MaxBlockInsts(blocks) == MaxBlockInsts(init) {
        var b :| 0 <= b < |init| && BlockTally(init[b]).insts == MaxBlockInsts(init);
        assert blocks[b] == init[b];
      }
    }
  }

  /** Only virtual registers enter the distinct set. */
  lemma {:induction false} OnlyVirtualRegs(blocks: seq<MachineBasicBlock>, isVirtual: nat -> bool)
    ensures forall r :: r in FunctionVirtualRegs(blocks, isVirtual) ==> isVirtual(r)
    decreases |blocks|
  {
    if blocks != [] {
      OnlyVirtualRegs(blocks[..|blocks| - 1], isVirtual);
      BlockOnlyVirtualRegs(blocks[|blocks| - 1], isVirtual);
    }
  }

  lemma {:induction false} BlockOnlyVirtualRegs(block: MachineBasicBlock, isVirtual: nat -> bool)
    ensures forall r :: r in BlockVirtualRegs(block, isVirtual) ==> isVirtual(r)
    decreases |block|
  {
    if block != [] {
      BlockOnlyVirtualRegs(block[..|block| - 1], isVirtual);
      OperandsOnlyVirtualRegs(block[|block| - 1].operands, isVirtual);
    }
  }

  lemma {:induction false} OperandsOnlyVirtualRegs(ops: seq<MachineOperand>, isVirtual: nat -> bool)
    ensures forall r :: r in OperandVirtualRegs(ops, isVirtual) ==> isVirtual(r)
    decreases |ops|
  {
    if ops != [] {
      OperandsOnlyVirtualRegs(ops[..|ops| - 1], isVirtual);
    }
  }

  /**
   * The register-definition counter counts physical definitions too: one
   * instruction defining a physical register adds one to it and nothing to
   * the distinct virtual registers.
   */
  lemma PhysicalDefsCounted(mi: MachineInstr, reg: nat, isVirtual: nat -> bool)
    requires TopLevel(mi) && mi.operands == [RegisterOperand(reg, true)] && !isVirtual(reg)
    ensures BlockTally([mi]).defs == 1
    ensures BlockVirtualRegs([mi], isVirtual) == {}
  {
    var ops := mi.operands;
    assert ops[..|ops| - 1] == [];
    assert DefCount(ops) == 1;
    assert OperandVirtualRegs(ops, isVirtual) == {};
    SingleInstrBlock(mi, isVirtual);
  }

  lemma SingleInstrBlock(mi: MachineInstr, isVirtual: nat -> bool)
    requires TopLevel(mi)
    ensures BlockTally([mi]) == InstrTally(mi)
    ensures BlockVirtualRegs([mi], isVirtual) == OperandVirtualRegs(mi.operands, isVirtual)
  {
    var block := [mi];
    assert block[..|block| - 1] == [];
    assert BlockTally([]) == NoTally;
  }

  /** There are at most as many register classes as distinct virtual registers, and at least one. */
  lemma {:induction false} RegClassesBound(vregs: set<nat>, regClass: nat -> nat)
    ensures |RegClasses(vregs, regClass)| <= |vregs|
    ensures vregs != {} ==> |RegClasses(vregs, regClass)| >= 1
    decreases |vregs|
  {
    if vregs != {} {
      var r :| r in vregs;
      var rest := vregs - {r};
      RegClassesBound(rest, regClass);
      assert RegClasses(vregs, regClass) == RegClasses(rest, regClass) + {regClass(r)};
      assert regClass(r) in RegClasses(vregs, regClass);
    }
  }
}
