/**
 * The pass that removes unconditional branches made redundant by a fall
 * through: in a block that can fall through, whose branch analysis finds
 * both a taken and a not-taken target, and whose not-taken target is the
 * next block in layout, the unconditional branches are erased.
 *
 * The block is walked backwards with the bundle iterator, so only bundle
 * headers and unbundled instructions are examined; erasing a bundle header
 * erases the instructions inside its bundle with it. The walk is a
 * `std::reverse_iterator` over the bundle iterator: after an erasure its
 * base still designates the instruction after the erased one, so the next
 * step lands on the erased one's predecessor's predecessor, and that
 * predecessor is never examined. `Walk` is the walk as written; `Fold`, which
 * erases every unconditional branch, is what the comment above the loop
 * says it does. The fall-through test (`canFallThrough`) and the branch
 * analysis (`AnalyzeBranch`) are target code, given as the parameters
 * `fallsThrough` and `analyze` over block numbers.
 */
module TrivialBranchFolding {

  import opened Wrappers
  import opened MachineIR

  /** An instruction the walk examines and erases. */
  predicate Erased(mi: MachineInstr) {
    TopLevel(mi) && mi.isUnconditionalBranch
  }

  /**
   * The backward walk over `s`, with `pending` the instructions inside a
   * bundle seen since the last examined instruction: they go with their
   * header, kept or erased.
   */
  function FoldFrom(s: seq<MachineInstr>, pending: seq<MachineInstr>): seq<MachineInstr>
    decreases |s|
  {
    if s == [] then pending
    else
      var mi, init := s[|s| - 1], s[..|s| - 1];
      if !TopLevel(mi) then FoldFrom(init, [mi] + pending)
      else if mi.isUnconditionalBranch then FoldFrom(init, [])
      else FoldFrom(init, []) + [mi] + pending
  }

  /** A block with every unconditional branch (and its bundle) erased. */
  function Fold(block: MachineBasicBlock): MachineBasicBlock {
    FoldFrom(block, [])
  }

  predicate HasBranch(block: MachineBasicBlock) {
    exists i :: 0 <= i < |block| && Erased(block[i])
  }

  /**
   * The backward walk as written, over `s`: `pending` as in `FoldFrom`, and
   * `skip` set right after an erasure, when the next examined position is
   * one further back, so the visited instruction there is kept unexamined.
   */
  function WalkFrom(s: seq<MachineInstr>, pending: seq<MachineInstr>, skip: bool): seq<MachineInstr>
    decreases |s|
  {
    if s == [] then pending
    else
      var mi, init := s[|s| - 1], s[..|s| - 1];
      if !TopLevel(mi) then WalkFrom(init, [mi] + pending, skip)
      else if !skip && mi.isUnconditionalBranch then WalkFrom(init, [], true)
      else WalkFrom(init, [], false) + [mi] + pending
  }

  /** The block after the source's loop. */
  function Walk(block: MachineBasicBlock): MachineBasicBlock {
    WalkFrom(block, [], false)
  }

  /**
   * The reverse loop over one block, stepping past the predecessor of each
   * erased instruction; reports whether it erased anything.
   */
  method EraseUnconditionalBranches(block: MachineBasicBlock) returns (res: MachineBasicBlock, changed: bool)
    ensures res == Walk(block)
    ensures changed <==> HasBranch(block)
  {
    res, changed := [], false;
    var pending: seq<MachineInstr> := [];
    var skip := false;
    var k := |block|;
    assert block[..k] == block;
    while k > 0
      invariant 0 <= k <= |block|
      invariant Walk(block) == WalkFrom(block[..k], pending, skip) + res
      invariant skip ==> changed
      invariant changed ==> exists j :: k <= j < |block| && Erased(block[j])
      invariant !changed ==> forall j :: k <= j < |block| ==> !Erased(block[j])
    {
      k := k - 1;
      var mi := block[k];
      assert block[..k + 1][..k] == block[..k];
      if !TopLevel(mi) {
        pending := [mi] + pending;
      } else if !skip && mi.isUnconditionalBranch {
        pending, skip := [], true;
        changed := true;
      } else {
        res := [mi] + pending + res;
        pending, skip := [], false;
      }
    }
    res := pending + res;
  }

  /** The visited instructions that are not unconditional branches, in order. */
  function KeptHeads(s: seq<MachineInstr>): seq<MachineInstr> {
    if s == [] then [] else KeptHeads(s[..|s| - 1]) + (if TopLevel(s[|s| - 1]) && !Erased(s[|s| - 1]) then [s[|s| - 1]] else [])
  }

  predicate AllBundled(s: seq<MachineInstr>) {
    forall i :: 0 <= i < |s| ==> !TopLevel(s[i])
  }

  lemma {:induction false} VisitedOfBundled(s: seq<MachineInstr>)
    requires AllBundled(s)
    ensures Visited(s) == []
    decreases |s|
  {
    if s != [] {
      VisitedOfBundled(s[..|s| - 1]);
    }
  }

  /**
   * Erasing keeps the visited instructions that are not unconditional
   * branches, all of them and in their order, and no other visited one.
   */
  lemma {:induction false} FoldKeepsOtherVisited(s: seq<MachineInstr>, pending: seq<MachineInstr>)
    requires AllBundled(pending)
    ensures Visited(FoldFrom(s, pending)) == KeptHeads(s)
    decreases |s|
  {
    if s == [] {
      VisitedOfBundled(pending);
    } else {
      var mi, init := s[|s| - 1], s[..|s| - 1];
      assert KeptHeads(s) == KeptHeads(init) + (if TopLevel(mi) && !Erased(mi) then [mi] else []);
      if !TopLevel(mi) {
        var p := [mi] + pending;
        assert AllBundled(p) by {
          forall i | 0 <= i < |p|
            ensures !TopLevel(p[i])
          {
            if i > 0 {
              assert p[i] == pending[i - 1];
            }
          }
        }
        FoldKeepsOtherVisited(init, p);
      } else if mi.isUnconditionalBranch {
        FoldKeepsOtherVisited(init, []);
      } else {
        var f := FoldFrom(init, []);
        FoldKeepsOtherVisited(init, []);
        assert FoldFrom(s, pending) == (f + [mi]) + pending;
        VisitedAppend(f + [mi], pending);
        VisitedOfBundled(pending);
        assert (f + [mi])[..|f + [mi]| - 1] == f;
        assert Visited(f + [mi]) == Visited(f) + [mi];
        assert Visited(FoldFrom(s, pending)) == Visited(f) + [mi];
      }
    }
  }

  /** No examined instruction of the result is an unconditional branch. */
  lemma {:induction false} FoldLeavesNoBranch(s: seq<MachineInstr>, pending: seq<MachineInstr>)
    requires AllBundled(pending)
    ensures !HasBranch(FoldFrom(s, pending))
    decreases |s|
  {
    if s != [] {
      var mi, init := s[|s| - 1], s[..|s| - 1];
      if !TopLevel(mi) {
        FoldLeavesNoBranch(init, [mi] + pending);
      } else {
        FoldLeavesNoBranch(init, []);
        if !mi.isUnconditionalBranch {
          var r := FoldFrom(init, []) + [mi] + pending;
          forall i | 0 <= i < |r|
            ensures !Erased(r[i])
          {
            if i < |FoldFrom(init, [])| {
              assert r[i] == FoldFrom(init, [])[i];
            } else if i > |FoldFrom(init, [])| {
              assert r[i] == pending[i - |FoldFrom(init, [])| - 1];
            }
          }
        }
      }
    }
  }

  /** A block without unconditional branches is left as it is. */
  lemma {:induction false} FoldWithoutBranch(s: seq<MachineInstr>, pending: seq<MachineInstr>)
    requires !HasBranch(s)
    ensures FoldFrom(s, pending) == s + pending
    decreases |s|
  {
    if s != [] {
      var mi, init := s[|s| - 1], s[..|s| - 1];
      assert !Erased(s[|s| - 1]);
      assert !HasBranch(init) by {
        forall i | 0 <= i < |init|
          ensures !Erased(init[i])
        {
          assert init[i] == s[i];
        }
      }
      assert s == init + [mi];
      if !TopLevel(mi) {
        FoldWithoutBranch(init, [mi] + pending);
      } else {
        FoldWithoutBranch(init, []);
      }
    }
  }

  /** Each erasure shortens the block. */
  lemma {:induction false} FoldShortens(s: seq<MachineInstr>, pending: seq<MachineInstr>)
    ensures |FoldFrom(s, pending)| <= |s| + |pending|
    ensures HasBranch(s) ==> |FoldFrom(s, pending)| < |s| + |pending|
    decreases |s|
  {
    if s != [] {
      var mi, init := s[|s| - 1], s[..|s| - 1];
      if HasBranch(s) && !Erased(mi) {
        var i :| 0 <= i < |s| && Erased(s[i]);
        assert Erased(init[i]);
      }
      if !TopLevel(mi) {
        FoldShortens(init, [mi] + pending);
      } else {
        FoldShortens(init, []);
      }
    }
  }

  /** Erasing changes the block exactly when it holds an unconditional branch. */
  lemma FoldUnchangedIff(block: MachineBasicBlock)
    ensures Fold(block) == block <==> !HasBranch(block)
  {
    FoldShortens(block, []);
    if !HasBranch(block) {
      FoldWithoutBranch(block, []);
      assert block + [] == block;
    }
  }

  /** Erasing a second time changes nothing. */
  lemma FoldIdempotent(block: MachineBasicBlock)
    ensures Fold(Fold(block)) == Fold(block)
  {
    FoldLeavesNoBranch(block, []);
    FoldUnchangedIff(Fold(block));
  }

  /** Instructions inside a bundle at the end go with whatever precedes them. */
  lemma {:induction false} FoldFromBundled(a: seq<MachineInstr>, p: seq<MachineInstr>, q: seq<MachineInstr>)
    requires AllBundled(p)
    ensures FoldFrom(a + p, q) == FoldFrom(a, p + q)
    decreases |p|
  {
    if p == [] {
      assert a + p == a && p + q == q;
    } else {
      var m, init := p[|p| - 1], p[..|p| - 1];
      assert (a + p)[..|a + p| - 1] == a + init;
      assert AllBundled(init) by {
        forall i | 0 <= i < |init|
          ensures !TopLevel(init[i])
        {
          assert init[i] == p[i];
        }
      }
      FoldFromBundled(a, init, [m] + q);
      assert init + ([m] + q) == p + q;
    }
  }

  /** The fold splits in front of a visited instruction. */
  lemma {:induction false} FoldFromAppend(a: seq<MachineInstr>, b: seq<MachineInstr>, q: seq<MachineInstr>)
    requires b != [] && TopLevel(b[0])
    ensures FoldFrom(a + b, q) == FoldFrom(a, []) + FoldFrom(b, q)
    decreases |b|
  {
    var m, init := b[|b| - 1], b[..|b| - 1];
    assert (a + b)[..|a + b| - 1] == a + init;
    if init == [] {
      assert a + init == a;
      assert FoldFrom(init, []) == [];
    } else if !TopLevel(m) {
      FoldFromAppend(a, init, [m] + q);
    } else {
      FoldFromAppend(a, init, []);
    }
  }

  /**
   * Folding what the walk leaves gives the fold: the walk erases only
   * unconditional branches, and those it misses are the fold's to erase.
   */
  lemma {:induction false} WalkThenFoldFrom(s: seq<MachineInstr>, pending: seq<MachineInstr>, skip: bool)
    requires AllBundled(pending)
    ensures FoldFrom(WalkFrom(s, pending, skip), []) == FoldFrom(s, pending)
    decreases |s|
  {
    if s == [] {
      FoldFromBundled([], pending, []);
      assert [] + pending == pending && pending + [] == pending;
    } else {
      var mi, init := s[|s| - 1], s[..|s| - 1];
      if !TopLevel(mi) {
        var p := [mi] + pending;
        assert AllBundled(p) by {
          forall i | 0 <= i < |p|
            ensures !TopLevel(p[i])
          {
            if i > 0 {
              assert p[i] == pending[i - 1];
            }
          }
        }
        WalkThenFoldFrom(init, p, skip);
      } else if !skip && mi.isUnconditionalBranch {
        WalkThenFoldFrom(init, [], true);
      } else {
        var w := WalkFrom(init, [], false);
        WalkThenFoldFrom(init, [], false);
        assert w + [mi] + pending == w + ([mi] + pending);
        FoldFromAppend(w, [mi] + pending, []);
        FoldFromBundled([mi], pending, []);
        assert [mi][..0] == [];
        assert pending + [] == pending;
      }
    }
  }

  /** Folding the block the source's loop leaves gives the fold of the original block. */
  lemma WalkThenFold(block: MachineBasicBlock)
    ensures Fold(Walk(block)) == Fold(block)
  {
    WalkThenFoldFrom(block, [], false);
  }

  /** The loop keeps every visited instruction that is not an unconditional branch, in order. */
  lemma WalkKeepsOtherVisited(block: MachineBasicBlock)
    ensures KeptHeads(Walk(block)) == KeptHeads(block)
  {
    FoldKeepsOtherVisited(Walk(block), []);
    FoldKeepsOtherVisited(block, []);
    WalkThenFold(block);
  }

  /** A block without unconditional branches goes through the loop unchanged. */
  lemma {:induction false} WalkWithoutBranch(s: seq<MachineInstr>, pending: seq<MachineInstr>, skip: bool)
    requires !HasBranch(s)
    ensures WalkFrom(s, pending, skip) == s + pending
    decreases |s|
  {
    if s != [] {
      var mi, init := s[|s| - 1], s[..|s| - 1];
      assert !Erased(s[|s| - 1]);
      assert !HasBranch(init) by {
        forall i | 0 <= i < |init|
          ensures !Erased(init[i])
        {
          assert init[i] == s[i];
        }
      }
      assert s == init + [mi];
      if !TopLevel(mi) {
        WalkWithoutBranch(init, [mi] + pending, skip);
      } else {
        WalkWithoutBranch(init, [], false);
      }
    }
  }

  /**
   * The loop never lengthens the block, and the last unconditional branch
   * it reaches before any erasure is always examined and erased.
   */
  lemma {:induction false} WalkShortens(s: seq<MachineInstr>, pending: seq<MachineInstr>, skip: bool)
    ensures |WalkFrom(s, pending, skip)| <= |s| + |pending|
    ensures !skip && HasBranch(s) ==> |WalkFrom(s, pending, skip)| < |s| + |pending|
    decreases |s|
  {
    if s != [] {
      var mi, init := s[|s| - 1], s[..|s| - 1];
      if !skip && HasBranch(s) && !Erased(mi) {
        var i :| 0 <= i < |s| && Erased(s[i]);
        assert Erased(init[i]);
      }
      if !TopLevel(mi) {
        WalkShortens(init, [mi] + pending, skip);
      } else if !skip && mi.isUnconditionalBranch {
        WalkShortens(init, [], true);
      } else {
        WalkShortens(init, [], false);
      }
    }
  }

  /** The loop changes the block exactly when it holds an unconditional branch. */
  lemma WalkUnchangedIff(block: MachineBasicBlock)
    ensures Walk(block) == block <==> !HasBranch(block)
  {
    WalkShortens(block, [], false);
    if !HasBranch(block) {
      WalkWithoutBranch(block, [], false);
      assert block + [] == block;
    }
  }

  /**
   * Two unconditional branches in a row: the loop erases the second and
   * steps over the first, which only a second run erases; the fold erases
   * both.
   */
  lemma WalkSkipsBranch(x: MachineInstr, y: MachineInstr)
    requires TopLevel(x) && x.isUnconditionalBranch
    requires TopLevel(y) && y.isUnconditionalBranch
    ensures Walk([x, y]) == [x]
    ensures Walk(Walk([x, y])) == []
    ensures Fold([x, y]) == []
  {
    var s := [x, y];
    assert s[|s| - 1] == y && s[..|s| - 1] == [x];
    assert [x][|[x]| - 1] == x && [x][..0] == [];
    assert WalkFrom([x], [], true) == WalkFrom([], [], false) + [x] + [];
    assert Walk(s) == WalkFrom([x], [], true) == [x];
    assert Walk([x]) == WalkFrom([], [], true) == [];
    assert FoldFrom([x], []) == [];
    assert Fold(s) == FoldFrom([x], []);
  }

  /**
   * The block qualifies: it can fall through, the analysis found both
   * targets, and the not-taken one is the next block in layout.
   */
  predicate Folds(b: nat, fallsThrough: nat -> bool, analyze: nat -> (Option<nat>, Option<nat>)) {
    fallsThrough(b) && analyze(b).0.Some? && analyze(b).1.Some? && analyze(b).1.value == b + 1
  }

  /** `runOnMachineBasicBlock` for block number `b`. */
  method RunOnMachineBasicBlock(block: MachineBasicBlock, b: nat, fallsThrough: nat -> bool,
                                analyze: nat -> (Option<nat>, Option<nat>)) returns (res: MachineBasicBlock, changed: bool)
    ensures Folds(b, fallsThrough, analyze) ==> res == Walk(block)
    ensures !Folds(b, fallsThrough, analyze) ==> res == block
    ensures changed <==> Folds(b, fallsThrough, analyze) && HasBranch(block)
  {
    res, changed := block, false;
    if fallsThrough(b) {
      var (tbb, fbb) := analyze(b);
      if tbb.Some? && fbb.Some? && fbb.value == b + 1 {
        res, changed := EraseUnconditionalBranches(block);
      }
    }
  }

  /** `TrivialBranchFolding::runOnMachineFunction`. */
  method RunOnMachineFunction(mf: MachineFunction, fallsThrough: nat -> bool,
                              analyze: nat -> (Option<nat>, Option<nat>)) returns (changed: bool)
    modifies mf
    ensures |mf.blocks| == |old(mf.blocks)|
    ensures forall b :: 0 <= b < |mf.blocks| ==>
      mf.blocks[b] == if Folds(b, fallsThrough, analyze) then Walk(old(mf.blocks)[b]) else old(mf.blocks)[b]
    ensures changed <==> exists b :: 0 <= b < |old(mf.blocks)| && Folds(b, fallsThrough, analyze) && HasBranch(old(mf.blocks)[b])
  {
    changed := false;
    for b := 0 to |mf.blocks|
      invariant |mf.blocks| == |old(mf.blocks)|
      invariant forall k :: 0 <= k < b ==>
        mf.blocks[k] == if Folds(k, fallsThrough, analyze) then Walk(old(mf.blocks)[k]) else old(mf.blocks)[k]
      invariant forall k :: b <= k < |mf.blocks| ==> mf.blocks[k] == old(mf.blocks)[k]
      invariant changed <==> exists k :: 0 <= k < b && Folds(k, fallsThrough, analyze) && HasBranch(old(mf.blocks)[k])
    {
      var block, blockChanged := RunOnMachineBasicBlock(mf.blocks[b], b, fallsThrough, analyze);
      mf.blocks := mf.blocks[b := block];
      changed := changed || blockChanged;
    }
  }
}
