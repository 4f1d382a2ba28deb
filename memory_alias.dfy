/**
 * The analysis that splits the memory accesses of each basic block into
 * partitions that may alias, and records each access's partition as a
 * metadata operand `!{"unison-memory-partition", p}` for Unison.
 *
 * Within a block, the accesses are the instructions the block iterator
 * visits that are not bundle headers and may load or store. Every ordered
 * pair of accesses (an access paired with itself included) is merged into one
 * class when one of the two may store and the scheduler's alias test
 * (`MIsNeedChainEdge`, host code, the parameter `chain`) says the pair needs
 * a chain edge. The classes are then numbered 0, 1, ... in the order in
 * which the host's equivalence-class container lists their leaders; that
 * order is the parameter `order` (a permutation of the access indices).
 *
 * The union-find container is modelled by labels: `lab[x]` is the leader of
 * access `x`'s class, and merging relabels the second class with the first
 * one's leader. Accesses are identified by their position, as the source
 * identifies them by address.
 */
module MemoryAlias {

  import opened Wrappers
  import opened MachineIR
  import CleanUnisonMetadata

  /* ---------------------------------------------------------------------- */
  /* Connectivity over a set of undirected edges                             */
  /* ---------------------------------------------------------------------- */

  ghost predicate Linked(E: set<(nat, nat)>, u: nat, v: nat) {
    (u, v) in E || (v, u) in E
  }

  /** `p` is a walk along edges of `E`. */
  ghost predicate IsPath(E: set<(nat, nat)>, p: seq<nat>) {
    forall k :: 0 <= k < |p| - 1 ==> Linked(E, p[k], p[k + 1])
  }

  ghost predicate IsWalk(E: set<(nat, nat)>, p: seq<nat>, x: nat, y: nat) {
    |p| >= 1 && p[0] == x && p[|p| - 1] == y && IsPath(E, p)
  }

  /** `x` and `y` are joined by a walk along edges of `E`. */
  ghost predicate Conn(E: set<(nat, nat)>, x: nat, y: nat) {
    exists p :: IsWalk(E, p, x, y)
  }

  lemma ConnRefl(E: set<(nat, nat)>, x: nat)
    ensures Conn(E, x, x)
  {
    assert IsWalk(E, [x], x, x);
  }

  lemma ConnEdge(E: set<(nat, nat)>, u: nat, v: nat)
    requires Linked(E, u, v)
    ensures Conn(E, u, v)
  {
    assert IsWalk(E, [u, v], u, v);
  }

  lemma ConnSym(E: set<(nat, nat)>, x: nat, y: nat)
    requires Conn(E, x, y)
    ensures Conn(E, y, x)
  {
    var p :| IsWalk(E, p, x, y);
    var q := seq(|p|, i requires 0 <= i < |p| => p[|p| - 1 - i]);
    forall k | 0 <= k < |q| - 1
      ensures Linked(E, q[k], q[k + 1])
    {
      assert Linked(E, p[|p| - 2 - k], p[|p| - 1 - k]);
    }
    assert IsWalk(E, q, y, x);
  }

  lemma ConnTrans(E: set<(nat, nat)>, x: nat, y: nat, z: nat)
    requires Conn(E, x, y) && Conn(E, y, z)
    ensures Conn(E, x, z)
  {
    var p :| IsWalk(E, p, x, y);
    var q :| IsWalk(E, q, y, z);
    var w := p + q[1..];
    forall k | 0 <= k < |w| - 1
      ensures Linked(E, w[k], w[k + 1])
    {
      if k < |p| - 1 {
        assert Linked(E, p[k], p[k + 1]);
      } else {
        var j := k - |p| + 1;
        assert w[k] == q[j] && w[k + 1] == q[j + 1];
        assert Linked(E, q[j], q[j + 1]);
      }
    }
    assert IsWalk(E, w, x, z);
  }

  lemma ConnMono(E: set<(nat, nat)>, F: set<(nat, nat)>, x: nat, y: nat)
    requires E <= F && Conn(E, x, y)
    ensures Conn(F, x, y)
  {
    var p :| IsWalk(E, p, x, y);
    forall k | 0 <= k < |p| - 1
      ensures Linked(F, p[k], p[k + 1])
    {
      assert Linked(E, p[k], p[k + 1]);
    }
    assert IsWalk(F, p, x, y);
  }

  /** Without edges, every element is connected to itself only. */
  lemma ConnEmpty(x: nat, y: nat)
    requires Conn({}, x, y)
    ensures x == y
  {
    var p :| IsWalk({}, p, x, y);
    assert |p| == 1 || Linked({}, p[0], p[1]);
  }

  /** `z` is connected to an end of the edge `(a, b)`. */
  ghost predicate Near(E: set<(nat, nat)>, a: nat, b: nat, z: nat) {
    Conn(E, z, a) || Conn(E, z, b)
  }

  /**
   * A walk that may use the new edge `(a, b)` either avoids it or joins two
   * elements that are each connected to an end of it without it.
   */
  lemma {:induction false} SplitWalk(E: set<(nat, nat)>, a: nat, b: nat, p: seq<nat>)
    requires |p| >= 1 && IsPath(E + {(a, b)}, p)
    ensures Conn(E, p[0], p[|p| - 1]) || (Near(E, a, b, p[0]) && Near(E, a, b, p[|p| - 1]))
    decreases |p|
  {
    if |p| == 1 {
      ConnRefl(E, p[0]);
    } else {
      var q := p[..|p| - 1];
      forall k | 0 <= k < |q| - 1
        ensures Linked(E + {(a, b)}, q[k], q[k + 1])
      {
        assert Linked(E + {(a, b)}, p[k], p[k + 1]);
      }
      SplitWalk(E, a, b, q);
      var x, u, v := p[0], p[|p| - 2], p[|p| - 1];
      assert q[0] == x && q[|q| - 1] == u;
      assert Linked(E + {(a, b)}, u, v);
      if Linked(E, u, v) {
        ConnEdge(E, u, v);
        if Conn(E, x, u) {
          ConnTrans(E, x, u, v);
        } else {
          ConnSym(E, u, v);
          if Conn(E, u, a) {
            ConnTrans(E, v, u, a);
          } else {
            ConnTrans(E, v, u, b);
          }
        }
      } else {
        assert (u == a && v == b) || (u == b && v == a);
        ConnRefl(E, u);
        ConnRefl(E, v);
        if Conn(E, x, u) {
          assert Near(E, a, b, x);
        }
      }
    }
  }

  lemma SplitConn(E: set<(nat, nat)>, a: nat, b: nat, x: nat, y: nat)
    requires Conn(E + {(a, b)}, x, y)
    ensures Conn(E, x, y) || (Near(E, a, b, x) && Near(E, a, b, y))
  {
    var p :| IsWalk(E + {(a, b)}, p, x, y);
    SplitWalk(E, a, b, p);
  }

  /* ---------------------------------------------------------------------- */
  /* The union-find container as labels                                      */
  /* ---------------------------------------------------------------------- */

  /** Every label names an element that is its own label: the class leader. */
  predicate IsLabelling(lab: seq<nat>) {
    forall x :: 0 <= x < |lab| ==> lab[x] < |lab| && lab[lab[x]] == lab[x]
  }

  /** Two elements share a label exactly when the edges connect them. */
  ghost predicate LabelsMatch(lab: seq<nat>, E: set<(nat, nat)>) {
    forall x, y :: 0 <= x < |lab| && 0 <= y < |lab| ==> (lab[x] == lab[y] <==> Conn(E, x, y))
  }

  /** `unionSets(a, b)`: the class of `b` joins the class of `a`. */
  function Union(lab: seq<nat>, a: nat, b: nat): (r: seq<nat>)
    requires a < |lab| && b < |lab|
    ensures |r| == |lab|
    ensures forall z :: 0 <= z < |lab| ==> r[z] == if lab[z] == lab[b] then lab[a] else lab[z]
  {
    seq(|lab|, z requires 0 <= z < |lab| => if lab[z] == lab[b] then lab[a] else lab[z])
  }

  /** Merging along a new edge keeps labels in step with connectivity. */
  lemma UnionMatches(lab: seq<nat>, E: set<(nat, nat)>, a: nat, b: nat)
    requires a < |lab| && b < |lab|
    requires IsLabelling(lab) && LabelsMatch(lab, E)
    ensures IsLabelling(Union(lab, a, b))
    ensures LabelsMatch(Union(lab, a, b), E + {(a, b)})
  {
    var r := Union(lab, a, b);
    var F := E + {(a, b)};
    ConnEdge(F, a, b);
    forall x, y | 0 <= x < |lab| && 0 <= y < |lab|
      ensures r[x] == r[y] <==> Conn(F, x, y)
    {
      if Conn(F, x, y) {
        SplitConn(E, a, b, x, y);
        ConnRefl(E, a);
        ConnRefl(E, b);
      }
      if r[x] == r[y] {
        if lab[x] == lab[y] {
          ConnMono(E, F, x, y);
        } else {
          ConnRefl(E, a);
          ConnRefl(E, b);
          var ex := if lab[x] == lab[a] then a else b;
          var ey := if ex == a then b else a;
          assert lab[y] == lab[ey];
          assert Conn(E, x, ex) && Conn(E, y, ey);
          ConnMono(E, F, x, ex);
          ConnMono(E, F, y, ey);
          ConnSym(F, y, ey);
          ConnSym(F, a, b);
          ConnTrans(F, x, ex, ey);
          ConnTrans(F, x, ey, y);
        }
      }
    }
  }

  /* ---------------------------------------------------------------------- */
  /* Accesses of a block and the edges between them                          */
  /* ---------------------------------------------------------------------- */

  /** The instructions the analysis partitions. */
  predicate IsAccess(mi: MachineInstr) {
    TopLevel(mi) && !mi.isBundle && (mi.mayStore || mi.mayLoad)
  }

  /** The accesses of a block in block order. */
  function Accesses(block: MachineBasicBlock): (r: seq<MachineInstr>)
    ensures |r| <= |block|
    ensures forall k :: 0 <= k < |r| ==> IsAccess(r[k])
  {
    if block == [] then []
    else Accesses(block[..|block| - 1]) + (if IsAccess(block[|block| - 1]) then [block[|block| - 1]] else [])
  }

  /** Index among the accesses of the instruction at position `i`. */
  function Rank(block: MachineBasicBlock, i: nat): nat
    requires i <= |block|
  {
    |Accesses(block[..i])|
  }

  lemma RankStep(block: MachineBasicBlock, i: nat)
    requires i < |block|
    ensures Accesses(block[..i + 1]) == Accesses(block[..i]) + (if IsAccess(block[i]) then [block[i]] else [])
  {
    assert block[..i + 1][..i] == block[..i];
  }

  lemma {:induction false} AccessesPrefix(block: MachineBasicBlock, i: nat)
    requires i <= |block|
    ensures Accesses(block[..i]) <= Accesses(block)
    decreases |block| - i
  {
    if i == |block| {
      assert block[..i] == block;
    } else {
      AccessesPrefix(block, i + 1);
      RankStep(block, i);
    }
  }

  /** The access at position `i` is the access with index `Rank(block, i)`. */
  lemma RankOfAccess(block: MachineBasicBlock, i: nat)
    requires i < |block| && IsAccess(block[i])
    ensures Rank(block, i) < |Accesses(block)|
    ensures Accesses(block)[Rank(block, i)] == block[i]
  {
    RankStep(block, i);
    AccessesPrefix(block, i + 1);
  }

  /** Distinct access positions have distinct indices. */
  lemma RankInjective(block: MachineBasicBlock, i: nat, j: nat)
    requires i < j < |block| && IsAccess(block[i])
    ensures Rank(block, i) < Rank(block, j)
  {
    RankStep(block, i);
    AccessesPrefix(block[..j], i + 1);
    assert block[..j][..i + 1] == block[..i + 1];
  }

  /** The pair `(x, y)` is merged: one of the two may store and the alias test asks for a chain edge. */
  predicate NeedsEdge(acc: seq<MachineInstr>, chain: (MachineInstr, MachineInstr) -> bool, x: nat, y: nat)
    requires x < |acc| && y < |acc|
  {
    (acc[x].mayStore || acc[y].mayStore) && chain(acc[x], acc[y])
  }

  /** All merging pairs of a block's accesses. */
  ghost function ChainEdges(acc: seq<MachineInstr>, chain: (MachineInstr, MachineInstr) -> bool): set<(nat, nat)> {
    set x: nat, y: nat | x < |acc| && y < |acc| && NeedsEdge(acc, chain, x, y) :: (x, y)
  }

  /** Two accesses end up in one partition: a chain of merging pairs joins them. */
  ghost predicate Connected(acc: seq<MachineInstr>, chain: (MachineInstr, MachineInstr) -> bool, x: nat, y: nat) {
    Conn(ChainEdges(acc, chain), x, y)
  }

  /** The merging pairs the nested loop has visited before `(i, j)`. */
  ghost function ProcessedEdges(acc: seq<MachineInstr>, chain: (MachineInstr, MachineInstr) -> bool, i: nat, j: nat): set<(nat, nat)> {
    set x: nat, y: nat | x < |acc| && y < |acc| && (x < i || (x == i && y < j)) && NeedsEdge(acc, chain, x, y) :: (x, y)
  }

  lemma ProcessedStep(acc: seq<MachineInstr>, chain: (MachineInstr, MachineInstr) -> bool, i: nat, j: nat)
    requires i < |acc| && j < |acc|
    ensures NeedsEdge(acc, chain, i, j) ==>
      ProcessedEdges(acc, chain, i, j + 1) == ProcessedEdges(acc, chain, i, j) + {(i, j)}
    ensures !NeedsEdge(acc, chain, i, j) ==>
      ProcessedEdges(acc, chain, i, j + 1) == ProcessedEdges(acc, chain, i, j)
  {
  }

  lemma ProcessedRow(acc: seq<MachineInstr>, chain: (MachineInstr, MachineInstr) -> bool, i: nat)
    requires i < |acc|
    ensures ProcessedEdges(acc, chain, i, |acc|) == ProcessedEdges(acc, chain, i + 1, 0)
  {
  }

  lemma ProcessedEnds(acc: seq<MachineInstr>, chain: (MachineInstr, MachineInstr) -> bool)
    ensures ProcessedEdges(acc, chain, 0, 0) == {}
    ensures ProcessedEdges(acc, chain, |acc|, 0) == ChainEdges(acc, chain)
  {
  }

  /**
   * The pairwise merging loop: afterwards two accesses share a label exactly
   * when a chain of merging pairs connects them.
   */
  method MergeAliasing(acc: seq<MachineInstr>, chain: (MachineInstr, MachineInstr) -> bool) returns (lab: seq<nat>)
    ensures |lab| == |acc|
    ensures IsLabelling(lab)
    ensures forall x, y :: 0 <= x < |acc| && 0 <= y < |acc| ==> (lab[x] == lab[y] <==> Connected(acc, chain, x, y))
  {
    var n := |acc|;
    lab := seq(n, x requires 0 <= x < n => x);
    ProcessedEnds(acc, chain);
    forall x, y | 0 <= x < n && 0 <= y < n && Conn({}, x, y)
      ensures x == y
    {
      ConnEmpty(x, y);
    }
    forall x | 0 <= x < n
      ensures Conn({}, x, x)
    {
      ConnRefl({}, x);
    }
    for i := 0 to n
      invariant |lab| == n && IsLabelling(lab)
      invariant LabelsMatch(lab, ProcessedEdges(acc, chain, i, 0))
    {
      for j := 0 to n
        invariant |lab| == n && IsLabelling(lab)
        invariant LabelsMatch(lab, ProcessedEdges(acc, chain, i, j))
      {
        ProcessedStep(acc, chain, i, j);
        if NeedsEdge(acc, chain, i, j) {
          UnionMatches(lab, ProcessedEdges(acc, chain, i, j), i, j);
          lab := Union(lab, i, j);
        }
      }
      ProcessedRow(acc, chain, i);
    }
  }

  /* ---------------------------------------------------------------------- */
  /* Numbering the classes                                                    */
  /* ---------------------------------------------------------------------- */

  /** Some element carries the number `q`. */
  predicate Used(ids: seq<nat>, q: nat) {
    exists x :: 0 <= x < |ids| && ids[x] == q
  }

  /** The order in which the container lists its elements: each index exactly once. */
  predicate IsOrder(order: seq<nat>, n: nat) {
    |order| == n &&
    (forall t :: 0 <= t < n ==> order[t] < n) &&
    (forall x :: 0 <= x < n ==> x in order) &&
    (forall s, t :: 0 <= s < t < n ==> order[s] != order[t])
  }

  /**
   * The numbering loop: each leader met in `order` gives all members of its
   * class the next number. Equal numbers mean equal labels, and the numbers
   * used are exactly 0 .. count-1.
   */
  method NumberClasses(lab: seq<nat>, order: seq<nat>) returns (ids: seq<nat>, count: nat)
    requires IsLabelling(lab) && IsOrder(order, |lab|)
    ensures |ids| == |lab|
    ensures forall x :: 0 <= x < |lab| ==> ids[x] < count
    ensures forall q :: 0 <= q < count ==> Used(ids, q)
    ensures forall x, y :: 0 <= x < |lab| && 0 <= y < |lab| ==> (ids[x] == ids[y] <==> lab[x] == lab[y])
  {
    var n := |lab|;
    ids := seq(n, x requires 0 <= x < n => 0);
    count := 0;
    ghost var leaders: seq<nat> := [];
    for t := 0 to n
      invariant |ids| == n && |leaders| == count
      invariant forall q :: 0 <= q < count ==> leaders[q] < n && lab[leaders[q]] == leaders[q] && leaders[q] in order[..t]
      invariant forall q, r :: 0 <= q < r < count ==> leaders[q] != leaders[r]
      invariant forall x :: 0 <= x < n && lab[x] in order[..t] ==> ids[x] < count && leaders[ids[x]] == lab[x]
    {
      var leader := order[t];
      assert order[..t + 1] == order[..t] + [leader];
      if lab[leader] == leader {
        assert leader !in order[..t];
        var before := ids;
        for z := 0 to n
          invariant |ids| == n
          invariant forall w :: 0 <= w < z ==> ids[w] == if lab[w] == leader then count else before[w]
          invariant forall w :: z <= w < n ==> ids[w] == before[w]
        {
          if lab[z] == leader {
            ids := ids[z := count];
          }
        }
        leaders := leaders + [leader];
        count := count + 1;
      }
    }
    assert order[..n] == order;
    forall q | 0 <= q < count
      ensures Used(ids, q)
    {
      var l := leaders[q];
      assert lab[l] in order;
      assert ids[l] < count && leaders[ids[l]] == leaders[q];
    }
    forall x, y | 0 <= x < n && 0 <= y < n
      ensures ids[x] == ids[y] <==> lab[x] == lab[y]
    {
      assert lab[x] in order && lab[y] in order;
    }
  }

  /**
   * Partition numbers of a block's accesses: numbers 0 .. count-1, all used,
   * and two accesses share a number exactly when they are connected.
   */
  ghost predicate IsPartition(acc: seq<MachineInstr>, chain: (MachineInstr, MachineInstr) -> bool, ids: seq<nat>, count: nat) {
    |ids| == |acc| &&
    (forall x :: 0 <= x < |acc| ==> ids[x] < count) &&
    (forall q :: 0 <= q < count ==> Used(ids, q)) &&
    (forall x, y :: 0 <= x < |acc| && 0 <= y < |acc| ==> (ids[x] == ids[y] <==> Connected(acc, chain, x, y)))
  }

  /** The per-block analysis: collect, merge, number. */
  method PartitionBlock(block: MachineBasicBlock, chain: (MachineInstr, MachineInstr) -> bool, order: seq<nat>)
    returns (ids: seq<nat>, count: nat)
    requires IsOrder(order, |Accesses(block)|)
    ensures IsPartition(Accesses(block), chain, ids, count)
  {
    var acc := CollectAccesses(block);
    var lab := MergeAliasing(acc, chain);
    ids, count := NumberClasses(lab, order);
  }

  /** The collecting loop over the block. */
  method CollectAccesses(block: MachineBasicBlock) returns (acc: seq<MachineInstr>)
    ensures acc == Accesses(block)
  {
    acc := [];
    for i := 0 to |block|
      invariant acc == Accesses(block[..i])
    {
      RankStep(block, i);
      if IsAccess(block[i]) {
        acc := acc + [block[i]];
      }
    }
    assert block[..|block|] == block;
  }

  /* ---------------------------------------------------------------------- */
  /* Annotation                                                               */
  /* ---------------------------------------------------------------------- */

  /** The operand attached to an access of partition `p`. */
  function PartitionOperand(p: nat): MachineOperand {
    MetadataOperand([MDString("unison-memory-partition"), MDConstant(p)])
  }

  /** The partition number of the access at position `i`. */
  function AccessPartition(block: MachineBasicBlock, ids: seq<nat>, i: nat): nat
    requires |ids| == |Accesses(block)| && i < |block| && IsAccess(block[i])
  {
    RankOfAccess(block, i);
    ids[Rank(block, i)]
  }

  function AnnotateInstr(block: MachineBasicBlock, ids: seq<nat>, i: nat): MachineInstr
    requires i < |block| && |ids| == |Accesses(block)|
  {
    if IsAccess(block[i]) then AddOperand(block[i], PartitionOperand(AccessPartition(block, ids, i)))
    else block[i]
  }

  /** The block after the annotation loop, given its accesses' partitions. */
  function AnnotateBlock(block: MachineBasicBlock, ids: seq<nat>): (r: MachineBasicBlock)
    requires |ids| == |Accesses(block)|
    ensures |r| == |block|
    ensures forall i :: 0 <= i < |block| ==> r[i] == AnnotateInstr(block, ids, i)
  {
    seq(|block|, i requires 0 <= i < |block| => AnnotateInstr(block, ids, i))
  }

  /** The annotation loop, counting accesses as it goes. */
  method AnnotateBlockOperands(block: MachineBasicBlock, ids: seq<nat>) returns (res: MachineBasicBlock, changed: bool)
    requires |ids| == |Accesses(block)|
    ensures res == AnnotateBlock(block, ids)
    ensures changed <==> |Accesses(block)| > 0
  {
    res, changed := block, false;
    var k := 0;
    for i := 0 to |block|
      invariant |res| == |block| && k == Rank(block, i)
      invariant forall w :: 0 <= w < i ==> res[w] == AnnotateInstr(block, ids, w)
      invariant forall w :: i <= w < |block| ==> res[w] == block[w]
      invariant changed <==> k > 0
    {
      RankStep(block, i);
      if IsAccess(block[i]) {
        RankOfAccess(block, i);
        res := res[i := AddOperand(block[i], PartitionOperand(ids[k]))];
        changed := true;
        k := k + 1;
      }
    }
    assert block[..|block|] == block;
  }

  /**
   * The identity of an instruction, the key of the pass's `MP`: the function
   * it belongs to, its block and its position in that block.
   */
  type InstrKey = (nat, nat, nat)

  /** Partitions of block `b` of function `f`, access by access (its entries in `MP`). */
  function PartitionMap(f: nat, b: nat, block: MachineBasicBlock, ids: seq<nat>): (m: map<InstrKey, nat>)
    requires |ids| == |Accesses(block)|
    ensures forall i :: 0 <= i < |block| ==> ((f, b, i) in m <==> IsAccess(block[i]))
    ensures forall i :: 0 <= i < |block| && IsAccess(block[i]) ==> m[(f, b, i)] == AccessPartition(block, ids, i)
    ensures forall key :: key in m ==> key.0 == f && key.1 == b && key.2 < |block|
  {
    map i: nat | i < |block| && IsAccess(block[i]) :: (f, b, i) := AccessPartition(block, ids, i)
  }

  predicate HasAccess(blocks: seq<MachineBasicBlock>) {
    exists b :: 0 <= b < |blocks| && |Accesses(blocks[b])| > 0
  }

  /**
   * The analysis pass; `mp` maps each access, identified by function, block
   * and position, to its partition, across all the functions it has run on.
   */
  class MemoryAliasPass {
    var mp: map<InstrKey, nat>

    constructor ()
      ensures mp == map[]
    {
      mp := map[];
    }

    /** `getAccessPartition`: `MP.at`, which fails for an instruction that is not a recorded access. */
    function GetAccessPartition(f: nat, b: nat, i: nat): (r: Option<nat>)
      reads this
      ensures r.Some? <==> (f, b, i) in mp
      ensures r.Some? ==> r.value == mp[(f, b, i)]
    {
      if (f, b, i) in mp then Some(mp[(f, b, i)]) else None
    }

    /**
     * `MemoryAlias::runOnMachineFunction`: each block is partitioned and
     * annotated; `partitions[b]` and `counts[b]` are block `b`'s numbering.
     * `f` identifies the function; entries of other functions are kept.
     */
    method RunOnMachineFunction(f: nat, mf: MachineFunction, chain: (MachineInstr, MachineInstr) -> bool, orders: seq<seq<nat>>)
      returns (changed: bool, partitions: seq<seq<nat>>, counts: seq<nat>)
      requires |orders| == |mf.blocks|
      requires forall b :: 0 <= b < |mf.blocks| ==> IsOrder(orders[b], |Accesses(mf.blocks[b])|)
      modifies this, mf
      ensures |partitions| == |counts| == |mf.blocks| == |old(mf.blocks)|
      ensures forall b :: 0 <= b < |mf.blocks| ==>
        BlockRecorded(f, b, old(mf.blocks)[b], chain, partitions[b], counts[b], mf.blocks[b], mp, old(mp))
      ensures forall key: InstrKey :: key.0 != f || key.1 >= |mf.blocks| ==> (key in mp <==> key in old(mp))
      ensures forall key: InstrKey :: key in old(mp) && (key.0 != f || key.1 >= |mf.blocks|) ==> mp[key] == old(mp)[key]
      ensures changed <==> HasAccess(old(mf.blocks))
    {
      var blocks, m := mf.blocks, mp;
      ghost var blocks0, m0 := mf.blocks, mp;
      changed, partitions, counts := false, [], [];
      var b := 0;
      while b < |blocks|
        invariant 0 <= b <= |blocks| == |blocks0|
        invariant |partitions| == |counts| == b
        invariant forall c :: 0 <= c < b ==>
          BlockRecorded(f, c, blocks0[c], chain, partitions[c], counts[c], blocks[c], m, m0)
        invariant forall c :: b <= c < |blocks| ==> blocks[c] == blocks0[c]
        invariant forall key: InstrKey :: key.0 != f || key.1 >= b ==> (key in m <==> key in m0)
        invariant forall key: InstrKey :: key in m0 && (key.0 != f || key.1 >= b) ==> m[key] == m0[key]
        invariant changed <==> exists c :: 0 <= c < b && |Accesses(blocks0[c])| > 0
      {
        var block := blocks[b];
        var ids, count := PartitionBlock(block, chain, orders[b]);
        var annotated, blockChanged := AnnotateBlockOperands(block, ids);
        var recorded := PartitionMap(f, b, block, ids);
        forall c | 0 <= c < b
          ensures BlockRecorded(f, c, blocks0[c], chain, partitions[c], counts[c], blocks[c], m + recorded, m0)
        {
          BlockRecordedFrame(f, c, blocks0[c], chain, partitions[c], counts[c], blocks[c], m, m0, recorded);
        }
        RecordNewBlock(f, b, block, chain, ids, count, annotated, m, m0);
        m := m + recorded;
        blocks := blocks[b := annotated];
        partitions := partitions + [ids];
        counts := counts + [count];
        changed := changed || blockChanged;
        b := b + 1;
      }
      mf.blocks, mp := blocks, m;
    }
  }

  /**
   * Block `b` of function `f` has been analysed: `ids` and `count` number
   * its accesses, `annotated` is the block after annotation, and `m`
   * records, on top of `m0`, the partition of every access of the block.
   */
  ghost predicate BlockRecorded(f: nat, b: nat, block: MachineBasicBlock, chain: (MachineInstr, MachineInstr) -> bool,
                                ids: seq<nat>, count: nat, annotated: MachineBasicBlock,
                                m: map<InstrKey, nat>, m0: map<InstrKey, nat>) {
    IsPartition(Accesses(block), chain, ids, count) &&
    annotated == AnnotateBlock(block, ids) &&
    forall i :: 0 <= i < |block| ==>
      ((f, b, i) in m <==> (f, b, i) in m0 || IsAccess(block[i])) &&
      (IsAccess(block[i]) ==> m[(f, b, i)] == AccessPartition(block, ids, i))
  }

  /** Recording block `b`'s partitions establishes what the pass promises for it. */
  lemma RecordNewBlock(f: nat, b: nat, block: MachineBasicBlock, chain: (MachineInstr, MachineInstr) -> bool,
                       ids: seq<nat>, count: nat, annotated: MachineBasicBlock,
                       m: map<InstrKey, nat>, m0: map<InstrKey, nat>)
    requires IsPartition(Accesses(block), chain, ids, count) && annotated == AnnotateBlock(block, ids)
    requires forall i: nat :: (f, b, i) in m <==> (f, b, i) in m0
    ensures BlockRecorded(f, b, block, chain, ids, count, annotated, m + PartitionMap(f, b, block, ids), m0)
  {
  }

  /** Recording another block's partitions keeps what was recorded for block `b`. */
  lemma BlockRecordedFrame(f: nat, b: nat, block: MachineBasicBlock, chain: (MachineInstr, MachineInstr) -> bool,
                           ids: seq<nat>, count: nat, annotated: MachineBasicBlock,
                           m: map<InstrKey, nat>, m0: map<InstrKey, nat>, extra: map<InstrKey, nat>)
    requires BlockRecorded(f, b, block, chain, ids, count, annotated, m, m0)
    requires forall key :: key in extra ==> key.1 != b
    ensures BlockRecorded(f, b, block, chain, ids, count, annotated, m + extra, m0)
  {
    forall i | 0 <= i < |block|
      ensures (f, b, i) !in extra
    {
    }
  }

  /* ---------------------------------------------------------------------- */
  /* Properties                                                               */
  /* ---------------------------------------------------------------------- */

  /** Being in one partition is an equivalence relation on a block's accesses. */
  lemma ConnectedIsEquivalence(acc: seq<MachineInstr>, chain: (MachineInstr, MachineInstr) -> bool, x: nat, y: nat, z: nat)
    ensures Connected(acc, chain, x, x)
    ensures Connected(acc, chain, x, y) ==> Connected(acc, chain, y, x)
    ensures Connected(acc, chain, x, y) && Connected(acc, chain, y, z) ==> Connected(acc, chain, x, z)
  {
    var E := ChainEdges(acc, chain);
    ConnRefl(E, x);
    if Conn(E, x, y) {
      ConnSym(E, x, y);
      if Conn(E, y, z) {
        ConnTrans(E, x, y, z);
      }
    }
  }

  /** Two accesses that may alias, one of them a store, share a partition. */
  lemma AliasingAccessesShare(acc: seq<MachineInstr>, chain: (MachineInstr, MachineInstr) -> bool, ids: seq<nat>, count: nat, x: nat, y: nat)
    requires IsPartition(acc, chain, ids, count)
    requires x < |acc| && y < |acc| && NeedsEdge(acc, chain, x, y)
    ensures ids[x] == ids[y]
  {
    assert (x, y) in ChainEdges(acc, chain);
    ConnEdge(ChainEdges(acc, chain), x, y);
    assert Connected(acc, chain, x, y);
  }

  /** Loads never force a merge: a block without stores gives every access its own partition. */
  lemma LoadsStaySeparate(acc: seq<MachineInstr>, chain: (MachineInstr, MachineInstr) -> bool, ids: seq<nat>, count: nat)
    requires IsPartition(acc, chain, ids, count)
    requires forall x :: 0 <= x < |acc| ==> !acc[x].mayStore
    ensures forall x, y :: 0 <= x < |acc| && 0 <= y < |acc| && ids[x] == ids[y] ==> x == y
  {
    assert ChainEdges(acc, chain) == {};
    forall x, y | 0 <= x < |acc| && 0 <= y < |acc| && ids[x] == ids[y]
      ensures x == y
    {
      assert Connected(acc, chain, x, y);
      assert Conn({}, x, y);
      ConnEmpty(x, y);
    }
  }

  /** The grouping, unlike the numbers, does not depend on the container's iteration order. */
  lemma GroupingIndependentOfOrder(acc: seq<MachineInstr>, chain: (MachineInstr, MachineInstr) -> bool,
                                   ids1: seq<nat>, count1: nat, ids2: seq<nat>, count2: nat, x: nat, y: nat)
    requires IsPartition(acc, chain, ids1, count1) && IsPartition(acc, chain, ids2, count2)
    requires x < |acc| && y < |acc|
    ensures ids1[x] == ids1[y] <==> ids2[x] == ids2[y]
  {
  }

  /**
   * Reading the annotation back: the last operand of two annotated accesses
   * is the same exactly when the two accesses are connected.
   */
  lemma AnnotationsAgreeIffConnected(block: MachineBasicBlock, chain: (MachineInstr, MachineInstr) -> bool,
                                     ids: seq<nat>, count: nat, i: nat, j: nat)
    requires IsPartition(Accesses(block), chain, ids, count)
    requires i < |block| && j < |block| && IsAccess(block[i]) && IsAccess(block[j])
    ensures var a, c := AnnotateBlock(block, ids)[i], AnnotateBlock(block, ids)[j];
      a.operands[|a.operands| - 1] == c.operands[|c.operands| - 1]
      <==> Connected(Accesses(block), chain, Rank(block, i), Rank(block, j))
  {
    RankOfAccess(block, i);
    RankOfAccess(block, j);
  }

  /** Every access is annotated; nothing else in the block changes. */
  lemma AnnotateBlockShape(block: MachineBasicBlock, ids: seq<nat>, i: nat)
    requires |ids| == |Accesses(block)| && i < |block|
    ensures IsAccess(block[i]) ==>
      AnnotateBlock(block, ids)[i].operands[..|block[i].operands|] == block[i].operands &&
      |AnnotateBlock(block, ids)[i].operands| == |block[i].operands| + 1 &&
      HasStringKey(AnnotateBlock(block, ids)[i].operands[|block[i].operands|], "unison-memory-partition")
    ensures !IsAccess(block[i]) ==> AnnotateBlock(block, ids)[i] == block[i]
    ensures AnnotateBlock(block, ids)[i].(operands := block[i].operands) == block[i]
  {
  }

  /** The metadata cleaner removes every partition annotation again. */
  lemma CleanUndoesPartitions(block: MachineBasicBlock, ids: seq<nat>)
    requires |ids| == |Accesses(block)|
    ensures CleanUnisonMetadata.CleanBlock(AnnotateBlock(block, ids)) == CleanUnisonMetadata.CleanBlock(block)
  {
    forall i | 0 <= i < |block|
      ensures CleanUnisonMetadata.CleanInstr(AnnotateInstr(block, ids, i)) == CleanUnisonMetadata.CleanInstr(block[i])
    {
      CleanUndoesPartition(block, ids, i);
    }
  }

  lemma CleanUndoesPartition(block: MachineBasicBlock, ids: seq<nat>, i: nat)
    requires |ids| == |Accesses(block)| && i < |block|
    ensures CleanUnisonMetadata.CleanInstr(AnnotateInstr(block, ids, i)) == CleanUnisonMetadata.CleanInstr(block[i])
  {
    if IsAccess(block[i]) {
      var op := PartitionOperand(AccessPartition(block, ids, i));
      PartitionOperandIsUnison(AccessPartition(block, ids, i));
      CleanUnisonMetadata.KeepOperandsAppend(block[i].operands, [op]);
      assert CleanUnisonMetadata.KeepOperands([op]) == [] by {
        assert [op][1..] == [];
      }
    }
  }

  lemma PartitionOperandIsUnison(p: nat)
    ensures CleanUnisonMetadata.IsUnisonMetadata(PartitionOperand(p))
  {
    assert "unison-memory-partition"[..|"unison"|] == "unison";
  }
}
