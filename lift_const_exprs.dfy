/**
 * The pass that lifts constant expressions into instructions. An operand that
 * is a liftable constant expression becomes a new instruction placed before
 * its user, or before the incoming block's terminator when the user is a phi.
 * The new instructions are scanned in turn until no operand holds a liftable
 * expression.
 *
 * Values are trees: a constant expression lists its operands, an instruction
 * is referred to by its index in the function's instruction table, and every
 * other value (argument, global, plain constant) is opaque. The block layout
 * lists instruction indices in order, so an instruction created without an
 * insertion point is in the table but not in the layout.
 */
module LiftConstExprs {

  import opened Wrappers

  /** The constant-expression opcodes of the IR. */
  datatype Opcode =
    | ICmp | FCmp
    | PtrToInt | IntToPtr | Trunc | ZExt | SExt | FPTrunc | FPExt
    | UIToFP | SIToFP | FPToUI | FPToSI | AddrSpaceCast | BitCast
    | Select | ExtractElement | ExtractValue | InsertElement | InsertValue
    | ShuffleVector | GetElementPtr
    | Add | FAdd | Sub | FSub | Mul | FMul | UDiv | SDiv | FDiv
    | URem | SRem | FRem | Shl | LShr | AShr | And | Or | Xor

  predicate IsCast(op: Opcode) {
    op.PtrToInt? || op.IntToPtr? || op.Trunc? || op.ZExt? || op.SExt? || op.FPTrunc? || op.FPExt? ||
    op.UIToFP? || op.SIToFP? || op.FPToUI? || op.FPToSI? || op.AddrSpaceCast? || op.BitCast?
  }

  predicate IsCompare(op: Opcode) {
    op.ICmp? || op.FCmp?
  }

  /** The opcodes whose constant expressions are liftable whatever their operands. */
  predicate AlwaysLiftable(op: Opcode) {
    IsCompare(op) || IsCast(op) || op.Select? || op.ExtractElement? || op.ExtractValue? ||
    op.InsertElement? || op.InsertValue? || op.ShuffleVector? || op.GetElementPtr?
  }

  /** The binary opcodes the lifter turns into a binary operator. */
  predicate IsLiftedBinary(op: Opcode) {
    op.Add? || op.Sub? || op.Mul? || op.UDiv? || op.SDiv? || op.FDiv? || op.URem? ||
    op.SRem? || op.FRem? || op.Shl? || op.AShr? || op.And? || op.Or? || op.Xor?
  }

  /** The opcodes the lifter has a case for. */
  predicate Handled(op: Opcode) {
    IsCast(op) || IsLiftedBinary(op) || IsCompare(op) || op.ExtractElement? ||
    op.GetElementPtr? || op.InsertElement? || op.InsertValue? || op.Select?
  }

  /** How many operands a constant expression with opcode `op` has. */
  predicate ArityOk(op: Opcode, n: nat) {
    if op.GetElementPtr? then n >= 1
    else if IsCast(op) || op.ExtractValue? then n == 1
    else if op.Select? || op.InsertElement? || op.ShuffleVector? then n == 3
    else n == 2
  }

  datatype Value =
    | Opaque(n: nat)
    | InstRef(id: nat)
    | ConstExpr(op: Opcode, ty: nat, operands: seq<Value>, pred: nat, indices: seq<nat>)

  /** Every constant expression in `v` has as many operands as its opcode takes. */
  predicate WellFormed(v: Value) {
    v.ConstExpr? ==>
      ArityOk(v.op, |v.operands|) && forall i :: 0 <= i < |v.operands| ==> WellFormed(v.operands[i])
  }

  /** `hasLiftableConstExpr`: whether `v` is a constant expression worth lifting. */
  predicate Liftable(v: Value) {
    v.ConstExpr? &&
    (AlwaysLiftable(v.op) || exists i :: 0 <= i < |v.operands| && Liftable(v.operands[i]))
  }

  /** A chain of constant expressions, each an operand of the one before. */
  ghost predicate ExprChain(p: seq<Value>) {
    |p| >= 1 &&
    (forall k :: 0 <= k < |p| ==> p[k].ConstExpr?) &&
    (forall k :: 0 <= k < |p| - 1 ==> p[k + 1] in p[k].operands)
  }

  /**
   * A value is liftable exactly when it is a constant expression from which a
   * chain of constant expressions leads to one whose opcode is always
   * liftable; anything that is not a constant expression never is.
   */
  lemma {:induction false} LiftableIffChain(v: Value)
    ensures !v.ConstExpr? ==> !Liftable(v)
    ensures Liftable(v) <==> exists p: seq<Value> :: ExprChain(p) && p[0] == v && AlwaysLiftable(p[|p| - 1].op)
  {
    if Liftable(v) {
      var p := LiftableChain(v);
    }
    if p: seq<Value> :| ExprChain(p) && p[0] == v && AlwaysLiftable(p[|p| - 1].op) {
      ChainLiftable(p);
    }
  }

  lemma {:induction false} LiftableChain(v: Value) returns (p: seq<Value>)
    requires Liftable(v)
    ensures ExprChain(p) && p[0] == v && AlwaysLiftable(p[|p| - 1].op)
    decreases v
  {
    if AlwaysLiftable(v.op) {
      p := [v];
    } else {
      var i :| 0 <= i < |v.operands| && Liftable(v.operands[i]);
      var q := LiftableChain(v.operands[i]);
      p := [v] + q;
      assert p[1] == v.operands[i];
    }
  }

  lemma {:induction false} ChainLiftable(p: seq<Value>)
    requires ExprChain(p) && AlwaysLiftable(p[|p| - 1].op)
    ensures Liftable(p[0])
    decreases |p|
  {
    if |p| > 1 {
      var q := p[1..];
      assert ExprChain(q) by {
        forall k | 0 <= k < |q| - 1
          ensures q[k + 1] in q[k].operands
        {
          assert q[k] == p[k + 1];
        }
      }
      ChainLiftable(q);
      var i :| 0 <= i < |p[0].operands| && p[0].operands[i] == p[1];
    }
  }

  datatype Kind =
    | Phi
    | Terminator
    | Plain
      /** A lifted instruction: its opcode, the cast's destination type, the compare predicate, the insertvalue indices. */
    | Lifted(op: Opcode, castTo: Option<nat>, pred: Option<nat>, indices: seq<nat>)

  /** An instruction: what it is, its operands and, for a phi, the incoming block of each operand. */
  datatype Instr = Instr(kind: Kind, operands: seq<Value>, incoming: seq<nat>)

  /**
   * `liftConstExpr`, the opcode mapping: the instruction that computes `ce`
   * from `ce`'s own operands in order, or None for the opcodes it has no case
   * for (the source stops on an assertion there).
   */
  function Lift(ce: Value): (r: Option<Instr>)
    requires ce.ConstExpr? && ArityOk(ce.op, |ce.operands|)
    ensures r.Some? <==> Handled(ce.op)
    ensures r.Some? ==> r.value.operands == ce.operands && r.value.incoming == []
    ensures r.Some? ==> r.value.kind.Lifted? && r.value.kind.op == ce.op
    ensures r.Some? ==> r.value.kind.castTo == if IsCast(ce.op) then Some(ce.ty) else None
    ensures r.Some? ==> r.value.kind.pred == if IsCompare(ce.op) then Some(ce.pred) else None
    ensures r.Some? ==> r.value.kind.indices == (if ce.op.InsertValue? then ce.indices else [])
  {
    var ops := ce.operands;
    if IsCast(ce.op) then
      Some(Instr(Lifted(ce.op, Some(ce.ty), None, []), [ops[0]], []))
    else if IsLiftedBinary(ce.op) then
      Some(Instr(Lifted(ce.op, None, None, []), [ops[0], ops[1]], []))
    else if IsCompare(ce.op) then
      Some(Instr(Lifted(ce.op, None, Some(ce.pred), []), [ops[0], ops[1]], []))
    else if ce.op.ExtractElement? then
      Some(Instr(Lifted(ce.op, None, None, []), [ops[0], ops[1]], []))
    else if ce.op.GetElementPtr? then
      Some(Instr(Lifted(ce.op, None, None, []), [ops[0]] + ops[1..], []))
    else if ce.op.InsertElement? || ce.op.Select? then
      Some(Instr(Lifted(ce.op, None, None, []), [ops[0], ops[1], ops[2]], []))
    else if ce.op.InsertValue? then
      Some(Instr(Lifted(ce.op, None, None, ce.indices), [ops[0], ops[1]], []))
    else
      None
  }

  /**
   * The classifier accepts more than the lifter handles: an extractvalue or
   * shufflevector expression is liftable but has no case, and so has a
   * logical shift right or a floating-point add, subtract or multiply over a
   * liftable operand.
   */
  lemma ClassifiedButUnhandled(v: Value)
    requires v.ConstExpr? && ArityOk(v.op, |v.operands|)
    requires v.op.ExtractValue? || v.op.ShuffleVector? ||
             ((v.op.LShr? || v.op.FAdd? || v.op.FSub? || v.op.FMul?) && Liftable(v.operands[0]))
    ensures Liftable(v) && Lift(v).None?
  {
  }

  /** How much constant-expression structure `v` holds: one per constant-expression node. */
  function Weight(v: Value): nat
    decreases v, 1
  {
    if v.ConstExpr? then 1 + WeightOf(v.operands) else 0
  }

  function WeightOf(vs: seq<Value>): nat
    decreases vs, 0
  {
    if vs == [] then 0 else WeightOf(vs[..|vs| - 1]) + Weight(vs[|vs| - 1])
  }

  /** Values that are pointwise no heavier, and lighter by `d` at `j`, weigh at least `d` less in all. */
  lemma {:induction false} WeightDrop(a: seq<Value>, b: seq<Value>, j: nat, d: nat)
    requires |a| == |b| && j < |a|
    requires forall i :: 0 <= i < |a| ==> Weight(a[i]) <= Weight(b[i])
    requires Weight(a[j]) + d <= Weight(b[j])
    ensures WeightOf(a) + d <= WeightOf(b)
    decreases |a|
  {
    var n := |a| - 1;
    if j == n {
      WeightDrop0(a[..n], b[..n]);
    } else {
      WeightDrop(a[..n], b[..n], j, d);
    }
  }

  lemma {:induction false} WeightDrop0(a: seq<Value>, b: seq<Value>)
    requires |a| == |b|
    requires forall i :: 0 <= i < |a| ==> Weight(a[i]) <= Weight(b[i])
    ensures WeightOf(a) <= WeightOf(b)
    decreases |a|
  {
    if a != [] {
      WeightDrop0(a[..|a| - 1], b[..|b| - 1]);
    }
  }

  function OperandWeight(ins: Instr): nat {
    WeightOf(ins.operands)
  }

  /** The constant-expression structure left in all operands of the table. */
  function Total(instrs: seq<Instr>): nat {
    if instrs == [] then 0 else Total(instrs[..|instrs| - 1]) + OperandWeight(instrs[|instrs| - 1])
  }

  lemma TotalAppend(instrs: seq<Instr>, ins: Instr)
    ensures Total(instrs + [ins]) == Total(instrs) + OperandWeight(ins)
  {
    assert (instrs + [ins])[..|instrs|] == instrs;
  }

  lemma {:induction false} TotalUpdate(instrs: seq<Instr>, id: nat, ins: Instr)
    requires id < |instrs|
    ensures Total(instrs[id := ins]) + OperandWeight(instrs[id]) == Total(instrs) + OperandWeight(ins)
    decreases |instrs|
  {
    var n := |instrs| - 1;
    var u := instrs[id := ins];
    if id == n {
      assert u[..n] == instrs[..n];
    } else {
      assert u[..n] == instrs[..n][id := ins];
      TotalUpdate(instrs[..n], id, ins);
    }
  }

  /** Lifting moves all of an expression's structure but its own node into the new instruction. */
  lemma LiftWeight(ce: Value)
    requires ce.ConstExpr? && ArityOk(ce.op, |ce.operands|) && Lift(ce).Some?
    ensures OperandWeight(Lift(ce).value) + 1 == Weight(ce)
  {
  }

  /** `replaceUsesOfWith`: every operand equal to `x` becomes `y`. */
  function ReplaceAll(ops: seq<Value>, x: Value, y: Value): (r: seq<Value>)
    ensures |r| == |ops|
    ensures forall k :: 0 <= k < |ops| ==> r[k] == if ops[k] == x then y else ops[k]
  {
    seq(|ops|, k requires 0 <= k < |ops| => if ops[k] == x then y else ops[k])
  }

  /**
   * What the phi update writes: `v` into every incoming slot from `index` on
   * whose incoming block is that of slot `index`.
   */
  function Rerouted(phi: Instr, index: nat, upto: nat, v: Value): (r: seq<Value>)
    requires |phi.incoming| == |phi.operands| && index < |phi.operands|
    ensures |r| == |phi.operands|
    ensures forall j :: 0 <= j < |r| && (j < index || upto <= j) ==> r[j] == phi.operands[j]
    ensures forall j :: 0 <= j < |r| && phi.incoming[j] != phi.incoming[index] ==> r[j] == phi.operands[j]
    ensures forall j :: index <= j < upto && j < |r| && phi.incoming[j] == phi.incoming[index] ==> r[j] == v
  {
    seq(|phi.operands|, j requires 0 <= j < |phi.operands| =>
      if index <= j < upto && phi.incoming[j] == phi.incoming[index] then v else phi.operands[j])
  }

  /** No value of `ops` is liftable. */
  predicate Cleared(ops: seq<Value>) {
    forall k :: 0 <= k < |ops| ==> !Liftable(ops[k])
  }

  /** Some operand of the instruction is liftable. */
  predicate HasLiftable(ins: Instr) {
    exists k :: 0 <= k < |ins.operands| && Liftable(ins.operands[k])
  }

  predicate InstrOk(ins: Instr) {
    (ins.kind.Phi? ==> |ins.incoming| == |ins.operands|) &&
    forall k :: 0 <= k < |ins.operands| ==> WellFormed(ins.operands[k])
  }

  ghost predicate InLayout(layout: seq<seq<nat>>, id: nat) {
    exists b :: 0 <= b < |layout| && id in layout[b]
  }

  /** Every instruction index in `blk` is below `n`. */
  predicate Bounded(blk: seq<nat>, n: nat) {
    forall j :: 0 <= j < |blk| ==> blk[j] < n
  }

  /** `blk` with `x` placed before every occurrence of `at`. */
  function Spliced(blk: seq<nat>, x: nat, at: nat): (r: seq<nat>)
    ensures forall y :: y in r <==> y in blk || (y == x && at in blk)
  {
    if blk == [] then []
    else (if blk[0] == at then [x, at] else [blk[0]]) + Spliced(blk[1..], x, at)
  }

  lemma {:induction false} SplicedBounded(blk: seq<nat>, x: nat, at: nat, n: nat)
    requires Bounded(blk, n) && x < n
    ensures Bounded(Spliced(blk, x, at), n)
    decreases |blk|
  {
    if blk != [] {
      SplicedBounded(blk[1..], x, at, n);
    }
  }

  /** Inserting before an instruction that occurs once puts the new one right in front of it. */
  lemma {:induction false} SplicedAt(blk: seq<nat>, x: nat, at: nat, p: nat)
    requires p < |blk| && blk[p] == at
    requires forall j :: 0 <= j < |blk| && j != p ==> blk[j] != at
    ensures Spliced(blk, x, at) == blk[..p] + [x] + blk[p..]
    decreases |blk|
  {
    if p == 0 {
      assert Spliced(blk[1..], x, at) == blk[1..] by {
        SplicedMissing(blk[1..], x, at);
      }
    } else {
      SplicedAt(blk[1..], x, at, p - 1);
      assert blk[1..][..p - 1] == blk[1..p];
      assert blk[1..][p - 1..] == blk[p..];
    }
  }

  lemma {:induction false} SplicedMissing(blk: seq<nat>, x: nat, at: nat)
    requires at !in blk
    ensures Spliced(blk, x, at) == blk
    decreases |blk|
  {
    if blk != [] {
      SplicedMissing(blk[1..], x, at);
    }
  }

  function InsertBefore(layout: seq<seq<nat>>, x: nat, at: nat): (r: seq<seq<nat>>)
    ensures |r| == |layout| && forall b :: 0 <= b < |r| ==> r[b] == Spliced(layout[b], x, at)
  {
    seq(|layout|, b requires 0 <= b < |layout| => Spliced(layout[b], x, at))
  }

  /** The pushes of the initial scan for one instruction: one per liftable operand. */
  function OperandPushes(id: nat, ops: seq<Value>): (r: seq<nat>)
    ensures forall w :: w in r ==> w == id
  {
    if ops == [] then []
    else OperandPushes(id, ops[..|ops| - 1]) + (if Liftable(ops[|ops| - 1]) then [id] else [])
  }

  function BlockPushes(blk: seq<nat>, instrs: seq<Instr>): seq<nat>
    requires Bounded(blk, |instrs|)
  {
    if blk == [] then []
    else
      var id := blk[|blk| - 1];
      BlockPushes(blk[..|blk| - 1], instrs) + OperandPushes(id, instrs[id].operands)
  }

  /** The initial worklist: every instruction of the layout in order, once per liftable operand. */
  function Pushes(layout: seq<seq<nat>>, instrs: seq<Instr>): seq<nat>
    requires forall b :: 0 <= b < |layout| ==> Bounded(layout[b], |instrs|)
  {
    if layout == [] then []
    else Pushes(layout[..|layout| - 1], instrs) + BlockPushes(layout[|layout| - 1], instrs)
  }

  lemma {:induction false} OperandPushesIff(id: nat, ops: seq<Value>)
    ensures id in OperandPushes(id, ops) <==> HasLiftable(Instr(Plain, ops, []))
    decreases |ops|
  {
    if ops != [] {
      var init := ops[..|ops| - 1];
      OperandPushesIff(id, init);
      if HasLiftable(Instr(Plain, init, [])) {
        var k :| 0 <= k < |init| && Liftable(init[k]);
        assert ops[k] == init[k];
      }
      if k :| 0 <= k < |ops| - 1 && Liftable(ops[k]) {
        assert init[k] == ops[k];
      }
    }
  }

  lemma {:induction false} BlockPushesIff(blk: seq<nat>, instrs: seq<Instr>, w: nat)
    requires Bounded(blk, |instrs|)
    ensures w in BlockPushes(blk, instrs) <==> w in blk && HasLiftable(instrs[w])
    decreases |blk|
  {
    if blk != [] {
      var init, id := blk[..|blk| - 1], blk[|blk| - 1];
      assert blk == init + [id];
      BlockPushesIff(init, instrs, w);
      OperandPushesIff(id, instrs[id].operands);
      assert HasLiftable(instrs[id]) <==> HasLiftable(Instr(Plain, instrs[id].operands, []));
    }
  }

  /** An instruction is in the initial worklist exactly when it is laid out and has a liftable operand. */
  lemma {:induction false} PushesIff(layout: seq<seq<nat>>, instrs: seq<Instr>, w: nat)
    requires forall b :: 0 <= b < |layout| ==> Bounded(layout[b], |instrs|)
    ensures w in Pushes(layout, instrs) <==> InLayout(layout, w) && HasLiftable(instrs[w])
    decreases |layout|
  {
    if layout != [] {
      var n := |layout| - 1;
      var init := layout[..n];
      PushesIff(init, instrs, w);
      BlockPushesIff(layout[n], instrs, w);
      InLayoutSplit(layout, w);
    }
  }

  /** Being laid out is being laid out in the blocks before the last or in the last one. */
  lemma InLayoutSplit(layout: seq<seq<nat>>, w: nat)
    requires layout != []
    ensures InLayout(layout, w) <==> InLayout(layout[..|layout| - 1], w) || w in layout[|layout| - 1]
  {
    var n := |layout| - 1;
    var init := layout[..n];
    if InLayout(layout, w) {
      var b :| 0 <= b < |layout| && w in layout[b];
      if b < n {
        assert init[b] == layout[b];
      }
    }
    if InLayout(init, w) {
      var b :| 0 <= b < n && w in init[b];
      assert layout[b] == init[b];
    }
  }

  lemma InLayoutBounded(layout: seq<seq<nat>>, n: nat, w: nat)
    requires forall b :: 0 <= b < |layout| ==> Bounded(layout[b], n)
    requires InLayout(layout, w)
    ensures w < n
  {
    var b :| 0 <= b < |layout| && w in layout[b];
    var j :| 0 <= j < |layout[b]| && layout[b][j] == w;
  }

  /** Some laid-out instruction has a liftable operand. */
  ghost predicate AnyLiftable(layout: seq<seq<nat>>, instrs: seq<Instr>) {
    exists w: nat :: InLayout(layout, w) && w < |instrs| && HasLiftable(instrs[w])
  }

  /** The indices from `lo` up to `hi`, in order. */
  function Ids(lo: nat, hi: nat): seq<nat>
    decreases hi
  {
    if hi <= lo then [] else Ids(lo, hi - 1) + [hi - 1]
  }

  lemma {:induction false} IdsIff(lo: nat, hi: nat, j: nat)
    ensures j in Ids(lo, hi) <==> lo <= j < hi
    decreases hi
  {
    if lo < hi {
      IdsIff(lo, hi - 1, j);
    }
  }

  /**
   * The table only grows, only `id` among the old entries changes, keeping
   * its kind, incoming blocks and operand count, and `pushed` lists the new
   * entries in order.
   */
  ghost predicate Grown(before: seq<Instr>, after: seq<Instr>, id: nat, pushed: seq<nat>) {
    id < |before| <= |after| &&
    after[..|before|] == before[id := after[id]] &&
    after[id].kind == before[id].kind && after[id].incoming == before[id].incoming &&
    |after[id].operands| == |before[id].operands| &&
    pushed == Ids(|before|, |after|)
  }

  /** Every laid-out instruction was laid out before or is new. */
  ghost predicate LayoutGrown(before: seq<seq<nat>>, after: seq<seq<nat>>, n: nat) {
    forall w :: InLayout(after, w) ==> InLayout(before, w) || n <= w
  }

  /** Appending one instruction and updating `id` in place grows the table by that one instruction. */
  lemma GrownStep(before: seq<Instr>, ins: Instr, id: nat, y: Instr)
    requires id < |before| && y.kind == before[id].kind && y.incoming == before[id].incoming
    requires |y.operands| == |before[id].operands|
    ensures Grown(before, (before + [ins])[id := y], id, [|before|])
  {
    var after := (before + [ins])[id := y];
    assert after[..|before|] == before[id := after[id]];
    assert Ids(|before|, |before| + 1) == Ids(|before|, |before|) + [|before|];
  }

  lemma GrownTrans(a: seq<Instr>, b: seq<Instr>, c: seq<Instr>, id: nat, p1: seq<nat>, p2: seq<nat>)
    requires Grown(a, b, id, p1) && Grown(b, c, id, p2)
    ensures Grown(a, c, id, p1 + p2)
  {
    assert c[..|a|] == c[..|b|][..|a|];
    IdsAppend(|a|, |b|, |c|);
  }

  lemma {:induction false} IdsAppend(lo: nat, mid: nat, hi: nat)
    requires lo <= mid <= hi
    ensures Ids(lo, mid) + Ids(mid, hi) == Ids(lo, hi)
    decreases hi
  {
    if mid < hi {
      IdsAppend(lo, mid, hi - 1);
    }
  }

  lemma LayoutGrownTrans(a: seq<seq<nat>>, b: seq<seq<nat>>, c: seq<seq<nat>>, n: nat, m: nat)
    requires LayoutGrown(a, b, n) && LayoutGrown(b, c, m) && n <= m
    ensures LayoutGrown(a, c, n)
  {
  }

  /** Every instruction that is laid out or new and not waiting in `ws` has no liftable operand. */
  ghost predicate Done(instrs: seq<Instr>, ws: seq<nat>, layout0: seq<seq<nat>>, n0: nat) {
    forall id :: 0 <= id < |instrs| && (InLayout(layout0, id) || n0 <= id) && id !in ws ==> !HasLiftable(instrs[id])
  }

  /** The initial worklist is within the table, non-empty exactly when something is liftable, and leaves nothing out. */
  lemma InitialWorklist(layout: seq<seq<nat>>, instrs: seq<Instr>, ws: seq<nat>)
    requires forall b :: 0 <= b < |layout| ==> Bounded(layout[b], |instrs|)
    requires ws == Pushes(layout, instrs)
    ensures Bounded(ws, |instrs|)
    ensures |ws| > 0 <==> AnyLiftable(layout, instrs)
    ensures Done(instrs, ws, layout, |instrs|)
  {
    forall w: nat
      ensures w in ws ==> w < |instrs|
      ensures w in ws <==> InLayout(layout, w) && HasLiftable(instrs[w])
    {
      PushesIff(layout, instrs, w);
      if w in ws {
        InLayoutBounded(layout, |instrs|, w);
      }
    }
    forall j | 0 <= j < |ws|
      ensures ws[j] < |instrs|
    {
      assert ws[j] in ws;
    }
    if AnyLiftable(layout, instrs) {
      var w: nat :| InLayout(layout, w) && w < |instrs| && HasLiftable(instrs[w]);
      assert w in ws;
    }
    if |ws| > 0 {
      assert ws[0] in ws;
    }
  }

  /** Processing the last worklist item keeps `Done`: the item is cleared and everything new is pushed. */
  lemma DoneStep(before: seq<Instr>, after: seq<Instr>, ws: seq<nat>, pushed: seq<nat>,
                 layout0: seq<seq<nat>>, n0: nat)
    requires ws != [] && Done(before, ws, layout0, n0) && Bounded(ws, |before|) && n0 <= |before|
    requires Grown(before, after, ws[|ws| - 1], pushed) && !HasLiftable(after[ws[|ws| - 1]])
    ensures Done(after, ws[..|ws| - 1] + pushed, layout0, n0) && Bounded(ws[..|ws| - 1] + pushed, |after|)
  {
    var i, rest := ws[|ws| - 1], ws[..|ws| - 1];
    assert ws == rest + [i];
    forall id | 0 <= id < |after| && (InLayout(layout0, id) || n0 <= id) && id !in rest + pushed
      ensures !HasLiftable(after[id])
    {
      IdsIff(|before|, |after|, id);
      if id < |before| && id != i {
        assert after[id] == after[..|before|][id] == before[id];
        assert id !in rest + [i];
      }
    }
    forall j | 0 <= j < |rest + pushed|
      ensures (rest + pushed)[j] < |after|
    {
      if j >= |rest| {
        assert (rest + pushed)[j] in pushed;
        IdsIff(|before|, |after|, (rest + pushed)[j]);
      } else {
        assert (rest + pushed)[j] == ws[j];
      }
    }
  }

  class Function {
    var instrs: seq<Instr>
    var layout: seq<seq<nat>>

    ghost predicate Valid()
      reads this
    {
      (forall b :: 0 <= b < |layout| ==> Bounded(layout[b], |instrs|)) &&
      (forall id :: 0 <= id < |instrs| ==> InstrOk(instrs[id]))
    }

    constructor (instrs: seq<Instr>, layout: seq<seq<nat>>)
      ensures this.instrs == instrs && this.layout == layout
    {
      this.instrs := instrs;
      this.layout := layout;
    }

    /** `getTerminator` of block `b`: its last instruction when that is a terminator. */
    function TerminatorOf(b: nat): (r: Option<nat>)
      reads this
      ensures r.Some? <==> b < |layout| && layout[b] != [] && layout[b][|layout[b]| - 1] < |instrs| &&
                           instrs[layout[b][|layout[b]| - 1]].kind.Terminator?
      ensures r.Some? ==> r.value == layout[b][|layout[b]| - 1]
    {
      if b < |layout| && layout[b] != [] then
        var last := layout[b][|layout[b]| - 1];
        if last < |instrs| && instrs[last].kind.Terminator? then Some(last) else None
      else None
    }

    /**
     * `liftConstExpr` with its insertion point: appends the instruction for
     * `ce` to the table and lays it out before `at`, if there is one.
     */
    method LiftConstExpr(ce: Value, at: Option<nat>) returns (r: Option<nat>)
      requires Valid() && ce.ConstExpr? && WellFormed(ce)
      modifies this
      ensures Valid()
      ensures Lift(ce).None? ==> r.None? && instrs == old(instrs) && layout == old(layout)
      ensures Lift(ce).Some? ==>
        r == Some(old(|instrs|)) && instrs == old(instrs) + [Lift(ce).value] &&
        layout == if at.Some? then InsertBefore(old(layout), old(|instrs|), at.value) else old(layout)
      ensures LayoutGrown(old(layout), layout, old(|instrs|))
    {
      var lifted := Lift(ce);
      if lifted.None? {
        return None;
      }
      r := Some(|instrs|);
      instrs := instrs + [lifted.value];
      if at.Some? {
        forall b | 0 <= b < |layout|
          ensures Bounded(Spliced(layout[b], r.value, at.value), |instrs|)
        {
          SplicedBounded(layout[b], r.value, at.value, |instrs|);
        }
        layout := InsertBefore(layout, r.value, at.value);
      }
    }

    /** The phi update: `setIncomingValue` on every later slot from the same block. */
    method SetIncoming(p: nat, index: nat, v: Value)
      requires Valid() && p < |instrs| && instrs[p].kind.Phi? && index < |instrs[p].operands|
      requires WellFormed(v)
      modifies this`instrs
      ensures Valid()
      ensures instrs == old(instrs)[p := old(instrs[p]).(operands := Rerouted(old(instrs[p]), index, |old(instrs[p]).operands|, v))]
    {
      ghost var phi := instrs[p];
      assert Rerouted(phi, index, index, v) == phi.operands;
      for i2 := index to |instrs[p].operands|
        invariant p < |instrs| && instrs == old(instrs)[p := phi.(operands := Rerouted(phi, index, i2, v))]
        invariant Valid()
      {
        if instrs[p].incoming[i2] == instrs[p].incoming[index] {
          instrs := instrs[p := instrs[p].(operands := instrs[p].operands[i2 := v])];
          assert instrs[p].operands == Rerouted(phi, index, i2 + 1, v);
        } else {
          assert instrs[p].operands == Rerouted(phi, index, i2 + 1, v);
        }
      }
    }

    /**
     * One liftable incoming value of a phi: it is lifted before the terminator
     * of its incoming block, and the new instruction is written to its slot and
     * to the later slots from the same block.
     */
    method LiftIncoming(p: nat, index: nat) returns (r: Option<nat>)
      requires Valid() && p < |instrs| && instrs[p].kind.Phi? && index < |instrs[p].operands|
      requires Liftable(instrs[p].operands[index])
      modifies this
      ensures Valid()
      ensures r.Some? <==> Lift(old(instrs[p].operands[index])).Some?
      ensures r.None? ==> instrs == old(instrs) && layout == old(layout)
      ensures r.Some? ==>
        r.value == old(|instrs|) && |instrs| == old(|instrs|) + 1 &&
        instrs[p].operands == Rerouted(old(instrs[p]), index, |old(instrs[p].operands)|, InstRef(r.value)) &&
        instrs[r.value] == Lift(old(instrs[p].operands[index])).value
      ensures r.Some? && old(TerminatorOf(instrs[p].incoming[index])).Some? ==>
        layout == InsertBefore(old(layout), r.value, old(TerminatorOf(instrs[p].incoming[index])).value)
      ensures r.Some? && old(TerminatorOf(instrs[p].incoming[index])).None? ==> layout == old(layout)
      ensures r.Some? ==> Grown(old(instrs), instrs, p, [r.value])
      ensures LayoutGrown(old(layout), layout, old(|instrs|))
      ensures Total(instrs) + (if r.Some? then 1 else 0) <= Total(old(instrs))
      ensures r.Some? && Cleared(old(instrs[p].operands[..index])) ==> Cleared(instrs[p].operands[..index + 1])
    {
      var at := TerminatorOf(instrs[p].incoming[index]);
      var v := instrs[p].operands[index];
      ghost var before := instrs;
      r := LiftConstExpr(v, at);
      if r.None? {
        return;
      }
      LiftWeight(v);
      TotalAppend(before, Lift(v).value);
      ghost var mid := instrs;
      SetIncoming(p, index, InstRef(r.value));
      RerouteWeight(mid[p], index, InstRef(r.value));
      ReroutedCleared(mid[p], index, InstRef(r.value));
      TotalUpdate(mid, p, instrs[p]);
      assert instrs == mid[p := instrs[p]];
      GrownStep(before, Lift(v).value, p, instrs[p]);
    }

    /**
     * The phi case of the worklist loop: every liftable incoming value is
     * lifted in slot order. `ok` is false when the lifter has no case for the
     * expression.
     */
    method LiftPhi(p: nat) returns (pushed: seq<nat>, ok: bool)
      requires Valid() && p < |instrs| && instrs[p].kind.Phi?
      modifies this
      ensures Valid()
      ensures Grown(old(instrs), instrs, p, pushed) && LayoutGrown(old(layout), layout, old(|instrs|))
      ensures ok ==> !HasLiftable(instrs[p])
      ensures Total(instrs) + |pushed| <= Total(old(instrs))
    {
      pushed, ok := [], true;
      var index := 0;
      while ok && index < |instrs[p].incoming|
        invariant Valid() && Grown(old(instrs), instrs, p, pushed)
        invariant LayoutGrown(old(layout), layout, old(|instrs|))
        invariant index <= |instrs[p].operands|
        invariant ok ==> Cleared(instrs[p].operands[..index])
        invariant Total(instrs) + |pushed| <= Total(old(instrs))
      {
        if Liftable(instrs[p].operands[index]) {
          ghost var instrs0, layout0 := instrs, layout;
          var r := LiftIncoming(p, index);
          if r.Some? {
            GrownTrans(old(instrs), instrs0, instrs, p, pushed, [r.value]);
            LayoutGrownTrans(old(layout), layout0, layout, old(|instrs|), |instrs0|);
            pushed := pushed + [r.value];
          } else {
            ok := false;
          }
        } else {
          assert instrs[p].operands[..index + 1] == instrs[p].operands[..index] + [instrs[p].operands[index]];
        }
        index := index + 1;
      }
      if ok {
        assert instrs[p].operands[..|instrs[p].operands|] == instrs[p].operands;
      }
    }

    /**
     * One liftable operand of a user other than a phi: it is lifted before the
     * user, and every use of it in the user is replaced by the new instruction.
     */
    method LiftOperand(u: nat, index: nat) returns (r: Option<nat>)
      requires Valid() && u < |instrs| && index < |instrs[u].operands| && Liftable(instrs[u].operands[index])
      modifies this
      ensures Valid()
      ensures r.Some? <==> Lift(old(instrs[u].operands[index])).Some?
      ensures r.None? ==> instrs == old(instrs) && layout == old(layout)
      ensures r.Some? ==>
        r.value == old(|instrs|) && |instrs| == old(|instrs|) + 1 &&
        instrs[u].operands == ReplaceAll(old(instrs[u].operands), old(instrs[u].operands[index]), InstRef(r.value)) &&
        instrs[r.value] == Lift(old(instrs[u].operands[index])).value &&
        layout == InsertBefore(old(layout), r.value, u)
      ensures r.Some? ==> Grown(old(instrs), instrs, u, [r.value])
      ensures LayoutGrown(old(layout), layout, old(|instrs|))
      ensures Total(instrs) + (if r.Some? then 1 else 0) <= Total(old(instrs))
      ensures r.Some? && Cleared(old(instrs[u].operands[..index])) ==> Cleared(instrs[u].operands[..index + 1])
    {
      var v := instrs[u].operands[index];
      ghost var before := instrs;
      r := LiftConstExpr(v, Some(u));
      if r.None? {
        return;
      }
      LiftWeight(v);
      TotalAppend(before, Lift(v).value);
      ghost var mid := instrs;
      var user := instrs[u].(operands := ReplaceAll(instrs[u].operands, v, InstRef(r.value)));
      ReplaceWeight(mid[u].operands, index, v, InstRef(r.value));
      ReplaceCleared(mid[u].operands, index, v, InstRef(r.value));
      TotalUpdate(mid, u, user);
      instrs := instrs[u := user];
      GrownStep(before, Lift(v).value, u, user);
    }

    /**
     * The case of any other user: every liftable operand is lifted in operand
     * order and the new instructions are pushed. `ok` is false when the lifter
     * has no case for the expression.
     */
    method LiftUses(u: nat) returns (pushed: seq<nat>, ok: bool)
      requires Valid() && u < |instrs|
      modifies this
      ensures Valid()
      ensures Grown(old(instrs), instrs, u, pushed) && LayoutGrown(old(layout), layout, old(|instrs|))
      ensures ok ==> !HasLiftable(instrs[u])
      ensures Total(instrs) + |pushed| <= Total(old(instrs))
    {
      pushed, ok := [], true;
      var index := 0;
      while ok && index < |instrs[u].operands|
        invariant Valid() && Grown(old(instrs), instrs, u, pushed)
        invariant LayoutGrown(old(layout), layout, old(|instrs|))
        invariant index <= |instrs[u].operands|
        invariant ok ==> Cleared(instrs[u].operands[..index])
        invariant Total(instrs) + |pushed| <= Total(old(instrs))
      {
        if Liftable(instrs[u].operands[index]) {
          ghost var instrs0, layout0 := instrs, layout;
          var r := LiftOperand(u, index);
          if r.Some? {
            GrownTrans(old(instrs), instrs0, instrs, u, pushed, [r.value]);
            LayoutGrownTrans(old(layout), layout0, layout, old(|instrs|), |instrs0|);
            pushed := pushed + [r.value];
          } else {
            ok := false;
          }
        } else {
          assert instrs[u].operands[..index + 1] == instrs[u].operands[..index] + [instrs[u].operands[index]];
        }
        index := index + 1;
      }
      if ok {
        assert instrs[u].operands[..|instrs[u].operands|] == instrs[u].operands;
      }
    }

    /** One worklist item: the phi case or the case of any other user. */
    method LiftInstr(i: nat) returns (pushed: seq<nat>, ok: bool)
      requires Valid() && i < |instrs|
      modifies this
      ensures Valid()
      ensures Grown(old(instrs), instrs, i, pushed) && LayoutGrown(old(layout), layout, old(|instrs|))
      ensures ok ==> !HasLiftable(instrs[i])
      ensures Total(instrs) + |pushed| <= Total(old(instrs))
    {
      if instrs[i].kind.Phi? {
        pushed, ok := LiftPhi(i);
      } else {
        pushed, ok := LiftUses(i);
      }
    }

    /** The initial scan: every laid-out instruction, once per liftable operand, in layout order. */
    method CollectWorklist() returns (ws: seq<nat>)
      requires Valid()
      ensures ws == Pushes(layout, instrs)
    {
      ws := [];
      for b := 0 to |layout|
        invariant ws == Pushes(layout[..b], instrs)
      {
        assert layout[..b + 1][..b] == layout[..b];
        ghost var ws0 := ws;
        var blk := layout[b];
        for j := 0 to |blk|
          invariant ws == ws0 + BlockPushes(blk[..j], instrs)
        {
          assert blk[..j + 1][..j] == blk[..j];
          ghost var ws1 := ws;
          var id := blk[j];
          var ops := instrs[id].operands;
          for index := 0 to |ops|
            invariant ws == ws1 + OperandPushes(id, ops[..index])
          {
            assert ops[..index + 1][..index] == ops[..index];
            if Liftable(ops[index]) {
              ws := ws + [id];
            }
          }
          assert ops[..|ops|] == ops;
        }
        assert blk[..|blk|] == blk;
      }
      assert layout[..|layout|] == layout;
    }

    /**
     * `runOnFunction`: scans the function, then lifts until the worklist is
     * empty. The result says whether the initial worklist was non-empty; on
     * success no laid-out or new instruction has a liftable operand left, and
     * the layout holds only old and new instructions. It fails only when a
     * liftable expression has an opcode the lifter has no case for.
     */
    method RunOnFunction() returns (r: Result<bool, string>)
      requires Valid()
      modifies this
      ensures Valid()
      ensures r.Success? ==> (r.value <==> AnyLiftable(old(layout), old(instrs)))
      ensures r.Failure? ==> AnyLiftable(old(layout), old(instrs)) && r.error == "Unhandled constant expression!"
      ensures old(|instrs|) <= |instrs| && LayoutGrown(old(layout), layout, old(|instrs|))
      ensures r.Success? ==>
        forall id :: 0 <= id < |instrs| && (InLayout(old(layout), id) || old(|instrs|) <= id) ==> !HasLiftable(instrs[id])
    {
      var ws: seq<nat> := CollectWorklist();
      InitialWorklist(layout, instrs, ws);
      var modified := |ws| > 0;
      ghost var layout0, n0 := layout, |instrs|;
      while |ws| > 0
        invariant Valid() && n0 <= |instrs|
        invariant modified || ws == []
        invariant Bounded(ws, |instrs|)
        invariant Done(instrs, ws, layout0, n0)
        invariant LayoutGrown(layout0, layout, n0)
        decreases Total(instrs), |ws|
      {
        var i := ws[|ws| - 1];
        ghost var ws0, before, layout1 := ws, instrs, layout;
        ws := ws[..|ws| - 1];
        var pushed, ok := LiftInstr(i);
        if !ok {
          return Failure("Unhandled constant expression!");
        }
        ws := ws + pushed;
        DoneStep(before, instrs, ws0, pushed, layout0, n0);
        LayoutGrownTrans(layout0, layout1, layout, n0, |before|);
      }
      return Success(modified);
    }
  }

  /** The phi update removes at least the weight of slot `index`. */
  lemma RerouteWeight(phi: Instr, index: nat, r: Value)
    requires |phi.incoming| == |phi.operands| && index < |phi.operands| && !r.ConstExpr?
    ensures OperandWeight(phi.(operands := Rerouted(phi, index, |phi.operands|, r))) + Weight(phi.operands[index])
         <= OperandWeight(phi)
  {
    var ops := Rerouted(phi, index, |phi.operands|, r);
    WeightDrop(ops, phi.operands, index, Weight(phi.operands[index]));
  }

  /** The phi update leaves the earlier slots alone and clears slot `index`. */
  lemma ReroutedCleared(phi: Instr, index: nat, r: Value)
    requires |phi.incoming| == |phi.operands| && index < |phi.operands| && !r.ConstExpr?
    ensures Cleared(phi.operands[..index]) ==> Cleared(Rerouted(phi, index, |phi.operands|, r)[..index + 1])
  {
    var ops := Rerouted(phi, index, |phi.operands|, r);
    assert ops[..index + 1] == phi.operands[..index] + [r];
  }

  /** Replacing the uses of the expression at slot `index` keeps the earlier slots clear and clears it. */
  lemma ReplaceCleared(ops: seq<Value>, index: nat, x: Value, r: Value)
    requires index < |ops| && ops[index] == x && !r.ConstExpr?
    ensures Cleared(ops[..index]) ==> Cleared(ReplaceAll(ops, x, r)[..index + 1])
  {
  }

  /** Replacing the uses of the expression at slot `index` removes at least its weight. */
  lemma ReplaceWeight(ops: seq<Value>, index: nat, x: Value, r: Value)
    requires index < |ops| && ops[index] == x && !r.ConstExpr?
    ensures WeightOf(ReplaceAll(ops, x, r)) + Weight(x) <= WeightOf(ops)
  {
    WeightDrop(ReplaceAll(ops, x, r), ops, index, Weight(x));
  }
}
