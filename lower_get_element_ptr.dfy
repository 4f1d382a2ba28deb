/**
 * The LowerGetElementPtr pass: every `getelementptr` whose pointer operand can
 * be cast to the integer pointer type is rewritten into `ptrtoint`, integer
 * arithmetic and a final `inttoptr`. Constant parts of the address are folded
 * into a running 64-bit offset; only variable indices emit arithmetic.
 *
 * Values are named by natural numbers. The `inttoptr` that replaces a GEP
 * takes the GEP's own name, so every use of the GEP, which refers to it by
 * that name, now reads the `inttoptr`. The data layout is folded into the
 * types: a struct type carries the byte offset of each field and a
 * sequential type (pointer, array, vector) the allocation size of its element.
 */
module LowerGetElementPtr {

  /** 2^64: the running offset is a `uint64_t`. */
  const Word: nat := 0x1_0000_0000_0000_0000

  /** 2^63: a constant index is a signed 64-bit value. */
  const Half: int := 0x8000_0000_0000_0000

  function Pow2(n: nat): (r: nat)
    ensures r >= 1
  {
    if n == 0 then 1 else 2 * Pow2(n - 1)
  }

  datatype Ty =
    | Int(bits: nat)
    | Struct(fields: seq<Ty>, offsets: seq<nat>)
    | Sequential(elem: Ty, elemSize: nat)

  /** A GEP index: a constant (its sign-extended value) or a named integer of some width. */
  datatype Index = Const(value: int) | Var(id: nat, bits: nat)

  /**
   * `id` names the GEP, `base` its pointer operand, whose type is `baseTy`;
   * `scalarPtr` says whether `ptrtoint` to the pointer-sized integer type is a
   * valid cast of that operand.
   */
  datatype Gep = Gep(id: nat, base: nat, baseTy: Ty, indices: seq<Index>, scalarPtr: bool)

  datatype Inst =
    | GetElementPtr(gep: Gep)
    | PtrToInt(id: nat, src: nat)
    | Trunc(id: nat, src: nat)
    | SExt(id: nat, src: nat)
    | Mul(id: nat, src: nat, k: nat)
    | AddConst(id: nat, src: nat, k: nat)
    | Add(id: nat, src: nat, other: nat)
    | IntToPtr(id: nat, src: nat)
    | Other(id: nat)

  /**
   * Each index steps into the current type: a struct is indexed by the
   * constant number of one of its fields, a sequential type by any index
   * (a constant one fits in 64 bits); an integer type cannot be indexed.
   */
  predicate Steps(ty: Ty, idx: seq<Index>)
    decreases idx
  {
    idx == [] ||
    match ty
      case Int(_) => false
      case Struct(fields, offsets) =>
        |offsets| == |fields| && idx[0].Const? && 0 <= idx[0].value < |fields| &&
        Steps(fields[idx[0].value], idx[1..])
      case Sequential(elem, _) =>
        (idx[0].Const? ==> -Half <= idx[0].value < Half) && Steps(elem, idx[1..])
  }

  /** The type reached by one index. */
  function Into(ty: Ty, ix: Index): Ty
    requires Steps(ty, [ix])
  {
    if ty.Struct? then ty.fields[ix.value] else ty.elem
  }

  lemma StepsTail(ty: Ty, idx: seq<Index>)
    requires Steps(ty, idx) && idx != []
    ensures Steps(ty, [idx[0]]) && Steps(Into(ty, idx[0]), idx[1..])
  {
    assert [idx[0]][1..] == [];
  }

  // ---------------------------------------------------------------------------
  // What the emitted code computes
  // ---------------------------------------------------------------------------

  function Get(env: map<nat, int>, x: nat): int {
    if x in env then env[x] else 0
  }

  /**
   * One emitted instruction on integers of the pointer width, `m` being 2 to
   * that width: every result is reduced modulo `m`. A truncation and a sign
   * extension both keep the value modulo `m`; the 64-bit constant of an add
   * and the element size of a multiply are reduced to the pointer width too.
   */
  function Exec1(inst: Inst, env: map<nat, int>, m: nat): map<nat, int>
    requires m > 0
  {
    match inst
      case PtrToInt(id, src) => env[id := Get(env, src) % m]
      case Trunc(id, src) => env[id := Get(env, src) % m]
      case SExt(id, src) => env[id := Get(env, src) % m]
      case Mul(id, src, k) => env[id := Get(env, src) * (k % m) % m]
      case AddConst(id, src, k) => env[id := (Get(env, src) + k % m) % m]
      case Add(id, src, other) => env[id := (Get(env, src) + Get(env, other)) % m]
      case IntToPtr(id, src) => env[id := Get(env, src) % m]
      case GetElementPtr(_) => env
      case Other(_) => env
  }

  function Exec(insts: seq<Inst>, env: map<nat, int>, m: nat): map<nat, int>
    requires m > 0
    decreases |insts|
  {
    if insts == [] then env
    else Exec1(insts[|insts| - 1], Exec(insts[..|insts| - 1], env, m), m)
  }

  lemma ExecSnoc(insts: seq<Inst>, x: Inst, env: map<nat, int>, m: nat)
    requires m > 0
    ensures Exec(insts + [x], env, m) == Exec1(x, Exec(insts, env, m), m)
  {
    assert (insts + [x])[..|insts|] == insts;
  }

  /**
   * The same code on unbounded integers: each name holds a representative of
   * its machine value modulo `m` (see `ExecEval`).
   */
  function Eval1(inst: Inst, env: map<nat, int>): map<nat, int> {
    match inst
      case PtrToInt(id, src) => env[id := Get(env, src)]
      case Trunc(id, src) => env[id := Get(env, src)]
      case SExt(id, src) => env[id := Get(env, src)]
      case Mul(id, src, k) => env[id := Get(env, src) * k]
      case AddConst(id, src, k) => env[id := Get(env, src) + k]
      case Add(id, src, other) => env[id := Get(env, src) + Get(env, other)]
      case IntToPtr(id, src) => env[id := Get(env, src)]
      case GetElementPtr(_) => env
      case Other(_) => env
  }

  function Eval(insts: seq<Inst>, env: map<nat, int>): map<nat, int>
    decreases |insts|
  {
    if insts == [] then env
    else Eval1(insts[|insts| - 1], Eval(insts[..|insts| - 1], env))
  }

  lemma EvalSnoc(insts: seq<Inst>, x: Inst, env: map<nat, int>)
    ensures Eval(insts + [x], env) == Eval1(x, Eval(insts, env))
  {
    assert (insts + [x])[..|insts|] == insts;
  }

  /** The byte offset one index adds to the address. */
  function IndexOffset(ty: Ty, ix: Index, env: map<nat, int>): int
    requires Steps(ty, [ix])
  {
    if ty.Struct? then ty.offsets[ix.value]
    else (if ix.Const? then ix.value else Get(env, ix.id)) * ty.elemSize
  }

  function Offset(ty: Ty, idx: seq<Index>, env: map<nat, int>): int
    requires Steps(ty, idx)
    decreases idx
  {
    if idx == [] then 0
    else
      StepsTail(ty, idx);
      IndexOffset(ty, idx[0], env) + Offset(Into(ty, idx[0]), idx[1..], env)
  }

  /** The address a GEP denotes: its pointer plus every index's offset, as a `bits`-wide integer. */
  function Address(g: Gep, env: map<nat, int>, bits: nat): int
    requires Steps(g.baseTy, g.indices)
  {
    (Get(env, g.base) + Offset(g.baseTy, g.indices, env)) % Pow2(bits)
  }

  // ---------------------------------------------------------------------------
  // The lowering as functions
  // ---------------------------------------------------------------------------

  /** The lowering's running state: `Ptr`, `CurrentOffset`, the code emitted so far and the next free name. */
  datatype St = St(ptr: nat, offset: nat, out: seq<Inst>, next: nat)

  /** `CastToPtrSize`'s result: the value to use and the cast it emitted, if any. */
  datatype Cast = Cast(value: nat, emitted: seq<Inst>)

  /**
   * `CastToPtrSize`: an index of the pointer width is used as it is, a wider
   * one is truncated and a narrower one sign-extended.
   */
  function CastToPtrSize(src: nat, bits: nat, ptrBits: nat, next: nat): (r: Cast)
    ensures r.emitted == [] <==> bits == ptrBits
    ensures r.emitted == [] ==> r.value == src
    ensures r.emitted != [] ==>
      r.value == next && |r.emitted| == 1 &&
      (r.emitted[0] == Trunc(next, src) <==> bits > ptrBits) &&
      (r.emitted[0] == SExt(next, src) <==> bits < ptrBits)
  {
    if bits == ptrBits then Cast(src, [])
    else if bits > ptrBits then Cast(next, [Trunc(next, src)])
    else Cast(next, [SExt(next, src)])
  }

  /** The code contains no GEP and no add of a zero 64-bit constant. */
  predicate Clean(out: seq<Inst>) {
    forall k :: 0 <= k < |out| ==> !out[k].GetElementPtr? && (out[k].AddConst? ==> out[k].k != 0)
  }

  /**
   * `FlushOffset`: a non-zero running offset becomes one add onto the pointer,
   * and the offset is reset; a zero offset emits nothing.
   */
  function Flush(st: St): St {
    if st.offset != 0 then St(st.next, 0, st.out + [AddConst(st.next, st.ptr, st.offset)], st.next + 1)
    else st
  }

  lemma FlushShape(st: St)
    ensures var r := Flush(st);
      r.offset == 0 && r.next >= st.next && (st.ptr < st.next ==> r.ptr < r.next)
    ensures var r := Flush(st); |r.out| >= |st.out| && r.out[..|st.out|] == st.out
    ensures var r := Flush(st); r.out == st.out <==> st.offset == 0
    ensures Clean(st.out) ==> Clean(Flush(st).out)
  {
    if st.offset != 0 {
      assert (st.out + [AddConst(st.next, st.ptr, st.offset)])[..|st.out|] == st.out;
    }
  }

  /** The code that brings a variable index to the pointer width and scales it, and the name holding the result. */
  datatype Scaled = Scaled(out: seq<Inst>, value: nat, next: nat)

  /** Cast the index to the pointer width, then multiply by the element size unless it is 1. */
  function ScaleIndex(out: seq<Inst>, next: nat, id: nat, bits: nat, size: nat, ptrBits: nat): Scaled {
    var c := CastToPtrSize(id, bits, ptrBits, next);
    var n1 := next + |c.emitted|;
    if size != 1 then Scaled(out + c.emitted + [Mul(n1, c.value, size)], n1, n1 + 1)
    else Scaled(out + c.emitted, c.value, n1)
  }

  /** A variable index: flush, scale the index, and add it onto the pointer. */
  function VarStep(st: St, id: nat, bits: nat, size: nat, ptrBits: nat): St {
    var f := Flush(st);
    var s := ScaleIndex(f.out, f.next, id, bits, size, ptrBits);
    St(s.next, 0, s.out + [Add(s.next, f.ptr, s.value)], s.next + 1)
  }

  /**
   * The code for a variable index extends what was emitted with the flush,
   * the cast if any, a multiply exactly when the element size is not 1, and
   * the add that gives the new pointer.
   */
  lemma VarStepShape(st: St, id: nat, bits: nat, size: nat, ptrBits: nat)
    ensures var r := VarStep(st, id, bits, size, ptrBits);
      r.offset == 0 && r.next > st.next && r.ptr < r.next &&
      |r.out| > |st.out| && r.out[..|st.out|] == st.out
    ensures var r := VarStep(st, id, bits, size, ptrBits);
      r.out[|r.out| - 1].Add? && r.out[|r.out| - 1].id == r.ptr && r.out[|r.out| - 1].src == Flush(st).ptr
    ensures var r := VarStep(st, id, bits, size, ptrBits);
      |r.out| ==
        |Flush(st).out| + |CastToPtrSize(id, bits, ptrBits, Flush(st).next).emitted| +
        (if size != 1 then 1 else 0) + 1
    ensures var r := VarStep(st, id, bits, size, ptrBits);
      size != 1 ==>
        r.out[|r.out| - 2].Mul? && r.out[|r.out| - 2].id == r.out[|r.out| - 1].other && r.out[|r.out| - 2].k == size
    ensures var r := VarStep(st, id, bits, size, ptrBits);
      size == 1 ==> forall k :: |st.out| <= k < |r.out| ==> !r.out[k].Mul?
    ensures Clean(st.out) ==> Clean(VarStep(st, id, bits, size, ptrBits).out)
  {
    var f := Flush(st);
    FlushShape(st);
    var c := CastToPtrSize(id, bits, ptrBits, f.next);
    var n1 := f.next + |c.emitted|;
    var out1 := f.out + c.emitted;
    var out2 := if size != 1 then out1 + [Mul(n1, c.value, size)] else out1;
    var v2 := if size != 1 then n1 else c.value;
    var n2 := if size != 1 then n1 + 1 else n1;
    var r := VarStep(st, id, bits, size, ptrBits);
    assert r.out == out2 + [Add(n2, f.ptr, v2)];
    assert r.out[..|f.out|] == f.out;
    assert r.out[..|st.out|] == f.out[..|st.out|];
    if size == 1 {
      forall k | |st.out| <= k < |r.out| ensures !r.out[k].Mul? {
        if k < |f.out| {
          assert r.out[k] == f.out[k];
        }
      }
    }
    if Clean(st.out) {
      forall k | 0 <= k < |r.out| ensures !r.out[k].GetElementPtr? && (r.out[k].AddConst? ==> r.out[k].k != 0) {
        if k < |f.out| {
          assert r.out[k] == f.out[k];
        }
      }
    }
  }

  /** One index: struct fields and constant indices only move the running offset. */
  function Step(st: St, ty: Ty, ix: Index, ptrBits: nat): St
    requires Steps(ty, [ix])
  {
    if ty.Struct? then st.(offset := (st.offset + ty.offsets[ix.value]) % Word)
    else if ix.Const? then st.(offset := (st.offset + ix.value * ty.elemSize) % Word)
    else VarStep(st, ix.id, ix.bits, ty.elemSize, ptrBits)
  }

  lemma StepShape(st: St, ty: Ty, ix: Index, ptrBits: nat)
    requires Steps(ty, [ix])
    ensures var r := Step(st, ty, ix, ptrBits);
      (ty.Struct? || ix.Const?) ==> r.out == st.out && r.ptr == st.ptr && r.next == st.next
    ensures var r := Step(st, ty, ix, ptrBits);
      |r.out| >= |st.out| && r.out[..|st.out|] == st.out && r.next >= st.next
    ensures Clean(st.out) ==> Clean(Step(st, ty, ix, ptrBits).out)
  {
    if !ty.Struct? && !ix.Const? {
      VarStepShape(st, ix.id, ix.bits, ty.elemSize, ptrBits);
    }
  }

  function LowerFrom(ty: Ty, idx: seq<Index>, st: St, ptrBits: nat): St
    requires Steps(ty, idx)
    decreases idx
  {
    if idx == [] then st
    else
      StepsTail(ty, idx);
      LowerFrom(Into(ty, idx[0]), idx[1..], Step(st, ty, idx[0], ptrBits), ptrBits)
  }

  /** Lowering the indices from `k` on is one step and then lowering those from `k + 1` on. */
  lemma LowerFromCons(ty: Ty, idx: seq<Index>, k: nat, st: St, ptrBits: nat)
    requires k < |idx| && Steps(ty, idx[k..])
    ensures Steps(Into(ty, idx[k]), idx[k + 1..])
    ensures LowerFrom(ty, idx[k..], st, ptrBits) == LowerFrom(Into(ty, idx[k]), idx[k + 1..], Step(st, ty, idx[k], ptrBits), ptrBits)
  {
    StepsTail(ty, idx[k..]);
    assert idx[k..][1..] == idx[k + 1..];
  }

  /** The code that replaces a GEP, and the next free name after it. */
  datatype Lowering = Lowering(out: seq<Inst>, next: nat)

  function Start(g: Gep, free: nat): St {
    St(free, 0, [PtrToInt(free, g.base)], free + 1)
  }

  /** `LowerGEP`: ptrtoint, the folded steps, a last flush and the inttoptr that takes the GEP's name. */
  function Lowered(g: Gep, ptrBits: nat, free: nat): Lowering
    requires Steps(g.baseTy, g.indices)
  {
    var f := Flush(LowerFrom(g.baseTy, g.indices, Start(g, free), ptrBits));
    Lowering(f.out + [IntToPtr(g.id, f.ptr)], f.next)
  }

  // ---------------------------------------------------------------------------
  // The lowering as the pass writes it
  // ---------------------------------------------------------------------------

  /** `FlushOffset`, with the pointer, the offset and the emitted code passed in and out. */
  method FlushOffset(ptr: nat, offset: nat, out: seq<Inst>, next: nat)
    returns (ptr': nat, offset': nat, out': seq<Inst>, next': nat)
    ensures St(ptr', offset', out', next') == Flush(St(ptr, offset, out, next))
  {
    ptr', offset', out', next' := ptr, offset, out, next;
    if offset' != 0 {
      out' := out' + [AddConst(next', ptr', offset')];
      ptr' := next';
      next' := next' + 1;
      offset' := 0;
    }
  }

  /** The part of `LowerGEP` for a variable index: flush, cast, scale, add. */
  method AddVariableIndex(ptr: nat, offset: nat, out: seq<Inst>, next: nat, id: nat, bits: nat, size: nat, ptrBits: nat)
    returns (ptr': nat, offset': nat, out': seq<Inst>, next': nat)
    ensures St(ptr', offset', out', next') == VarStep(St(ptr, offset, out, next), id, bits, size, ptrBits)
  {
    ptr', offset', out', next' := FlushOffset(ptr, offset, out, next);
    var c := CastToPtrSize(id, bits, ptrBits, next');
    var index := c.value;
    out', next' := out' + c.emitted, next' + |c.emitted|;
    if size != 1 {
      out' := out' + [Mul(next', index, size)];
      index, next' := next', next' + 1;
    }
    out' := out' + [Add(next', ptr', index)];
    ptr', next' := next', next' + 1;
  }

  /** `LowerGEP`: the code that replaces `g`, whose free names start at `free`. */
  method LowerGEP(g: Gep, ptrBits: nat, free: nat) returns (out: seq<Inst>, next: nat)
    requires Steps(g.baseTy, g.indices)
    ensures Lowering(out, next) == Lowered(g, ptrBits, free)
  {
    var ptr: nat, offset: nat := free, 0;
    out, next := [PtrToInt(free, g.base)], free + 1;
    var ty := g.baseTy;
    var k := 0;
    while k < |g.indices|
      invariant k <= |g.indices| && Steps(ty, g.indices[k..])
      invariant LowerFrom(ty, g.indices[k..], St(ptr, offset, out, next), ptrBits) ==
                LowerFrom(g.baseTy, g.indices, Start(g, free), ptrBits)
    {
      var ix := g.indices[k];
      ghost var st0, ty0 := St(ptr, offset, out, next), ty;
      LowerFromCons(ty, g.indices, k, st0, ptrBits);
      if ty.Struct? {
        offset := (offset + ty.offsets[ix.value]) % Word;
        ty := ty.fields[ix.value];
      } else {
        var size := ty.elemSize;
        ty := ty.elem;
        if ix.Const? {
          offset := (offset + ix.value * size) % Word;
        } else {
          ptr, offset, out, next := AddVariableIndex(ptr, offset, out, next, ix.id, ix.bits, size, ptrBits);
        }
      }
      assert St(ptr, offset, out, next) == Step(st0, ty0, ix, ptrBits) && ty == Into(ty0, ix);
      k := k + 1;
    }
    ptr, offset, out, next := FlushOffset(ptr, offset, out, next);
    out := out + [IntToPtr(g.id, ptr)];
  }

  // ---------------------------------------------------------------------------
  // What the lowering guarantees about one GEP
  // ---------------------------------------------------------------------------

  lemma {:induction false} LowerFromClean(ty: Ty, idx: seq<Index>, st: St, ptrBits: nat)
    requires Steps(ty, idx)
    ensures var r := LowerFrom(ty, idx, st, ptrBits);
      |r.out| >= |st.out| && r.out[..|st.out|] == st.out && (Clean(st.out) ==> Clean(r.out))
    decreases idx
  {
    if idx != [] {
      StepsTail(ty, idx);
      var s := Step(st, ty, idx[0], ptrBits);
      StepShape(st, ty, idx[0], ptrBits);
      LowerFromClean(Into(ty, idx[0]), idx[1..], s, ptrBits);
      var r := LowerFrom(ty, idx, st, ptrBits);
      assert r.out[..|s.out|][..|st.out|] == r.out[..|st.out|];
    }
  }

  /**
   * The replacement code starts with the ptrtoint of the GEP's pointer, ends
   * with the inttoptr that takes the GEP's name, contains no GEP and never
   * adds a zero 64-bit offset.
   */
  lemma LoweredShape(g: Gep, ptrBits: nat, free: nat)
    requires Steps(g.baseTy, g.indices)
    ensures var r := Lowered(g, ptrBits, free);
      |r.out| >= 2 && r.out[0] == PtrToInt(free, g.base) &&
      r.out[|r.out| - 1].IntToPtr? && r.out[|r.out| - 1].id == g.id && Clean(r.out)
  {
    var s := LowerFrom(g.baseTy, g.indices, Start(g, free), ptrBits);
    LowerFromClean(g.baseTy, g.indices, Start(g, free), ptrBits);
    var f := Flush(s);
    FlushShape(s);
    assert f.out[..|s.out|][..1] == f.out[..1];
  }

  /** No variable index. */
  predicate AllConstant(idx: seq<Index>) {
    forall k :: 0 <= k < |idx| ==> idx[k].Const?
  }

  lemma {:induction false} LowerFromConstant(ty: Ty, idx: seq<Index>, st: St, ptrBits: nat)
    requires Steps(ty, idx) && AllConstant(idx)
    ensures var r := LowerFrom(ty, idx, st, ptrBits); r.out == st.out && r.ptr == st.ptr && r.next == st.next
    decreases idx
  {
    if idx != [] {
      StepsTail(ty, idx);
      assert AllConstant(idx[1..]) by {
        forall k | 0 <= k < |idx| - 1 ensures idx[1..][k].Const? {
          assert idx[1..][k] == idx[k + 1];
        }
      }
      assert idx[0] == idx[0 + 0];
      StepShape(st, ty, idx[0], ptrBits);
      LowerFromConstant(Into(ty, idx[0]), idx[1..], Step(st, ty, idx[0], ptrBits), ptrBits);
    }
  }

  /**
   * A GEP with constant indices only is folded completely: ptrtoint, one add
   * when the folded offset is not zero, and the inttoptr.
   */
  lemma ConstantGepFolds(g: Gep, ptrBits: nat, free: nat)
    requires Steps(g.baseTy, g.indices) && AllConstant(g.indices)
    ensures var r := Lowered(g, ptrBits, free);
      r.out == [PtrToInt(free, g.base), IntToPtr(g.id, free)] ||
      (|r.out| == 3 && r.out[1].AddConst? && r.out[1].src == free &&
       r.out[2] == IntToPtr(g.id, r.out[1].id))
  {
    LowerFromConstant(g.baseTy, g.indices, Start(g, free), ptrBits);
  }

  // ---------------------------------------------------------------------------
  // Modular arithmetic
  // ---------------------------------------------------------------------------

  lemma MulPos(k: int, m: nat)
    requires m > 0 && k >= 1
    ensures k * m >= m
  {
    var j := k - 1;
    assert k * m == j * m + m;
    assert j * m >= 0;
  }

  /** Euclidean division is unique. */
  lemma ModUnique(y: int, a: int, r: int, m: nat)
    requires m > 0 && 0 <= r < m && y == a * m + r
    ensures y % m == r
  {
    var b, s := y / m, y % m;
    assert y == b * m + s;
    var k := a - b;
    assert k * m == s - r by {
      assert a * m - b * m == s - r;
    }
    if k >= 1 {
      MulPos(k, m);
    } else if k <= -1 {
      MulPos(-k, m);
    }
  }

  lemma ModShift(x: int, q: int, m: nat)
    requires m > 0
    ensures (x + q * m) % m == x % m
  {
    var d, r := x / m, x % m;
    assert x + q * m == (d + q) * m + r;
    ModUnique(x + q * m, d + q, r, m);
  }

  lemma ModAdd(a: int, b: int, m: nat)
    requires m > 0
    ensures (a % m + b) % m == (a + b) % m
  {
    var q, r := a / m, a % m;
    assert a == q * m + r;
    assert r + b + q * m == a + b;
    ModShift(r + b, q, m);
  }

  lemma ModMod(x: int, m: nat)
    requires m > 0
    ensures x % m % m == x % m
  {
    ModShift(x % m, 0, m);
  }

  lemma ModMul(a: int, b: int, m: nat)
    requires m > 0
    ensures (a % m) * b % m == a * b % m
  {
    var q := a / m;
    calc {
      a * b;
      (a % m + q * m) * b;
      (a % m) * b + (q * b) * m;
    }
    ModShift((a % m) * b, q * b, m);
  }

  lemma Double(p: int, q: int)
    ensures 2 * (p * q) == (2 * p) * q
  {
  }

  lemma Pow2Add(a: nat, b: nat, c: nat)
    requires a + b == c
    ensures Pow2(c) == Pow2(a) * Pow2(b)
    decreases a
  {
    if a > 0 {
      var p, q := Pow2(a - 1), Pow2(b);
      Pow2Add(a - 1, b, c - 1);
      Double(p, q);
    }
  }

  lemma Pow2Sixteen()
    ensures Pow2(16) == 0x1_0000
  {
    assert Pow2(4) == 16;
    assert Pow2(8) == 256 by { Pow2Add(4, 4, 8); }
    Pow2Add(8, 8, 16);
  }

  lemma Pow2ThirtyTwo()
    ensures Pow2(32) == 0x1_0000_0000
  {
    Pow2Sixteen();
    Pow2Add(16, 16, 32);
  }

  lemma Pow2Word()
    ensures Pow2(64) == Word
  {
    Pow2ThirtyTwo();
    Pow2Add(32, 32, 64);
  }

  /** 2^bits divides 2^64 when bits is at most 64. */
  lemma Pow2DividesWord(bits: nat)
    requires bits <= 64
    ensures Word % Pow2(bits) == 0
  {
    var m, n := Pow2(bits), Pow2(64 - bits);
    Pow2Word();
    Pow2Add(bits, 64 - bits, 64);
    assert Word == m * n;
    assert m * n == n * m;
    ModUnique(Word, n, 0, m);
  }

  /** Reducing modulo 2^64 keeps the value modulo any divisor of 2^64. */
  lemma WordMod(x: int, m: nat)
    requires m > 0 && Word % m == 0
    ensures x % Word % m == x % m
  {
    var n := Word / m;
    assert Word == n * m;
    assert x == x % Word + ((x / Word) * n) * m;
    ModShift(x % Word, (x / Word) * n, m);
  }

  // ---------------------------------------------------------------------------
  // The lowering computes the GEP's address
  // ---------------------------------------------------------------------------

  /** `w` and `e` agree on every name modulo `m`. */
  ghost predicate Agree(w: map<nat, int>, e: map<nat, int>, m: nat)
    requires m > 0
  {
    forall x: nat :: Get(w, x) % m == Get(e, x) % m
  }

  lemma CongAdd(a: int, a': int, b: int, b': int, m: nat)
    requires m > 0 && a % m == a' % m && b % m == b' % m
    ensures (a + b) % m == (a' + b') % m
  {
    calc {
      (a + b) % m;
      { ModAdd(a, b, m); }
      (a % m + b) % m;
      (a' % m + b) % m;
      { ModAdd(a', b, m); }
      (b + a') % m;
      { ModAdd(b, a', m); }
      (b % m + a') % m;
      (b' % m + a') % m;
      { ModAdd(b', a', m); }
      (a' + b') % m;
    }
  }

  lemma CongMul(a: int, a': int, b: int, b': int, m: nat)
    requires m > 0 && a % m == a' % m && b % m == b' % m
    ensures a * b % m == a' * b' % m
  {
    calc {
      a * b % m;
      { ModMul(a, b, m); }
      (a % m) * b % m;
      (a' % m) * b % m;
      { ModMul(a', b, m); }
      b * a' % m;
      { ModMul(b, a', m); }
      (b % m) * a' % m;
      (b' % m) * a' % m;
      { ModMul(b', a', m); }
      a' * b' % m;
    }
  }

  /** Setting one name to congruent values keeps the agreement. */
  lemma UpdateAgree(w: map<nat, int>, e: map<nat, int>, m: nat, id: nat, a: int, b: int)
    requires m > 0 && Agree(w, e, m) && a % m == b % m
    ensures Agree(w[id := a], e[id := b], m)
  {
    var w', e' := w[id := a], e[id := b];
    forall x: nat
      ensures Get(w', x) % m == Get(e', x) % m
    {
      if x != id {
        assert Get(w', x) == Get(w, x) && Get(e', x) == Get(e, x);
      }
    }
  }

  /** One instruction on the machine and on unbounded integers keeps the two in agreement. */
  lemma Exec1Eval1(inst: Inst, w: map<nat, int>, e: map<nat, int>, m: nat)
    requires m > 0 && Agree(w, e, m)
    ensures Agree(Exec1(inst, w, m), Eval1(inst, e), m)
  {
    match inst {
      case PtrToInt(id, src) =>
        ModMod(Get(w, src), m);
        UpdateAgree(w, e, m, id, Get(w, src) % m, Get(e, src));
      case Trunc(id, src) =>
        ModMod(Get(w, src), m);
        UpdateAgree(w, e, m, id, Get(w, src) % m, Get(e, src));
      case SExt(id, src) =>
        ModMod(Get(w, src), m);
        UpdateAgree(w, e, m, id, Get(w, src) % m, Get(e, src));
      case IntToPtr(id, src) =>
        ModMod(Get(w, src), m);
        UpdateAgree(w, e, m, id, Get(w, src) % m, Get(e, src));
      case Mul(id, src, k) =>
        ModMod(Get(w, src) * (k % m), m);
        ModMod(k, m);
        CongMul(Get(w, src), Get(e, src), k % m, k, m);
        UpdateAgree(w, e, m, id, Get(w, src) * (k % m) % m, Get(e, src) * k);
      case AddConst(id, src, k) =>
        ModMod(Get(w, src) + k % m, m);
        ModMod(k, m);
        CongAdd(Get(w, src), Get(e, src), k % m, k, m);
        UpdateAgree(w, e, m, id, (Get(w, src) + k % m) % m, Get(e, src) + k);
      case Add(id, src, other) =>
        ModMod(Get(w, src) + Get(w, other), m);
        CongAdd(Get(w, src), Get(e, src), Get(w, other), Get(e, other), m);
        UpdateAgree(w, e, m, id, (Get(w, src) + Get(w, other)) % m, Get(e, src) + Get(e, other));
      case GetElementPtr(_) =>
      case Other(_) =>
    }
  }

  /**
   * The machine, which reduces every result modulo `m`, and the unbounded
   * integers agree modulo `m` on every name after any code.
   */
  lemma {:induction false} ExecEval(out: seq<Inst>, env: map<nat, int>, m: nat)
    requires m > 0
    ensures Agree(Exec(out, env, m), Eval(out, env), m)
    decreases |out|
  {
    if out != [] {
      var init := out[..|out| - 1];
      ExecEval(init, env, m);
      Exec1Eval1(out[|out| - 1], Exec(init, env, m), Eval(init, env), m);
    }
  }

  /** Every variable index names a value below `free`. */
  predicate VarsBelow(idx: seq<Index>, free: nat) {
    forall k :: 0 <= k < |idx| && idx[k].Var? ==> idx[k].id < free
  }

  /**
   * After the code emitted so far the pointer, plus the running offset, is
   * `target` modulo 2^64, names below `free` still hold their values, and the
   * pointer is a name already given out.
   */
  ghost predicate Tracks(st: St, env: map<nat, int>, free: nat, target: int) {
    free <= st.next && st.ptr < st.next &&
    (forall x: nat :: x < free ==> Get(Eval(st.out, env), x) == Get(env, x)) &&
    (Get(Eval(st.out, env), st.ptr) + st.offset) % Word == target % Word
  }

  /** Appending one instruction that defines a name at or above `free` keeps the names below it. */
  lemma EmitFresh(out: seq<Inst>, x: Inst, env: map<nat, int>, free: nat)
    requires !x.GetElementPtr? && !x.Other? && x.id >= free
    requires forall y: nat :: y < free ==> Get(Eval(out, env), y) == Get(env, y)
    ensures forall y: nat :: y < free ==> Get(Eval(out + [x], env), y) == Get(env, y)
  {
    EvalSnoc(out, x, env);
  }

  lemma FlushTracks(st: St, env: map<nat, int>, free: nat, target: int)
    requires Tracks(st, env, free, target)
    ensures Tracks(Flush(st), env, free, target)
  {
    if st.offset != 0 {
      var x := AddConst(st.next, st.ptr, st.offset);
      EmitFresh(st.out, x, env, free);
      EvalSnoc(st.out, x, env);
    }
  }

  /** The index cast to the pointer width is the index itself, up to the machine's reduction. */
  lemma CastTracks(out: seq<Inst>, id: nat, ibits: nat, ptrBits: nat, next: nat, env: map<nat, int>, free: nat)
    requires id < free <= next
    requires forall y: nat :: y < free ==> Get(Eval(out, env), y) == Get(env, y)
    ensures var c := CastToPtrSize(id, ibits, ptrBits, next);
      var e := Eval(out + c.emitted, env);
      Get(e, c.value) == Get(env, id) &&
      (forall y: nat :: y < next ==> Get(e, y) == Get(Eval(out, env), y)) &&
      (forall y: nat :: y < free ==> Get(e, y) == Get(env, y))
  {
    var c := CastToPtrSize(id, ibits, ptrBits, next);
    if c.emitted != [] {
      EvalSnoc(out, c.emitted[0], env);
    } else {
      assert out + c.emitted == out;
    }
  }

  /** A multiply by the element size scales the index and keeps every older name. */
  lemma MulTracks(out: seq<Inst>, v: nat, size: nat, next: nat, env: map<nat, int>, i: int)
    requires Get(Eval(out, env), v) == i
    ensures var e := Eval(out + [Mul(next, v, size)], env);
      Get(e, next) == i * size && forall y: nat :: y < next ==> Get(e, y) == Get(Eval(out, env), y)
  {
    EvalSnoc(out, Mul(next, v, size), env);
  }

  /** Adding `d` onto a pointer that tracks `target` tracks `target + d`. */
  lemma AddTracks(p: int, d: int, q: int, target: int)
    requires q == p + d && p % Word == target % Word
    ensures (q + 0) % Word == (target + d) % Word
  {
    calc {
      (q + 0) % Word;
      (p + d) % Word;
      { ModAdd(p, d, Word); }
      (p % Word + d) % Word;
      (target % Word + d) % Word;
      { ModAdd(target, d, Word); }
      (target + d) % Word;
    }
  }

  /** The add of a value `d` onto a pointer that holds `target` tracks `target + d`. */
  lemma AddStepTracks(ptr: nat, out: seq<Inst>, v: nat, n: nat, env: map<nat, int>, free: nat, target: int, d: int, r: St)
    requires r == St(n, 0, out + [Add(n, ptr, v)], n + 1)
    requires free <= n && ptr < n
    requires Get(Eval(out, env), ptr) % Word == target % Word && Get(Eval(out, env), v) == d
    requires forall y: nat :: y < free ==> Get(Eval(out, env), y) == Get(env, y)
    ensures Tracks(r, env, free, target + d)
  {
    var e := Eval(out, env);
    var p := Get(e, ptr);
    var add := Add(n, ptr, v);
    EvalSnoc(out, add, env);
    var e' := Eval(out + [add], env);
    assert Get(e', n) == p + d by {
      assert Get(Eval1(add, e), n) == p + d;
    }
    EmitFresh(out, add, env, free);
    AddTracks(p, d, Get(e', n), target);
  }

  /** The scaled index holds the index times the element size, and names below `next` keep their values. */
  /** A scaled index evaluates to `id * size`, leaves every value below `next` alone and keeps the inputs below `free`. */
  predicate ScaledTracks(s: Scaled, out: seq<Inst>, next: nat, id: nat, size: nat, env: map<nat, int>, free: nat) {
    var e := Eval(s.out, env);
    next <= s.next && Get(e, s.value) == Get(env, id) * size &&
    (forall y: nat :: y < next ==> Get(e, y) == Get(Eval(out, env), y)) &&
    (forall y: nat :: y < free ==> Get(e, y) == Get(env, y))
  }

  lemma ScaleIndexTracks(out: seq<Inst>, next: nat, id: nat, ibits: nat, size: nat, ptrBits: nat, env: map<nat, int>, free: nat)
    requires id < free <= next
    requires forall y: nat :: y < free ==> Get(Eval(out, env), y) == Get(env, y)
    ensures var s := ScaleIndex(out, next, id, ibits, size, ptrBits);
      var e := Eval(s.out, env);
      next <= s.next && Get(e, s.value) == Get(env, id) * size &&
      (forall y: nat :: y < next ==> Get(e, y) == Get(Eval(out, env), y)) &&
      (forall y: nat :: y < free ==> Get(e, y) == Get(env, y))
  {
    var c := CastToPtrSize(id, ibits, ptrBits, next);
    var cast := Scaled(out + c.emitted, c.value, next + |c.emitted|);
    CastScaledTracks(out, id, ibits, ptrBits, next, env, free);
    assert ScaledTracks(cast, out, next, id, 1, env, free);
    if size != 1 {
      MulScaledTracks(cast, out, next, id, size, env, free);
      assert ScaleIndex(out, next, id, ibits, size, ptrBits) == Scaled(cast.out + [Mul(cast.next, cast.value, size)], cast.next, cast.next + 1);
    } else {
      assert ScaleIndex(out, next, id, ibits, size, ptrBits) == cast;
    }
    assert ScaledTracks(ScaleIndex(out, next, id, ibits, size, ptrBits), out, next, id, size, env, free);
  }

  /** The cast to pointer width is a scaling by 1. */
  lemma CastScaledTracks(out: seq<Inst>, id: nat, ibits: nat, ptrBits: nat, next: nat, env: map<nat, int>, free: nat)
    requires id < free <= next
    requires forall y: nat :: y < free ==> Get(Eval(out, env), y) == Get(env, y)
    ensures var c := CastToPtrSize(id, ibits, ptrBits, next);
      ScaledTracks(Scaled(out + c.emitted, c.value, next + |c.emitted|), out, next, id, 1, env, free)
  {
    CastTracks(out, id, ibits, ptrBits, next, env, free);
  }

  /** Multiplying a scaling by 1 by an element size scales by that size. */
  lemma MulScaledTracks(cast: Scaled, out: seq<Inst>, next: nat, id: nat, size: nat, env: map<nat, int>, free: nat)
    requires free <= next && ScaledTracks(cast, out, next, id, 1, env, free)
    ensures ScaledTracks(Scaled(cast.out + [Mul(cast.next, cast.value, size)], cast.next, cast.next + 1), out, next, id, size, env, free)
  {
    MulTracks(cast.out, cast.value, size, cast.next, env, Get(env, id));
  }

  lemma VarStepTracks(st: St, id: nat, ibits: nat, size: nat, ptrBits: nat, env: map<nat, int>, free: nat, target: int, d: int)
    requires Tracks(st, env, free, target) && id < free && d == Get(env, id) * size
    ensures Tracks(VarStep(st, id, ibits, size, ptrBits), env, free, target + d)
  {
    var f := Flush(st);
    FlushTracks(st, env, free, target);
    FlushShape(st);
    var s := ScaleIndex(f.out, f.next, id, ibits, size, ptrBits);
    ScaleIndexTracks(f.out, f.next, id, ibits, size, ptrBits, env, free);
    var p := Get(Eval(f.out, env), f.ptr);
    assert Get(Eval(s.out, env), f.ptr) == p;
    assert p + f.offset == p;
    AddStepTracks(f.ptr, s.out, s.value, s.next, env, free, target, d, VarStep(st, id, ibits, size, ptrBits));
  }

  /** Moving the running offset by `d` (modulo 2^64) moves the tracked address by `d`. */
  lemma OffsetTracks(st: St, d: int, env: map<nat, int>, free: nat, target: int)
    requires Tracks(st, env, free, target)
    ensures Tracks(st.(offset := (st.offset + d) % Word), env, free, target + d)
  {
    var p := Get(Eval(st.out, env), st.ptr);
    calc {
      (p + (st.offset + d) % Word) % Word;
      { ModAdd((st.offset + d) % Word, p, Word); }
      ((st.offset + d) % Word % Word + p) % Word;
      { ModMod(st.offset + d, Word); }
      ((st.offset + d) % Word + p) % Word;
      { ModAdd(st.offset + d, p, Word); }
      (p + st.offset + d) % Word;
      { ModAdd(p + st.offset, d, Word); }
      ((p + st.offset) % Word + d) % Word;
      (target % Word + d) % Word;
      { ModAdd(target, d, Word); }
      (target + d) % Word;
    }
  }

  lemma StepTracks(st: St, ty: Ty, ix: Index, ptrBits: nat, env: map<nat, int>, free: nat, target: int)
    requires Steps(ty, [ix]) && (ix.Var? ==> ix.id < free)
    requires Tracks(st, env, free, target)
    ensures Tracks(Step(st, ty, ix, ptrBits), env, free, target + IndexOffset(ty, ix, env))
  {
    if ty.Struct? {
      OffsetTracks(st, ty.offsets[ix.value], env, free, target);
    } else if ix.Const? {
      OffsetTracks(st, ix.value * ty.elemSize, env, free, target);
    } else {
      VarStepTracks(st, ix.id, ix.bits, ty.elemSize, ptrBits, env, free, target, IndexOffset(ty, ix, env));
    }
  }

  lemma VarsBelowTail(idx: seq<Index>, free: nat)
    requires VarsBelow(idx, free) && idx != []
    ensures (idx[0].Var? ==> idx[0].id < free) && VarsBelow(idx[1..], free)
  {
    forall k | 0 <= k < |idx| - 1 && idx[1..][k].Var? ensures idx[1..][k].id < free {
      assert idx[1..][k] == idx[k + 1];
    }
    assert idx[0] == idx[0 + 0];
  }

  /** The first index of a non-empty list: the step tracks it, and the fold and the offset continue from there. */
  lemma HeadTracks(ty: Ty, idx: seq<Index>, st: St, ptrBits: nat, env: map<nat, int>, free: nat, target: int)
    requires Steps(ty, idx) && idx != [] && VarsBelow(idx, free)
    requires Tracks(st, env, free, target)
    ensures Steps(Into(ty, idx[0]), idx[1..]) && VarsBelow(idx[1..], free)
    ensures Tracks(Step(st, ty, idx[0], ptrBits), env, free, target + IndexOffset(ty, idx[0], env))
    ensures LowerFrom(ty, idx, st, ptrBits) == LowerFrom(Into(ty, idx[0]), idx[1..], Step(st, ty, idx[0], ptrBits), ptrBits)
    ensures Offset(ty, idx, env) == IndexOffset(ty, idx[0], env) + Offset(Into(ty, idx[0]), idx[1..], env)
  {
    StepsTail(ty, idx);
    VarsBelowTail(idx, free);
    StepTracks(st, ty, idx[0], ptrBits, env, free, target);
  }

  /** The fold tracks the pointer plus every index's offset; `final` names that sum. */
  lemma {:induction false} LowerFromTracks(ty: Ty, idx: seq<Index>, st: St, ptrBits: nat, env: map<nat, int>, free: nat, target: int, final: int)
    requires Steps(ty, idx) && VarsBelow(idx, free)
    requires Tracks(st, env, free, target) && final == target + Offset(ty, idx, env)
    ensures Tracks(LowerFrom(ty, idx, st, ptrBits), env, free, final)
    decreases idx
  {
    if idx != [] {
      HeadTracks(ty, idx, st, ptrBits, env, free, target);
      LowerFromTracks(Into(ty, idx[0]), idx[1..], Step(st, ty, idx[0], ptrBits), ptrBits, env, free, target + IndexOffset(ty, idx[0], env), final);
    } else {
      assert LowerFrom(ty, idx, st, ptrBits) == st && Offset(ty, idx, env) == 0;
    }
  }

  /** The ptrtoint at the start tracks the GEP's pointer. */
  lemma StartTracks(g: Gep, free: nat, env: map<nat, int>)
    ensures Tracks(Start(g, free), env, free, Get(env, g.base))
  {
    EvalSnoc([], PtrToInt(free, g.base), env);
    assert [] + [PtrToInt(free, g.base)] == Start(g, free).out;
  }

  /**
   * The inttoptr after code that tracks `target` with no pending offset
   * holds `target` modulo 2^ptrBits on the machine.
   */
  lemma FinishTracks(f: St, id: nat, ptrBits: nat, env: map<nat, int>, free: nat, target: int)
    requires ptrBits <= 64 && f.offset == 0 && Tracks(f, env, free, target)
    ensures Get(Exec(f.out + [IntToPtr(id, f.ptr)], env, Pow2(ptrBits)), id) == target % Pow2(ptrBits)
  {
    var m := Pow2(ptrBits);
    var e := Get(Eval(f.out, env), f.ptr);
    IntToPtrExec(f.out, id, f.ptr, env, m);
    assert e + f.offset == e;
    Pow2DividesWord(ptrBits);
    CongDivisor(e, target, m);
  }

  /** The inttoptr at the end holds, on the machine, the unbounded value of its operand reduced modulo `m`. */
  lemma IntToPtrExec(out: seq<Inst>, id: nat, ptr: nat, env: map<nat, int>, m: nat)
    requires m > 0
    ensures Get(Exec(out + [IntToPtr(id, ptr)], env, m), id) == Get(Eval(out, env), ptr) % m
  {
    var last := IntToPtr(id, ptr);
    ExecSnoc(out, last, env, m);
    ExecEval(out, env, m);
    var w := Get(Exec(out, env, m), ptr);
    assert Get(Exec(out + [last], env, m), id) == w % m;
  }

  /** Values congruent modulo 2^64 are congruent modulo any divisor of 2^64. */
  lemma CongDivisor(a: int, b: int, m: nat)
    requires m > 0 && Word % m == 0 && a % Word == b % Word
    ensures a % m == b % m
  {
    WordMod(a, m);
    WordMod(b, m);
  }

  /**
   * The replacement code computes the GEP's address: run on any values of
   * the pointer and the indices, it leaves at the GEP's name the pointer plus
   * every offset, modulo 2^ptrBits. This holds for pointers of at most 64
   * bits, the width of the running offset.
   */
  lemma LoweredComputesAddress(g: Gep, ptrBits: nat, free: nat, env: map<nat, int>)
    requires ptrBits <= 64 && Steps(g.baseTy, g.indices) && VarsBelow(g.indices, free)
    ensures Get(Exec(Lowered(g, ptrBits, free).out, env, Pow2(ptrBits)), g.id) == Address(g, env, ptrBits)
  {
    var st := Start(g, free);
    var b := Get(env, g.base);
    StartTracks(g, free, env);
    assert Tracks(st, env, free, b);
    var target := b + Offset(g.baseTy, g.indices, env);
    LowerFromTracks(g.baseTy, g.indices, st, ptrBits, env, free, b, target);
    var s := LowerFrom(g.baseTy, g.indices, st, ptrBits);
    assert Tracks(s, env, free, target);
    FlushTracks(s, env, free, target);
    var f := Flush(s);
    FlushShape(s);
    assert Tracks(f, env, free, target) && f.offset == 0;
    FinishTracks(f, g.id, ptrBits, env, free, target);
    assert Lowered(g, ptrBits, free).out == f.out + [IntToPtr(g.id, f.ptr)];
  }

  // ---------------------------------------------------------------------------
  // The block pass
  // ---------------------------------------------------------------------------

  /** A GEP the pass rewrites: its pointer operand converts to the pointer-sized integer. */
  predicate Lowerable(inst: Inst) {
    inst.GetElementPtr? && inst.gep.scalarPtr
  }

  /** Every GEP the pass rewrites is well typed. */
  predicate BlockOk(insts: seq<Inst>) {
    forall k :: 0 <= k < |insts| && Lowerable(insts[k]) ==> Steps(insts[k].gep.baseTy, insts[k].gep.indices)
  }

  datatype BlockResult = BlockResult(insts: seq<Inst>, next: nat, changed: bool)

  /** The block after the pass: each lowerable GEP replaced, in order, by its lowering. */
  function LowerBlock(insts: seq<Inst>, ptrBits: nat, free: nat): BlockResult
    requires BlockOk(insts)
    decreases |insts|
  {
    if insts == [] then BlockResult([], free, false)
    else
      assert BlockOk(insts[1..]) by {
        forall k | 0 <= k < |insts| - 1 && Lowerable(insts[1..][k])
          ensures Steps(insts[1..][k].gep.baseTy, insts[1..][k].gep.indices)
        {
          assert insts[1..][k] == insts[k + 1];
        }
      }
      if Lowerable(insts[0]) then
        assert Lowerable(insts[0 + 0]);
        var l := Lowered(insts[0].gep, ptrBits, free);
        var t := LowerBlock(insts[1..], ptrBits, l.next);
        BlockResult(l.out + t.insts, t.next, true)
      else
        var t := LowerBlock(insts[1..], ptrBits, free);
        BlockResult([insts[0]] + t.insts, t.next, t.changed)
  }

  lemma BlockOkSuffix(insts: seq<Inst>, i: nat)
    requires BlockOk(insts) && i <= |insts|
    ensures BlockOk(insts[i..])
  {
    forall k | 0 <= k < |insts| - i && Lowerable(insts[i..][k])
      ensures Steps(insts[i..][k].gep.baseTy, insts[i..][k].gep.indices)
    {
      assert insts[i..][k] == insts[i + k];
    }
  }

  /** One instruction of the block pass. */
  lemma LowerBlockStep(insts: seq<Inst>, ptrBits: nat, free: nat)
    requires BlockOk(insts) && insts != []
    ensures BlockOk(insts[1..])
    ensures Lowerable(insts[0]) ==>
      var l := Lowered(insts[0].gep, ptrBits, free);
      var t := LowerBlock(insts[1..], ptrBits, l.next);
      LowerBlock(insts, ptrBits, free) == BlockResult(l.out + t.insts, t.next, true)
    ensures !Lowerable(insts[0]) ==>
      var t := LowerBlock(insts[1..], ptrBits, free);
      LowerBlock(insts, ptrBits, free) == BlockResult([insts[0]] + t.insts, t.next, t.changed)
  {
    BlockOkSuffix(insts, 1);
  }

  /** The pass reports a change exactly when the block holds a GEP it can lower. */
  lemma {:induction false} LowerBlockChanged(insts: seq<Inst>, ptrBits: nat, free: nat)
    requires BlockOk(insts)
    ensures LowerBlock(insts, ptrBits, free).changed <==> exists k :: 0 <= k < |insts| && Lowerable(insts[k])
    decreases |insts|
  {
    if insts != [] {
      BlockOkSuffix(insts, 1);
      if Lowerable(insts[0]) {
        LowerBlockChanged(insts[1..], ptrBits, Lowered(insts[0].gep, ptrBits, free).next);
      } else {
        LowerBlockChanged(insts[1..], ptrBits, free);
        if exists k :: 0 <= k < |insts| && Lowerable(insts[k]) {
          var k :| 0 <= k < |insts| && Lowerable(insts[k]);
          assert insts[1..][k - 1] == insts[k];
        }
        if exists k :: 0 <= k < |insts| - 1 && Lowerable(insts[1..][k]) {
          var k :| 0 <= k < |insts| - 1 && Lowerable(insts[1..][k]);
          assert insts[1..][k] == insts[k + 1];
        }
      }
    }
  }

  /** No element of the sequence is a GEP the pass would rewrite. */
  predicate NoneLowerable(insts: seq<Inst>) {
    forall k :: 0 <= k < |insts| ==> !Lowerable(insts[k])
  }

  lemma NoneLowerableJoin(a: seq<Inst>, b: seq<Inst>)
    requires NoneLowerable(a) && NoneLowerable(b)
    ensures NoneLowerable(a + b)
  {
    forall k | 0 <= k < |a + b| ensures !Lowerable((a + b)[k]) {
      if k >= |a| {
        assert (a + b)[k] == b[k - |a|];
      }
    }
  }

  /** After the pass no lowerable GEP is left, and a block without one is left as it is. */
  lemma {:induction false} LowerBlockDone(insts: seq<Inst>, ptrBits: nat, free: nat)
    requires BlockOk(insts)
    ensures var r := LowerBlock(insts, ptrBits, free);
      NoneLowerable(r.insts) && (!r.changed ==> r.insts == insts)
    decreases |insts|
  {
    if insts != [] {
      LowerBlockStep(insts, ptrBits, free);
      if Lowerable(insts[0]) {
        var l := Lowered(insts[0].gep, ptrBits, free);
        LoweredShape(insts[0].gep, ptrBits, free);
        LowerBlockDone(insts[1..], ptrBits, l.next);
        NoneLowerableJoin(l.out, LowerBlock(insts[1..], ptrBits, l.next).insts);
      } else {
        LowerBlockDone(insts[1..], ptrBits, free);
        var t := LowerBlock(insts[1..], ptrBits, free);
        NoneLowerableJoin([insts[0]], t.insts);
        if !t.changed {
          assert insts == [insts[0]] + insts[1..];
        }
      }
    }
  }

  /**
   * Replacing the element at `i` by `out` leaves the prefix done so far
   * followed by `out`, and the elements after `i` still to visit.
   */
  lemma Splice(before: seq<Inst>, i: nat, out: seq<Inst>, t: seq<Inst>, total: seq<Inst>)
    requires i < |before| && before[..i] + (out + t) == total
    ensures var after := before[..i] + out + before[i + 1..];
      i + |out| <= |after| && after[i + |out|..] == before[i..][1..] && after[..i + |out|] + t == total
  {
    var after := before[..i] + out + before[i + 1..];
    assert after[..i + |out|] == before[..i] + out;
    assert after[i + |out|..] == before[i + 1..] == before[i..][1..];
  }

  class BasicBlock {
    var insts: seq<Inst>
    /** The next unused value name. */
    var next: nat

    constructor (insts: seq<Inst>, next: nat)
      ensures this.insts == insts && this.next == next
    {
      this.insts := insts;
      this.next := next;
    }

    /**
     * `runOnBasicBlock`: the iterator moves past each instruction before it is
     * lowered, so the new code lands before the GEP and the walk continues
     * after it once the GEP is erased.
     */
    method RunOnBasicBlock(ptrBits: nat) returns (modified: bool)
      requires BlockOk(insts)
      modifies this
      ensures BlockResult(insts, next, modified) == LowerBlock(old(insts), ptrBits, old(next))
    {
      ghost var total := LowerBlock(insts, ptrBits, next);
      modified := false;
      var i: nat := 0;
      BlockOkSuffix(insts, 0);
      assert insts[..0] == [] && insts[0..] == insts;
      while i < |insts|
        invariant i <= |insts| && BlockOk(insts[i..])
        invariant insts[..i] + LowerBlock(insts[i..], ptrBits, next).insts == total.insts
        invariant LowerBlock(insts[i..], ptrBits, next).next == total.next
        invariant (modified || LowerBlock(insts[i..], ptrBits, next).changed) == total.changed
        decreases |insts| - i
      {
        var inst := insts[i];
        ghost var rest := insts[i..];
        assert rest[0] == inst && rest[1..] == insts[i + 1..];
        LowerBlockStep(rest, ptrBits, next);
        if inst.GetElementPtr? && inst.gep.scalarPtr {
          var out, n := LowerGEP(inst.gep, ptrBits, next);
          ghost var t := LowerBlock(rest[1..], ptrBits, n);
          assert LowerBlock(rest, ptrBits, next) == BlockResult(out + t.insts, t.next, true);
          var before := insts;
          insts := before[..i] + out + before[i + 1..];
          Splice(before, i, out, t.insts, total.insts);
          next := n;
          i := i + |out|;
          modified := true;
        } else {
          ghost var t := LowerBlock(rest[1..], ptrBits, next);
          assert LowerBlock(rest, ptrBits, next) == BlockResult([inst] + t.insts, t.next, t.changed);
          Splice(insts, i, [inst], t.insts, total.insts);
          assert insts[..i] + [inst] + insts[i + 1..] == insts;
          i := i + 1;
        }
      }
      assert insts[..i] == insts;
    }
  }
}
