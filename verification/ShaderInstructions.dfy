/**
  What an emitted instruction computes, channel by channel, and when that is what the
  Direct3D 9 instruction means.
 */
module ShaderInstructions {
  import opened Options
  import opened ShaderIr
  import opened ShaderSemantics
  import opened Msl
  import opened MslEmitter
  import opened ShaderInterface
  import opened ShaderOperands

  // ---------------------------------------------------------------- pointwise operations

  // How many of its operands a pointwise operation reads; SGN has two scratch operands.
  function Arity(op: Op): nat {
    if op.Sgn? then 1 else SourceCount(op)
  }

  function CombineAll(m: Math, op: Op, a: Vector, b: Vector, c: Vector): (r: Vector)
    requires Pointwise(op) && |a| == |b| == |c|
    ensures |r| == |a| && forall k :: 0 <= k < |a| ==> r[k] == Combine(m, op, a[k], b[k], c[k])
  {
    seq(|a|, k requires 0 <= k < |a| => Combine(m, op, a[k], b[k], c[k]))
  }

  ghost predicate Gives(m: Math, env: Env, e: Expr, v: Vector) {
    Eval(m, env, e) == Some(v)
  }

  lemma {:induction false} FilledMeans(m: Math, env: Env, n: nat, x: real)
    requires 1 <= n <= 4
    ensures Gives(m, env, Filled(n, x), SplatTo(n, x))
  {
    assert Eval(m, env, Num(x)) == Some([x]);
  }

  lemma {:induction false} CombineSelectMeans(m: Math, env: Env, op: Op, a: Expr, b: Expr, c: Expr, x: Vector, y: Vector, z: Vector)
    requires IsSelectOp(op) && 1 <= |x| <= 4 && |x| == |y| == |z|
    requires Gives(m, env, a, x) && Gives(m, env, b, y) && (Arity(op) > 2 ==> Gives(m, env, c, z))
    ensures Gives(m, env, CombineExpr(op, a, b, c, |x|), CombineAll(m, op, x, y, z))
  {
    hide Filled, Gives, Eval, CombineAll, SelectMap, Combine;
    FilledMeans(m, env, |x|, 0.0);
    FilledMeans(m, env, |x|, 1.0);
    SelectIsCombine(m, op, x, y, z);
    var zeros, ones := SplatTo(|x|, 0.0), SplatTo(|x|, 1.0);
    if op.Cmp? {
      SelectMeans(m, env, c, b, Ge, a, Filled(|x|, 0.0), z, y, x, zeros);
    } else {
      SelectMeans(m, env, Filled(|x|, 0.0), Filled(|x|, 1.0), if op.Slt? then Lt else Ge, a, b, zeros, ones, x, y);
    }
  }

  lemma {:induction false} SelectIsCombine(m: Math, op: Op, x: Vector, y: Vector, z: Vector)
    requires IsSelectOp(op) && |x| == |y| == |z|
    ensures var zeros, ones := SplatTo(|x|, 0.0), SplatTo(|x|, 1.0);
      CombineAll(m, op, x, y, z) == if op.Cmp? then SelectMap(z, y, Ge, x, zeros)
                                    else SelectMap(zeros, ones, if op.Slt? then Lt else Ge, x, y)
  {
    hide SelectMap, CombineAll;
  }

  lemma {:induction false} SelectMeans(m: Math, env: Env, no: Expr, yes: Expr, cmp: Cmp, a: Expr, b: Expr,
                                       v0: Vector, v1: Vector, v: Vector, w: Vector)
    requires 1 <= |v0| <= 4 && |v0| == |v1| == |v| == |w|
    requires Gives(m, env, no, v0) && Gives(m, env, yes, v1) && Gives(m, env, a, v) && Gives(m, env, b, w)
    ensures Gives(m, env, Select(no, yes, cmp, a, b), SelectMap(v0, v1, cmp, v, w))
  {
  }

  lemma {:induction false} CombineUnaryMeans(m: Math, env: Env, op: Op, a: Expr, b: Expr, c: Expr, x: Vector, y: Vector, z: Vector, n: nat)
    requires Pointwise(op) && Arity(op) == 1 && |x| == |y| == |z| && (op.Rcp? ==> |x| == 1)
    requires Gives(m, env, a, x)
    ensures Gives(m, env, CombineExpr(op, a, b, c, n), CombineAll(m, op, x, y, z))
  {
    hide Gives, Eval, CombineAll, Map1, Map2;
    UnaryIsCombine(m, op, x, y, z);
    if op.Rcp? {
      ReciprocalGives(m, env, a, x);
    } else if op.Rsq? || op.Log? {
      UnaryGives(m, env, AbsOf, a, x);
      UnaryGives(m, env, UnaryFn(op), Un(AbsOf, a), Map1(m, AbsOf, x));
    } else if !op.Mov? {
      UnaryGives(m, env, UnaryFn(op), a, x);
    }
  }

  // The Metal function of an operation of one source.
  function UnaryFn(op: Op): Fn1 {
    match op
    case Rsq => Rsqrt
    case Exp => Exp2
    case Log => Log2
    case Frc => FractOf
    case Abs => AbsOf
    case _ => SignOf
  }

  lemma {:induction false} ReciprocalGives(m: Math, env: Env, a: Expr, x: Vector)
    requires |x| == 1 && Gives(m, env, a, x)
    ensures Gives(m, env, Bin(Over, Num(1.0), a), Map2(m, Over, [1.0], x))
  {
    assert Gives(m, env, Num(1.0), [1.0]);
  }

  lemma {:induction false} UnaryIsCombine(m: Math, op: Op, x: Vector, y: Vector, z: Vector)
    requires Pointwise(op) && Arity(op) == 1 && |x| == |y| == |z| && (op.Rcp? ==> |x| == 1)
    ensures CombineAll(m, op, x, y, z) ==
      if op.Mov? then x
      else if op.Rcp? then Map2(m, Over, [1.0], x)
      else if op.Rsq? || op.Log? then Map1(m, UnaryFn(op), Map1(m, AbsOf, x))
      else Map1(m, UnaryFn(op), x)
  {
    hide CombineAll, Map1, Map2, AbsR, Fract, Sign;
  }

  lemma {:induction false} UnaryGives(m: Math, env: Env, f: Fn1, e: Expr, x: Vector)
    requires Gives(m, env, e, x)
    ensures Gives(m, env, Un(f, e), Map1(m, f, x))
  {
  }

  lemma {:induction false} CombineBinaryMeans(m: Math, env: Env, op: Op, a: Expr, b: Expr, c: Expr, x: Vector, y: Vector, z: Vector, n: nat)
    requires Pointwise(op) && Arity(op) == 2 && !IsSelectOp(op) && |x| == |y| == |z|
    requires Gives(m, env, a, x) && Gives(m, env, b, y)
    ensures Gives(m, env, CombineExpr(op, a, b, c, n), CombineAll(m, op, x, y, z))
  {
    hide Gives, Eval, CombineAll, Map1, Map2;
    BinaryIsCombine(m, op, x, y, z);
    if op.Pow? {
      UnaryGives(m, env, AbsOf, a, x);
      BinaryGives(m, env, Power, Un(AbsOf, a), b, Map1(m, AbsOf, x), y);
    } else {
      BinaryGives(m, env, BinaryFn(op), a, b, x, y);
    }
  }

  function BinaryFn(op: Op): Fn2 {
    match op
    case Add => Plus
    case Sub => Minus
    case Mul => Times
    case Min => MinOf
    case Max => MaxOf
    case _ => Power
  }

  lemma {:induction false} BinaryGives(m: Math, env: Env, f: Fn2, a: Expr, b: Expr, x: Vector, y: Vector)
    requires |x| == |y| && Gives(m, env, a, x) && Gives(m, env, b, y)
    ensures Gives(m, env, Bin(f, a, b), Map2(m, f, x, y))
  {
  }

  lemma {:induction false} BinaryIsCombine(m: Math, op: Op, x: Vector, y: Vector, z: Vector)
    requires Pointwise(op) && Arity(op) == 2 && !IsSelectOp(op) && |x| == |y| == |z|
    ensures CombineAll(m, op, x, y, z) ==
      if op.Pow? then Map2(m, Power, Map1(m, AbsOf, x), y) else Map2(m, BinaryFn(op), x, y)
  {
    hide CombineAll, Map1, Map2, AbsR, MinR, MaxR;
  }

  lemma {:induction false} MixForm(f: real, a: real, b: real)
    ensures b + (a - b) * f == f * (a - b) + b
  {
  }

  lemma {:induction false} CombineTernaryMeans(m: Math, env: Env, op: Op, a: Expr, b: Expr, c: Expr, x: Vector, y: Vector, z: Vector, n: nat)
    requires (op.Mad? || op.Lrp?) && |x| == |y| == |z|
    requires Gives(m, env, a, x) && Gives(m, env, b, y) && Gives(m, env, c, z)
    ensures Gives(m, env, CombineExpr(op, a, b, c, n), CombineAll(m, op, x, y, z))
  {
    hide Gives, Eval, CombineAll, Map2, MixMap;
    if op.Mad? {
      BinaryGives(m, env, Times, a, b, x, y);
      BinaryGives(m, env, Plus, Bin(Times, a, b), c, Map2(m, Times, x, y), z);
      assert Map2(m, Plus, Map2(m, Times, x, y), z) == CombineAll(m, op, x, y, z);
    } else {
      MixGives(m, env, c, b, a, z, y, x);
      forall k | 0 <= k < |x| ensures MixMap(z, y, x)[k] == CombineAll(m, op, x, y, z)[k] {
        MixForm(x[k], y[k], z[k]);
      }
      assert MixMap(z, y, x) == CombineAll(m, op, x, y, z);
    }
  }

  lemma {:induction false} MixGives(m: Math, env: Env, a: Expr, b: Expr, c: Expr, x: Vector, y: Vector, z: Vector)
    requires |x| == |y| == |z| && Gives(m, env, a, x) && Gives(m, env, b, y) && Gives(m, env, c, z)
    ensures Gives(m, env, Mix(a, b, c), MixMap(x, y, z))
  {
  }

  lemma {:induction false} CombineMeans(m: Math, env: Env, op: Op, a: Expr, b: Expr, c: Expr, x: Vector, y: Vector, z: Vector, n: nat)
    requires Pointwise(op) && 1 <= |x| <= 4 && |x| == |y| == |z|
    requires Gives(m, env, a, x) && (Arity(op) > 1 ==> Gives(m, env, b, y)) && (Arity(op) > 2 ==> Gives(m, env, c, z))
    requires (op.Rcp? ==> |x| == 1) && (IsSelectOp(op) ==> n == |x|)
    ensures Gives(m, env, CombineExpr(op, a, b, c, n), CombineAll(m, op, x, y, z))
  {
    hide Gives, CombineExpr, CombineAll;
    if IsSelectOp(op) {
      CombineSelectMeans(m, env, op, a, b, c, x, y, z);
    } else if Arity(op) == 1 {
      CombineUnaryMeans(m, env, op, a, b, c, x, y, z, n);
    } else if Arity(op) == 2 {
      CombineBinaryMeans(m, env, op, a, b, c, x, y, z, n);
    } else {
      CombineTernaryMeans(m, env, op, a, b, c, x, y, z, n);
    }
  }

  // An operand that the operation reads and that is ill-typed makes the expression ill-typed.
  ghost predicate ReadsUntyped(m: Math, env: Env, op: Op, a: Expr, b: Expr, c: Expr) {
    Eval(m, env, a).None? || (Arity(op) > 1 && Eval(m, env, b).None?) || (Arity(op) > 2 && Eval(m, env, c).None?)
  }

  lemma {:induction false} UnaryUntyped(m: Math, env: Env, op: Op, a: Expr, b: Expr, c: Expr, n: nat)
    requires Pointwise(op) && Arity(op) == 1 && ReadsUntyped(m, env, op, a, b, c)
    ensures Eval(m, env, CombineExpr(op, a, b, c, n)).None?
  {
    hide Eval;
    UntypedStays(m, env, a);
    UntypedStays(m, env, Un(AbsOf, a));
  }

  lemma {:induction false} BinaryUntyped(m: Math, env: Env, op: Op, a: Expr, b: Expr, c: Expr, n: nat)
    requires Pointwise(op) && !IsSelectOp(op) && Arity(op) == 2 && ReadsUntyped(m, env, op, a, b, c)
    ensures Eval(m, env, CombineExpr(op, a, b, c, n)).None?
  {
    hide Eval;
    if Eval(m, env, a).None? {
      UntypedStays(m, env, a);
      UntypedStays(m, env, Un(AbsOf, a));
    } else {
      UntypedStays(m, env, b);
    }
  }

  lemma {:induction false} TernaryUntyped(m: Math, env: Env, op: Op, a: Expr, b: Expr, c: Expr, n: nat)
    requires (op.Mad? || op.Lrp?) && ReadsUntyped(m, env, op, a, b, c)
    ensures Eval(m, env, CombineExpr(op, a, b, c, n)).None?
  {
    if op.Mad? && Eval(m, env, c).Some? {
      assert Eval(m, env, Bin(Times, a, b)).None?;
    }
  }

  lemma {:induction false} SelectUntyped(m: Math, env: Env, op: Op, a: Expr, b: Expr, c: Expr, n: nat)
    requires IsSelectOp(op) && ReadsUntyped(m, env, op, a, b, c)
    ensures Eval(m, env, CombineExpr(op, a, b, c, n)).None?
  {
    hide Filled;
  }

  lemma {:induction false} CombineUntyped(m: Math, env: Env, op: Op, a: Expr, b: Expr, c: Expr, n: nat)
    requires Pointwise(op) && ReadsUntyped(m, env, op, a, b, c)
    ensures Eval(m, env, CombineExpr(op, a, b, c, n)).None?
  {
    hide Eval, CombineExpr, ReadsUntyped;
    if IsSelectOp(op) {
      SelectUntyped(m, env, op, a, b, c, n);
    } else if Arity(op) == 1 {
      UnaryUntyped(m, env, op, a, b, c, n);
    } else if Arity(op) == 2 {
      BinaryUntyped(m, env, op, a, b, c, n);
    } else {
      TernaryUntyped(m, env, op, a, b, c, n);
    }
  }

  // ---------------------------------------------------------------- whole instructions

  function OperandWidth(i: Instruction, k: nat): nat {
    if i.op.Dp3? then 3
    else if i.op.Dp4? then 4
    else if i.op.Dp2Add? then if k == 2 then 1 else 2
    else if IsScalarOp(i.op) then 1
    else MaskCount(i.dst.writeMask)
  }

  predicate SourcesTyped(p: Program, i: Instruction)
    requires |i.src| == SourceCount(i.op)
  {
    forall k :: 0 <= k < Arity(i.op) ==> OperandTyped(p, i.src[k], OperandWidth(i, k))
  }

  // An arithmetic instruction on registers that the model covers.
  predicate Arithmetic(p: Program, i: Instruction) {
    && Executable(p, i) && !i.op.SinCos?
    && !i.dst.relative && Writable(LocOf(p, i.dst).value)
    && forall k :: 0 <= k < |i.src| ==> Plainly(p, i.src[k])
  }

  // The channel whose meaning the k-th assigned component gets.
  function Picked(i: Instruction, k: Lane): Lane {
    if Pointwise(i.op) && !IsScalarOp(i.op) then k else 0
  }

  // What the emitted right-hand side computes: packed channels, not masked ones.
  function Computed(m: Math, p: Program, regs: Regs, i: Instruction): (v: Vector)
    requires Executable(p, i)
    ensures |v| == MaskCount(i.dst.writeMask)
    ensures forall k :: 0 <= k < |v| ==> v[k] == Channel(m, p, regs, i, Picked(i, k))
  {
    seq(MaskCount(i.dst.writeMask), k requires 0 <= k < MaskCount(i.dst.writeMask) =>
      Channel(m, p, regs, i, Picked(i, k)))
  }

  lemma {:induction false} FittedVector(m: Math, env: Env, i: Instruction, e: Expr)
    requires DstWidth(i.dst) == MaskCount(i.dst.writeMask)
    requires Eval(m, env, e).Some? ==> |Eval(m, env, e).value| == DstWidth(i.dst)
    ensures Eval(m, env, Fitted(i, Rhs(e, false)))
         == if DstWidth(i.dst) == 1 && !AllReplicated(i) then None else Eval(m, env, e)
    ensures Eval(m, env, Fitted(i, Rhs(e, DstWidth(i.dst) == 1))) == Eval(m, env, e)
  {
    hide AllReplicated, DclWidth;
    var v := Eval(m, env, e);
    if v.Some? {
      assert v.value[..|v.value|] == v.value;
    }
  }

  lemma {:induction false} FittedScalar(m: Math, env: Env, i: Instruction, e: Expr)
    requires DstWidth(i.dst) == MaskCount(i.dst.writeMask) && 1 <= DstWidth(i.dst) <= 4
    requires Eval(m, env, e).Some? ==> |Eval(m, env, e).value| == 1
    ensures Eval(m, env, Fitted(i, Rhs(e, true)))
         == if Eval(m, env, e).None? then None else Some(SplatTo(DstWidth(i.dst), Eval(m, env, e).value[0]))
  {
    hide AllReplicated, DclWidth, MaskCount;
    var v := Eval(m, env, e);
    if v.Some? {
      assert v.value == SplatTo(1, v.value[0]);
    }
  }

  lemma {:induction false} DestinationWidth(p: Program, i: Instruction)
    requires LocOf(p, i.dst).Some? && MaskCount(i.dst.writeMask) > 0
    ensures 1 <= DstWidth(i.dst) == MaskCount(i.dst.writeMask) <= 4
  {
  }

  // Operand k of an instruction as a vector; zeros stand for an operand it does not have.
  function OperandValue(m: Math, p: Program, regs: Regs, i: Instruction, k: nat, w: nat): (v: Vector)
    requires SourcesExist(p, i) && w <= 4
    ensures |v| == w && forall c :: 0 <= c < w ==> v[c] == SourceChannel(m, p, regs, i, k, c)
  {
    if k < |i.src| then Channels(m, p, regs, i.src[k], w) else SplatTo(w, 0.0)
  }

  lemma {:induction false} OperandAtMeans(m: Math, p: Program, regs: Regs, env: Env, i: Instruction, k: nat, w: nat)
    requires Agrees(p, regs, env) && Narrow(p, regs) && 1 <= w <= 4
    requires SourcesExist(p, i) && k < |i.src| && Plainly(p, i.src[k])
    ensures Eval(m, env, OperandAt(p, i, k, w))
         == if OperandTyped(p, i.src[k], w) then Some(OperandValue(m, p, regs, i, k, w)) else None
  {
    OperandMeans(m, p, regs, env, i.src[k], w);
  }

  // The operands that the operation reads are well typed at width w.
  predicate TypedAt(p: Program, i: Instruction, w: nat)
    requires |i.src| == SourceCount(i.op)
  {
    forall k :: 0 <= k < Arity(i.op) ==> OperandTyped(p, i.src[k], w)
  }

  // The expression of a pointwise instruction at width w, and the values it should give.
  function PointwiseExpr(p: Program, i: Instruction, w: nat): Expr
    requires Pointwise(i.op)
  {
    CombineExpr(i.op, OperandAt(p, i, 0, w), OperandAt(p, i, 1, w), OperandAt(p, i, 2, w), w)
  }

  function PointwiseValue(m: Math, p: Program, regs: Regs, i: Instruction, w: nat): (v: Vector)
    requires Pointwise(i.op) && SourcesExist(p, i) && w <= 4
    ensures |v| == w
    ensures forall k :: 0 <= k < w ==> v[k] == Channel(m, p, regs, i, k)
  {
    CombineAll(m, i.op, OperandValue(m, p, regs, i, 0, w), OperandValue(m, p, regs, i, 1, w),
               OperandValue(m, p, regs, i, 2, w))
  }

  lemma {:induction false} PointwiseTyped(m: Math, p: Program, regs: Regs, env: Env, i: Instruction, w: nat)
    requires Arithmetic(p, i) && Pointwise(i.op) && Agrees(p, regs, env) && Narrow(p, regs)
    requires 1 <= w <= 4 && (IsScalarOp(i.op) ==> w == 1) && TypedAt(p, i, w)
    ensures Gives(m, env, PointwiseExpr(p, i, w), PointwiseValue(m, p, regs, i, w))
  {
    OperandAtMeans(m, p, regs, env, i, 0, w);
    if |i.src| > 1 { OperandAtMeans(m, p, regs, env, i, 1, w); }
    if |i.src| > 2 { OperandAtMeans(m, p, regs, env, i, 2, w); }
    hide Agrees, Narrow, Eval, OperandAt, OperandValue, OperandTyped, LocOf, CombineExpr, CombineAll, Channel, Source;
    CombineMeans(m, env, i.op, OperandAt(p, i, 0, w), OperandAt(p, i, 1, w), OperandAt(p, i, 2, w),
                 OperandValue(m, p, regs, i, 0, w), OperandValue(m, p, regs, i, 1, w),
                 OperandValue(m, p, regs, i, 2, w), w);
  }

  lemma {:induction false} PointwiseUntyped(m: Math, p: Program, regs: Regs, env: Env, i: Instruction, w: nat)
    requires Arithmetic(p, i) && Pointwise(i.op) && Agrees(p, regs, env) && Narrow(p, regs)
    requires 1 <= w <= 4 && !TypedAt(p, i, w)
    ensures Eval(m, env, PointwiseExpr(p, i, w)).None?
  {
    hide Agrees, Narrow, Eval, OperandAt, OperandValue, OperandTyped, LocOf, CombineExpr, Channel, Source, Writable, Covered, Combine;
    var k :| 0 <= k < Arity(i.op) && !OperandTyped(p, i.src[k], w);
    OperandAtMeans(m, p, regs, env, i, k, w);
    CombineUntyped(m, env, i.op, OperandAt(p, i, 0, w), OperandAt(p, i, 1, w), OperandAt(p, i, 2, w), w);
  }

  lemma {:induction false} DotMeans(m: Math, env: Env, a: Expr, b: Expr, v: Option<Vector>, w: Option<Vector>, n: nat)
    requires Eval(m, env, a) == v && Eval(m, env, b) == w && 2 <= n <= 4
    requires (v.Some? ==> |v.value| == n) && (w.Some? ==> |w.value| == n)
    ensures Eval(m, env, Dot(a, b)) == if v.Some? && w.Some? then Some([DotSum(v.value, w.value)]) else None
    ensures Eval(m, env, Dot(Prefix(a, n), Prefix(b, n))) == Eval(m, env, Dot(a, b))
  {
    hide DotSum;
    PrefixMeans(m, env, a, n);
    PrefixMeans(m, env, b, n);
  }

  lemma {:induction false} PrefixMeans(m: Math, env: Env, a: Expr, n: nat)
    requires Eval(m, env, a).Some? ==> 2 <= |Eval(m, env, a).value| == n
    ensures Eval(m, env, Prefix(a, n)) == Eval(m, env, a)
  {
    PrefixUnfolds(m, env, a, n);
    hide Eval;
    var v := Eval(m, env, a);
    if v.Some? {
      assert v.value[..n] == v.value;
    }
  }

  lemma {:induction false} PrefixUnfolds(m: Math, env: Env, a: Expr, n: nat)
    ensures var v := Eval(m, env, a);
      Eval(m, env, Prefix(a, n)) == if v.None? || |v.value| < 2 || !(1 <= n <= |v.value|) then None else Some(v.value[..n])
  {
  }

  lemma {:induction false} DotForm(p: Program, i: Instruction)
    requires Arithmetic(p, i) && !Pointwise(i.op)
    ensures var n := OperandWidth(i, 0);
      var a, b := OperandAt(p, i, 0, n), OperandAt(p, i, 1, n);
      && 2 <= n <= 4 && |i.src| >= 2
      && (i.op.Dp2Add? ==> |i.src| == 3 && RhsOf(p, i).e == Bin(Plus, Dot(a, b), OperandAt(p, i, 2, 1)))
      && (!i.op.Dp2Add? ==> RhsOf(p, i).e == Dot(a, b) || RhsOf(p, i).e == Dot(Prefix(a, n), Prefix(b, n)))
      && (SourcesTyped(p, i) <==>
            OperandTyped(p, i.src[0], n) && OperandTyped(p, i.src[1], n) && (i.op.Dp2Add? ==> OperandTyped(p, i.src[2], 1)))
  {
    hide OperandTyped, LocOf, OperandAt;
  }

  // The right-hand side of an instruction that is not pointwise is one number.
  lemma {:induction false} DotValue(m: Math, p: Program, regs: Regs, env: Env, i: Instruction)
    requires Arithmetic(p, i) && !Pointwise(i.op) && Agrees(p, regs, env) && Narrow(p, regs)
    ensures Eval(m, env, RhsOf(p, i).e)
         == if SourcesTyped(p, i) then Some([Channel(m, p, regs, i, 0)]) else None
  {
    hide Agrees, Narrow, OperandAt, OperandValue, OperandTyped, Source, DotSum, Eval, RhsOf, SourcesTyped, Channel, OperandWidth,
      LocOf, Combine, Execute, Writable, Covered;
    var n := OperandWidth(i, 0);
    var a, b := OperandAt(p, i, 0, n), OperandAt(p, i, 1, n);
    DotForm(p, i);
    OperandAtMeans(m, p, regs, env, i, 0, n);
    OperandAtMeans(m, p, regs, env, i, 1, n);
    DotMeans(m, env, a, b, Eval(m, env, a), Eval(m, env, b), n);
    DotSumsAreChannels(m, p, regs, i);
    if i.op.Dp2Add? {
      OperandAtMeans(m, p, regs, env, i, 2, 1);
      SumMeans(m, env, Dot(a, b), OperandAt(p, i, 2, 1));
    }
  }

  lemma {:induction false} SumMeans(m: Math, env: Env, a: Expr, b: Expr)
    requires Eval(m, env, a).Some? ==> |Eval(m, env, a).value| == 1
    requires Eval(m, env, b).Some? ==> |Eval(m, env, b).value| == 1
    ensures var v, w := Eval(m, env, a), Eval(m, env, b);
      Eval(m, env, Bin(Plus, a, b)) == if v.Some? && w.Some? then Some([v.value[0] + w.value[0]]) else None
  {
    hide Eval;
    var v, w := Eval(m, env, a), Eval(m, env, b);
    if v.Some? && w.Some? {
      assert v.value == [v.value[0]] && w.value == [w.value[0]];
      BinMeans(m, env, Plus, a, b, v.value[0], w.value[0]);
    } else if v.None? {
      UntypedStays(m, env, a);
    } else {
      UntypedStays(m, env, b);
    }
  }

  lemma {:induction false} DotSumsAreChannels(m: Math, p: Program, regs: Regs, i: Instruction)
    requires SourcesExist(p, i) && Covered(i.op) && !Pointwise(i.op) && !i.op.SinCos?
    ensures var n := OperandWidth(i, 0);
      DotSum(OperandValue(m, p, regs, i, 0, n), OperandValue(m, p, regs, i, 1, n))
      + (if i.op.Dp2Add? then OperandValue(m, p, regs, i, 2, 1)[0] else 0.0)
      == Channel(m, p, regs, i, 0)
  {
    hide OperandValue, SourceChannel, LocOf;
  }

  // The widths of the operands, and the one-channel comparison that Metal cannot cut.
  predicate RhsTyped(p: Program, i: Instruction)
    requires |i.src| == SourceCount(i.op)
  {
    SourcesTyped(p, i) && (IsSelectOp(i.op) && MaskCount(i.dst.writeMask) == 1 ==> AllReplicated(i))
  }

  lemma {:induction false} WidthOnlyMatters(op: Op, a: Expr, b: Expr, c: Expr, n: nat, k: nat)
    requires Pointwise(op) && !IsSelectOp(op)
    ensures CombineExpr(op, a, b, c, n) == CombineExpr(op, a, b, c, k)
  {
  }

  lemma {:induction false} PointwiseForm(p: Program, i: Instruction)
    requires Arithmetic(p, i) && Pointwise(i.op) && MaskCount(i.dst.writeMask) > 0
    ensures RhsOf(p, i) == Rhs(PointwiseExpr(p, i, PointwiseWidth(i)),
                               IsScalarOp(i.op) || (!IsSelectOp(i.op) && PointwiseWidth(i) == 1))
    ensures SourcesTyped(p, i) == TypedAt(p, i, PointwiseWidth(i))
  {
    hide OperandTyped, LocOf, OperandAt, DstWidth, CombineExpr;
    var w, n := PointwiseWidth(i), MaskCount(i.dst.writeMask);
    DestinationWidth(p, i);
    if !IsSelectOp(i.op) {
      WidthOnlyMatters(i.op, OperandAt(p, i, 0, w), OperandAt(p, i, 1, w), OperandAt(p, i, 2, w), n, w);
    }
  }

  lemma {:induction false} PointwiseAssigned(m: Math, p: Program, regs: Regs, env: Env, i: Instruction)
    requires Arithmetic(p, i) && Pointwise(i.op) && Agrees(p, regs, env) && Narrow(p, regs)
    requires MaskCount(i.dst.writeMask) > 0
    ensures Eval(m, env, Fitted(i, RhsOf(p, i)))
         == if RhsTyped(p, i) then Some(Computed(m, p, regs, i)) else None
  {
    hide Agrees, Narrow, Eval, Fitted, OperandTyped, LocOf, PointwiseExpr, Channel, AllReplicated, MaskCount, DstWidth,
      SourcesTyped, TypedAt, RhsOf;
    DestinationWidth(p, i);
    PointwiseForm(p, i);
    var w := PointwiseWidth(i);
    var n := MaskCount(i.dst.writeMask);
    var e := PointwiseExpr(p, i, w);
    if TypedAt(p, i, w) {
      PointwiseTyped(m, p, regs, env, i, w);
    } else {
      PointwiseUntyped(m, p, regs, env, i, w);
    }
    if IsScalarOp(i.op) {
      FittedScalar(m, env, i, e);
      if SourcesTyped(p, i) {
        assert SplatTo(n, PointwiseValue(m, p, regs, i, 1)[0]) == Computed(m, p, regs, i);
      }
    } else {
      FittedVector(m, env, i, e);
      if SourcesTyped(p, i) {
        assert PointwiseValue(m, p, regs, i, n) == Computed(m, p, regs, i);
      }
    }
  }

  /** An arithmetic instruction's right-hand side is well typed exactly when its operands are
      and a one-channel comparison has replicated sources; it then holds the channels the
      instruction means, packed from channel 0. */
  lemma {:induction false} AssignedValue(m: Math, p: Program, regs: Regs, env: Env, i: Instruction)
    requires Arithmetic(p, i) && Agrees(p, regs, env) && Narrow(p, regs)
    requires MaskCount(i.dst.writeMask) > 0
    ensures Eval(m, env, Fitted(i, RhsOf(p, i)))
         == if RhsTyped(p, i) then Some(Computed(m, p, regs, i)) else None
  {
    if Pointwise(i.op) {
      PointwiseAssigned(m, p, regs, env, i);
    } else {
      DestinationWidth(p, i);
      DotValue(m, p, regs, env, i);
      FittedScalar(m, env, i, RhsOf(p, i).e);
      hide Agrees, Narrow, Eval, Fitted, LocOf, Channel, RhsTyped, MaskCount, DstWidth, SourcesTyped;
      assert RhsTyped(p, i) == SourcesTyped(p, i) by { DotRhsTyped(p, i); }
      if SourcesTyped(p, i) {
        assert SplatTo(MaskCount(i.dst.writeMask), Channel(m, p, regs, i, 0)) == Computed(m, p, regs, i);
      }
    }
  }

  lemma {:induction false} DotRhsTyped(p: Program, i: Instruction)
    requires |i.src| == SourceCount(i.op) && !IsSelectOp(i.op)
    ensures RhsTyped(p, i) == SourcesTyped(p, i)
  {
  }
}
