/**
  What an emitted operand and an emitted instruction compute, and exactly when that is what
  the Direct3D 9 instruction means.
 */
module ShaderOperands {
  import opened Options
  import opened ShaderIr
  import opened ShaderSemantics
  import opened Msl
  import opened MslEmitter
  import opened ShaderInterface

  // ---------------------------------------------------------------- matching states

  function LocName(p: Program, l: Loc): Name {
    match l
    case Temp(n) => R(n)
    case Input(n) => InV(n)
    case TexCoord(n) => InT(n)
    case Constant(n) => if n < 256 && Defined(p.defs, n) then CDef(n) else C(n)
    case IntConst(n) => I(n)
    case BoolConst(n) => B(n)
    case Position => OutPosition
    case Attribute(n) => OutOD(n)
    case Out(n) => if p.vertex && p.major < 3 then OutOT(n) else OutO(n)
    case Color(n) => OC(n)
  }

  lemma {:induction false} NameOfLocation(p: Program, r: Register)
    requires LocOf(p, r).Some? && !r.relative
    ensures NameOf(p, r) == LocName(p, LocOf(p, r).value)
  {
    hide Defined, FindOutputDcl;
  }

  /** Distinct registers have distinct names. */
  lemma {:induction false} NamesAreDistinct(p: Program, a: Loc, b: Loc)
    ensures LocName(p, a) == LocName(p, b) <==> a == b
  {
    hide Defined;
  }

  // ---------------------------------------------------------------- widths

  function LaneIf(on: bool, c: Lane): set<Lane> {
    if on then {c} else {}
  }

  lemma {:induction false} OneMore(s: set<Lane>, on: bool, c: Lane)
    requires c !in s
    ensures |s + LaneIf(on, c)| == |s| + if on then 1 else 0
  {
  }

  function FourLanes(x: bool, y: bool, z: bool, w: bool): set<Lane> {
    LaneIf(x, 0) + LaneIf(y, 1) + LaneIf(z, 2) + LaneIf(w, 3)
  }

  function One(on: bool): nat { if on then 1 else 0 }

  lemma {:induction false} FourCounted(x: bool, y: bool, z: bool, w: bool)
    ensures |FourLanes(x, y, z, w)| == One(x) + One(y) + One(z) + One(w)
  {
    OneMore({}, x, 0);
    assert {} + LaneIf(x, 0) == LaneIf(x, 0);
    OneMore(LaneIf(x, 0), y, 1);
    OneMore(LaneIf(x, 0) + LaneIf(y, 1), z, 2);
    OneMore(LaneIf(x, 0) + LaneIf(y, 1) + LaneIf(z, 2), w, 3);
  }

  lemma {:induction false} LanesAre(mask: Nibble)
    ensures Lanes(mask) == FourLanes(Selected(mask, 0), Selected(mask, 1), Selected(mask, 2), Selected(mask, 3))
  {
    hide Selected;
  }

  lemma {:induction false} LanesCounted(mask: Nibble)
    ensures |Lanes(mask)| == MaskCount(mask)
  {
    hide Lanes, FourLanes;
    LanesAre(mask);
    FourCounted(Selected(mask, 0), Selected(mask, 1), Selected(mask, 2), Selected(mask, 3));
  }

  lemma {:induction false} WidthOfMask(mask: Nibble)
    ensures DclWidth(mask) == AttributeWidth(mask)
  {
    LanesCounted(mask);
  }

  lemma {:induction false} LastWidth(dcls: seq<DclEntry>, n: nat)
    ensures var last := FindLast(dcls, n, false);
      DeclaredWidth(dcls, n) == if last.Some? then AttributeWidth(dcls[last.value].writeMask) else 0
    decreases |dcls|
  {
    hide DclWidth, AttributeWidth;
    if dcls != [] {
      WidthOfMask(dcls[|dcls| - 1].writeMask);
      LastWidth(dcls[..|dcls| - 1], n);
    }
  }

  /** The width at which the emitter reads an input is the width of its variable exactly when the
      last declaration of the input and the one of its field select as many channels. */
  lemma {:induction false} AvailableExactly(p: Program, r: Register)
    requires r.kind == INPUT
    ensures AvailableWidth(p, r) == VariableWidth(p, r.number) <==> DeclaredAlike(p, r.number)
  {
    LastWidth(p.dcls, r.number);
    hide DeclaredWidth, AttributeWidth;
    if p.vertex && FindLast(p.dcls, r.number, false).None? {
      assert FindLast(p.dcls, r.number, true).None?;
    }
  }

  /** In a vertex shader that width is the number of channels that the input's last declaration
      selects, and four when it selects none. */
  lemma {:induction false} InputLanes(p: Program, r: Register, k: nat)
    requires p.vertex && r.kind == INPUT && r.number < 32 && IsLast(p.dcls, k, r.number, false)
    ensures var n := |Lanes(p.dcls[k].writeMask)|;
      AvailableWidth(p, r) == if n == 0 then 4 else n
  {
    LastWidth(p.dcls, r.number);
    LanesCounted(p.dcls[k].writeMask);
    hide DeclaredWidth, Lanes;
    var j := FindLast(p.dcls, r.number, false).value;
    assert j == k;
  }

  // The Metal variables hold what the registers hold, and inputs have their fields' widths.
  ghost predicate Agrees(p: Program, regs: Regs, env: Env) {
    && (forall l :: Get(regs, l) == Value(env, LocName(p, l)))
    && (forall n :: env.inputWidth(n) == VariableWidth(p, n))
  }

  predicate ZeroBeyond(p: Program, regs: Regs, n: nat, lane: Lane) {
    lane >= VariableWidth(p, n) ==> Get(regs, Input(n)).At(lane) == 0.0
  }

  // Input registers hold nothing beyond their declared components.
  ghost predicate Narrow(p: Program, regs: Regs) {
    forall n: nat, lane: Lane :: ZeroBeyond(p, regs, n, lane)
  }

  // ---------------------------------------------------------------- operands

  predicate Plainly(p: Program, r: Register) {
    LocOf(p, r).Some? && !r.relative && (r.kind == INPUT ==> DeclaredAlike(p, r.number))
  }

  // A component can be named in Metal unless its variable is a one-component input.
  predicate ComponentTyped(p: Program, r: Register, k: Lane) {
    var w := AvailableWidth(p, r);
    && (r.swizzle.At(k) >= w || w >= 2)
    && (r.srcMod == 9 ==> w >= 3)
    && (r.srcMod == 10 ==> w >= 4)
  }

  lemma {:induction false} RegisterWidth(p: Program, regs: Regs, env: Env, r: Register)
    requires Plainly(p, r) && Agrees(p, regs, env)
    ensures Width(env, NameOf(p, r)) == AvailableWidth(p, r)
    ensures Value(env, NameOf(p, r)) == Get(regs, LocOf(p, r).value)
  {
    NameOfLocation(p, r);
    if r.kind == INPUT { AvailableExactly(p, r); }
    hide InputWidth, VariableWidth, DeclaredAlike, FindOutputDcl, Defined;
    assert NameOf(p, r).InV? <==> r.kind == INPUT;
  }

  lemma {:induction false} ComponentMeans(m: Math, p: Program, regs: Regs, env: Env, r: Register, lane: Lane)
    requires Plainly(p, r) && Agrees(p, regs, env) && Narrow(p, regs)
    ensures Eval(m, env, RegComponent(p, r, lane))
         == if lane >= AvailableWidth(p, r) || AvailableWidth(p, r) >= 2
            then Some([Get(regs, LocOf(p, r).value).At(lane)]) else None
  {
    RegisterWidth(p, regs, env, r);
    hide Agrees, NameOf, InputWidth, VariableWidth, DeclaredAlike;
    if r.kind == INPUT {
      AvailableExactly(p, r);
      assert LocOf(p, r) == Some(Input(r.number));
      assert ZeroBeyond(p, regs, r.number, lane);
    }
  }

  /** A source component evaluates to the Direct3D 9 source channel, or is ill-typed. */
  lemma {:induction false} SrcComponentMeans(m: Math, p: Program, regs: Regs, env: Env, r: Register, k: Lane)
    requires Plainly(p, r) && Agrees(p, regs, env) && Narrow(p, regs)
    ensures Eval(m, env, SrcComponent(p, r, k))
         == if ComponentTyped(p, r, k) then Some([Source(m, p, regs, r, k)]) else None
  {
    var e := RegComponent(p, r, r.swizzle.At(k));
    ComponentMeans(m, p, regs, env, r, r.swizzle.At(k));
    RegisterWidth(p, regs, env, r);
    hide Agrees, Narrow, NameOf, LocOf, Get, Value, Width, AvailableWidth, RegComponent, Eval, Modify, Modified;
    ModifierMeans(m, env, e, NameOf(p, r), r.srcMod);
  }

  lemma {:induction false} ModifierMeans(m: Math, env: Env, e: Expr, base: Name, mod: Nibble)
    requires Eval(m, env, e).Some? ==> |Eval(m, env, e).value| == 1
    ensures var v, w := Eval(m, env, e), Width(env, base);
      Eval(m, env, Modified(e, base, mod))
      == if v.Some? && (mod == 9 ==> w >= 3) && (mod == 10 ==> w >= 4)
         then Some([Modify(m, mod, v.value[0], Value(env, base))]) else None
  {
    var v := Eval(m, env, e);
    hide Eval, Width, Value, AbsR;
    if mod == 9 {
      RatioMeans(m, env, e, base, 2);
    } else if mod == 10 {
      RatioMeans(m, env, e, base, 3);
    } else if v.Some? {
      assert v.value == [v.value[0]];
      ModifiedMeans(m, env, e, v.value[0]);
    } else {
      ModifiedUntyped(m, env, e);
    }
  }

  lemma {:induction false} RatioMeans(m: Math, env: Env, e: Expr, base: Name, lane: Lane)
    ensures var v := Eval(m, env, e);
      Eval(m, env, Bin(Over, e, Comp(base, lane)))
      == if v.Some? && |v.value| == 1 && Width(env, base) >= 2 && lane < Width(env, base)
         then Some([m.div(v.value[0], Value(env, base).At(lane))]) else None
  {
    var v := Eval(m, env, e);
    if v.Some? && |v.value| == 1 && Width(env, base) >= 2 && lane < Width(env, base) {
      var b := Value(env, base).At(lane);
      assert Map2(m, Over, v.value, [b]) == [m.div(v.value[0], b)];
    }
  }

  lemma {:induction false} UnMeans(m: Math, env: Env, f: Fn1, e: Expr, x: real)
    requires Eval(m, env, e) == Some([x])
    ensures Eval(m, env, Un(f, e)) == Some([Apply1(m, f, x)])
  {
    assert Map1(m, f, [x]) == [Apply1(m, f, x)];
  }

  lemma {:induction false} BinMeans(m: Math, env: Env, f: Fn2, a: Expr, b: Expr, x: real, y: real)
    requires Eval(m, env, a) == Some([x]) && Eval(m, env, b) == Some([y])
    ensures Eval(m, env, Bin(f, a, b)) == Some([Apply2(m, f, x, y)])
  {
    assert Map2(m, f, [x], [y]) == [Apply2(m, f, x, y)];
  }

  lemma {:induction false} ModifiedMeans(m: Math, env: Env, e: Expr, x: real)
    requires Eval(m, env, e) == Some([x])
    ensures Eval(m, env, Un(Neg, e)) == Some([-x])
    ensures Eval(m, env, LessHalf(e)) == Some([x - 0.5])
    ensures Eval(m, env, Un(Neg, LessHalf(e))) == Some([-(x - 0.5)])
    ensures Eval(m, env, Times2(LessHalf(e))) == Some([2.0 * (x - 0.5)])
    ensures Eval(m, env, Un(Neg, Times2(LessHalf(e)))) == Some([-(2.0 * (x - 0.5))])
    ensures Eval(m, env, Bin(Minus, Num(1.0), e)) == Some([1.0 - x])
    ensures Eval(m, env, Bin(Times, e, Num(2.0))) == Some([2.0 * x])
    ensures Eval(m, env, Bin(Times, Un(Neg, e), Num(2.0))) == Some([-(2.0 * x)])
    ensures Eval(m, env, Un(AbsOf, e)) == Some([AbsR(x)])
    ensures Eval(m, env, Un(Neg, Un(AbsOf, e))) == Some([-AbsR(x)])
  {
    NumMeans(m, env, 0.5);
    NumMeans(m, env, 1.0);
    NumMeans(m, env, 2.0);
    hide Eval, AbsR;
    UnMeans(m, env, Neg, e, x);
    BinMeans(m, env, Minus, e, Num(0.5), x, 0.5);
    UnMeans(m, env, Neg, LessHalf(e), x - 0.5);
    BinMeans(m, env, Times, Num(2.0), LessHalf(e), 2.0, x - 0.5);
    UnMeans(m, env, Neg, Times2(LessHalf(e)), 2.0 * (x - 0.5));
    BinMeans(m, env, Minus, Num(1.0), e, 1.0, x);
    BinMeans(m, env, Times, e, Num(2.0), x, 2.0);
    BinMeans(m, env, Times, Un(Neg, e), Num(2.0), -x, 2.0);
    UnMeans(m, env, AbsOf, e, x);
    UnMeans(m, env, Neg, Un(AbsOf, e), AbsR(x));
  }

  lemma {:induction false} NumMeans(m: Math, env: Env, x: real)
    ensures Eval(m, env, Num(x)) == Some([x])
  {
  }

  lemma {:induction false} ModifiedUntyped(m: Math, env: Env, e: Expr)
    requires Eval(m, env, e).None?
    ensures Eval(m, env, Un(Neg, e)).None? && Eval(m, env, Un(AbsOf, e)).None? && Eval(m, env, LessHalf(e)).None?
    ensures Eval(m, env, Un(Neg, LessHalf(e))).None? && Eval(m, env, Times2(LessHalf(e))).None?
    ensures Eval(m, env, Un(Neg, Times2(LessHalf(e)))).None? && Eval(m, env, Bin(Minus, Num(1.0), e)).None?
    ensures Eval(m, env, Bin(Times, e, Num(2.0))).None? && Eval(m, env, Bin(Times, Un(Neg, e), Num(2.0))).None?
    ensures Eval(m, env, Un(Neg, Un(AbsOf, e))).None?
  {
    UntypedStays(m, env, e);
    UntypedStays(m, env, LessHalf(e));
    UntypedStays(m, env, Times2(LessHalf(e)));
    UntypedStays(m, env, Un(Neg, e));
    UntypedStays(m, env, Un(AbsOf, e));
  }

  lemma {:induction false} UntypedStays(m: Math, env: Env, e: Expr)
    requires Eval(m, env, e).None?
    ensures forall f :: Eval(m, env, Un(f, e)).None?
    ensures forall f, b :: Eval(m, env, Bin(f, e, b)).None? && Eval(m, env, Bin(f, b, e)).None?
  {
  }

  // The first w channels of a source operand.
  function Channels(m: Math, p: Program, regs: Regs, r: Register, w: nat): (v: Vector)
    requires LocOf(p, r).Some? && w <= 4
    ensures |v| == w && forall k :: 0 <= k < w ==> v[k] == Source(m, p, regs, r, k)
  {
    seq(w, k requires 0 <= k < w => Source(m, p, regs, r, k))
  }

  lemma {:induction false} ChannelsListed(m: Math, p: Program, regs: Regs, r: Register, w: nat)
    requires LocOf(p, r).Some? && 1 <= w <= 4
    ensures var x, y, z, t :=
        Source(m, p, regs, r, 0), Source(m, p, regs, r, 1), Source(m, p, regs, r, 2), Source(m, p, regs, r, 3);
      Channels(m, p, regs, r, w) == if w == 1 then [x] else if w == 2 then [x, y] else if w == 3 then [x, y, z] else [x, y, z, t]
  {
    hide Source, LocOf;
  }

  predicate OperandTyped(p: Program, r: Register, w: nat) {
    && ComponentTyped(p, r, 0)
    && (w > 1 ==> ComponentTyped(p, r, 1))
    && (w > 2 ==> ComponentTyped(p, r, 2))
    && (w > 3 ==> ComponentTyped(p, r, 3))
  }

  lemma {:induction false} VectorMeans(m: Math, env: Env, a: Expr, b: Expr, c: Expr, d: Expr)
    requires Eval(m, env, a).Some? ==> |Eval(m, env, a).value| == 1
    requires Eval(m, env, b).Some? ==> |Eval(m, env, b).value| == 1
    requires Eval(m, env, c).Some? ==> |Eval(m, env, c).value| == 1
    requires Eval(m, env, d).Some? ==> |Eval(m, env, d).value| == 1
    ensures var x, y, z, w := Eval(m, env, a), Eval(m, env, b), Eval(m, env, c), Eval(m, env, d);
      && Eval(m, env, Vec2(a, b)) == (if x.Some? && y.Some? then Some([x.value[0], y.value[0]]) else None)
      && Eval(m, env, Vec3(a, b, c))
      == (if x.Some? && y.Some? && z.Some? then Some([x.value[0], y.value[0], z.value[0]]) else None)
      && Eval(m, env, Vec4(a, b, c, d))
      == if x.Some? && y.Some? && z.Some? && w.Some? then Some([x.value[0], y.value[0], z.value[0], w.value[0]]) else None
  {
    hide Scalars, Eval;
    var x, y, z, w := Eval(m, env, a), Eval(m, env, b), Eval(m, env, c), Eval(m, env, d);
    VectorScalars(m, env, a, b, c, d);
    TwoScalars(x, y);
    ThreeScalars(x, y, z);
    FourScalars(x, y, z, w);
  }

  lemma {:induction false} VectorScalars(m: Math, env: Env, a: Expr, b: Expr, c: Expr, d: Expr)
    ensures var x, y, z, w := Eval(m, env, a), Eval(m, env, b), Eval(m, env, c), Eval(m, env, d);
      && Eval(m, env, Vec2(a, b)) == Scalars([x, y]) && Eval(m, env, Vec3(a, b, c)) == Scalars([x, y, z])
      && Eval(m, env, Vec4(a, b, c, d)) == Scalars([x, y, z, w])
  {
    hide Scalars;
  }

  lemma {:induction false} TwoScalars(x: Option<Vector>, y: Option<Vector>)
    requires (x.Some? ==> |x.value| == 1) && (y.Some? ==> |y.value| == 1)
    ensures Scalars([x, y]) == if x.Some? && y.Some? then Some([x.value[0], y.value[0]]) else None
  {
    var vs := [x, y];
    assert IsScalar(vs[0]) == x.Some? && IsScalar(vs[1]) == y.Some?;
    if x.Some? && y.Some? {
      assert Scalars(vs).value == [x.value[0], y.value[0]];
    }
  }

  lemma {:induction false} ThreeScalars(x: Option<Vector>, y: Option<Vector>, z: Option<Vector>)
    requires (x.Some? ==> |x.value| == 1) && (y.Some? ==> |y.value| == 1) && (z.Some? ==> |z.value| == 1)
    ensures Scalars([x, y, z])
         == if x.Some? && y.Some? && z.Some? then Some([x.value[0], y.value[0], z.value[0]]) else None
  {
    var vs := [x, y, z];
    assert IsScalar(vs[0]) == x.Some? && IsScalar(vs[1]) == y.Some? && IsScalar(vs[2]) == z.Some?;
    if x.Some? && y.Some? && z.Some? {
      assert Scalars(vs).value == [x.value[0], y.value[0], z.value[0]];
    }
  }

  lemma {:induction false} FourScalars(x: Option<Vector>, y: Option<Vector>, z: Option<Vector>, w: Option<Vector>)
    requires (x.Some? ==> |x.value| == 1) && (y.Some? ==> |y.value| == 1)
    requires (z.Some? ==> |z.value| == 1) && (w.Some? ==> |w.value| == 1)
    ensures Scalars([x, y, z, w])
         == if x.Some? && y.Some? && z.Some? && w.Some?
            then Some([x.value[0], y.value[0], z.value[0], w.value[0]]) else None
  {
    var vs := [x, y, z, w];
    assert IsScalar(vs[0]) == x.Some? && IsScalar(vs[1]) == y.Some?;
    assert IsScalar(vs[2]) == z.Some? && IsScalar(vs[3]) == w.Some?;
    if x.Some? && y.Some? && z.Some? && w.Some? {
      assert Scalars(vs).value == [x.value[0], y.value[0], z.value[0], w.value[0]];
    }
  }

  /** An operand of width w evaluates to source channels 0 to w - 1, whatever the mask. */
  lemma {:induction false} OperandMeans(m: Math, p: Program, regs: Regs, env: Env, r: Register, w: nat)
    requires Plainly(p, r) && Agrees(p, regs, env) && Narrow(p, regs) && 1 <= w <= 4
    ensures Eval(m, env, Operand(p, r, w))
         == if OperandTyped(p, r, w) then Some(Channels(m, p, regs, r, w)) else None
  {
    SrcComponentMeans(m, p, regs, env, r, 0);
    SrcComponentMeans(m, p, regs, env, r, 1);
    SrcComponentMeans(m, p, regs, env, r, 2);
    SrcComponentMeans(m, p, regs, env, r, 3);
    VectorMeans(m, env, SrcComponent(p, r, 0), SrcComponent(p, r, 1), SrcComponent(p, r, 2), SrcComponent(p, r, 3));
    ChannelsListed(m, p, regs, r, w);
    hide Agrees, Narrow, ComponentTyped, SrcComponent, Source, LocOf, Eval, Channels, FindOutputDcl;
  }
}
