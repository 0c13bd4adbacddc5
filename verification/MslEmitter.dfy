/**
  The emitter that turns a parsed program into Metal lines: the lines as functions of the
  program, and the emitter object that produces exactly those.
 */
module MslEmitter {
  import opened Options
  import opened ShaderIr
  import opened ShaderSemantics
  import opened Msl

  // ---------------------------------------------------------------- names and widths

  predicate Defined(defs: seq<DefEntry>, n: nat) {
    exists k :: 0 <= k < |defs| && defs[k].kind == CONST && defs[k].number == n
  }

  function NameOf(p: Program, r: Register): Name {
    if r.kind == TEMP then R(r.number)
    else if r.kind == INPUT then InV(r.number)
    else if r.kind == CONST then
      if r.relative then CRelative(r.relativeComponent, r.number)
      else if r.number < 256 && Defined(p.defs, r.number) then CDef(r.number)
      else C(r.number)
    else if r.kind == ADDR then if p.vertex then A(r.number) else InT(r.number)
    else if r.kind == RASTOUT then
      if r.number == 0 then OutPosition else if r.number == 1 then OutFog else OutPointSize
    else if r.kind == ATTROUT then OutOD(r.number)
    else if r.kind == OUTPUT then
      if p.vertex && p.major < 3 then OutOT(r.number)
      else if IsPositionOutput(p, r.number) then OutPosition
      else OutO(r.number)
    else if r.kind == COLOROUT then OC(r.number)
    else if r.kind == DEPTHOUT then ODepth
    else if r.kind == SAMPLER then S(r.number)
    else if r.kind == CONSTINT then I(r.number)
    else if r.kind == CONSTBOOL then B(r.number)
    else Unknown(r.kind, r.number)
  }

  function DclWidth(mask: Nibble): nat {
    if MaskCount(mask) == 0 then 4 else MaskCount(mask)
  }

  predicate DeclaresInput(d: DclEntry, n: nat) {
    d.kind == INPUT && d.number == n
  }

  // The width of the last declaration of input n, 0 when there is none.
  function DeclaredWidth(dcls: seq<DclEntry>, n: nat): nat
    decreases |dcls|
  {
    if dcls == [] then 0
    else
      var last := dcls[|dcls| - 1];
      if DeclaresInput(last, n) then DclWidth(last.writeMask) else DeclaredWidth(dcls[..|dcls| - 1], n)
  }

  // Only vertex shader inputs have fewer than four components.
  function InputWidth(p: Program, n: nat): nat {
    if p.vertex && n < 32 && DeclaredWidth(p.dcls, n) != 0 then DeclaredWidth(p.dcls, n) else 4
  }

  function AvailableWidth(p: Program, r: Register): nat {
    if r.kind == INPUT then InputWidth(p, r.number) else 4
  }

  // ---------------------------------------------------------------- operands

  function RegComponent(p: Program, r: Register, lane: Lane): Expr {
    if lane >= AvailableWidth(p, r) then Num(0.0) else Comp(NameOf(p, r), lane)
  }

  function Times2(e: Expr): Expr { Bin(Times, Num(2.0), e) }
  function LessHalf(e: Expr): Expr { Bin(Minus, e, Num(0.5)) }

  // A component of the variable base with a source modifier applied.
  function Modified(e: Expr, base: Name, srcMod: Nibble): Expr {
    match srcMod
    case 1 => Un(Neg, e)
    case 2 => LessHalf(e)
    case 3 => Un(Neg, LessHalf(e))
    case 4 => Times2(LessHalf(e))
    case 5 => Un(Neg, Times2(LessHalf(e)))
    case 6 => Bin(Minus, Num(1.0), e)
    case 7 => Bin(Times, e, Num(2.0))
    case 8 => Bin(Times, Un(Neg, e), Num(2.0))
    case 9 => Bin(Over, e, Comp(base, 2))
    case 10 => Bin(Over, e, Comp(base, 3))
    case 11 => Un(AbsOf, e)
    case 12 => Un(Neg, Un(AbsOf, e))
    case 13 => Bin(Minus, Num(1.0), e)
    case _ => e
  }

  // Swizzle component k of a source operand, with its modifier.
  function SrcComponent(p: Program, r: Register, k: Lane): Expr {
    Modified(RegComponent(p, r, r.swizzle.At(k)), NameOf(p, r), r.srcMod)
  }

  // The first w swizzle components of a source operand.
  function Operand(p: Program, r: Register, w: nat): Expr {
    if w <= 1 then SrcComponent(p, r, 0)
    else if w == 2 then Vec2(SrcComponent(p, r, 0), SrcComponent(p, r, 1))
    else if w == 3 then Vec3(SrcComponent(p, r, 0), SrcComponent(p, r, 1), SrcComponent(p, r, 2))
    else Vec4(SrcComponent(p, r, 0), SrcComponent(p, r, 1), SrcComponent(p, r, 2), SrcComponent(p, r, 3))
  }

  function DstWidth(r: Register): nat {
    if r.kind == DEPTHOUT then 1 else DclWidth(r.writeMask)
  }

  // floatN(x) for a literal x.
  function Filled(n: nat, x: real): Expr {
    Splat(if 1 <= n <= 3 then n else 4, Num(x))
  }

  predicate Replicated(s: Swizzle) {
    s.x == s.y == s.z == s.w
  }

  function CmpOf(comparison: nat): Cmp {
    match comparison
    case 1 => Gt
    case 2 => Eq
    case 3 => Ge
    case 4 => Lt
    case 6 => Le
    case _ => Ne
  }

  // ---------------------------------------------------------------- instructions

  // The instructions whose translation the model covers.
  predicate Modelled(i: Instruction) {
    (Covered(i.op) || IsFlow(i.op) || i.op.Nop?) && |i.src| == SourceCount(i.op)
  }

  datatype Rhs = Rhs(e: Expr, scalar: bool)

  // Operations that read one channel and spread the result over the destination.
  predicate IsScalarOp(op: Op) {
    op.Rcp? || op.Rsq? || op.Exp? || op.Log? || op.Pow?
  }

  predicate IsSelectOp(op: Op) {
    op.Slt? || op.Sge? || op.Cmp?
  }

  // The expression for an operation on operand expressions; n is the width of the mask.
  function CombineExpr(op: Op, a: Expr, b: Expr, c: Expr, n: nat): Expr
    requires Pointwise(op)
  {
    match op
    case Mov => a
    case Add => Bin(Plus, a, b)
    case Sub => Bin(Minus, a, b)
    case Mul => Bin(Times, a, b)
    case Mad => Bin(Plus, Bin(Times, a, b), c)
    case Rcp => Bin(Over, Num(1.0), a)
    case Rsq => Un(Rsqrt, Un(AbsOf, a))
    case Min => Bin(MinOf, a, b)
    case Max => Bin(MaxOf, a, b)
    case Slt => Select(Filled(n, 0.0), Filled(n, 1.0), Lt, a, b)
    case Sge => Select(Filled(n, 0.0), Filled(n, 1.0), Ge, a, b)
    case Exp => Un(Exp2, a)
    case Log => Un(Log2, Un(AbsOf, a))
    case Frc => Un(FractOf, a)
    case Abs => Un(AbsOf, a)
    case Lrp => Mix(c, b, a)
    case Cmp => Select(c, b, Ge, a, Filled(n, 0.0))
    case Pow => Bin(Power, Un(AbsOf, a), b)
    case Sgn => Un(SignOf, a)
  }

  function OperandAt(p: Program, i: Instruction, k: nat, w: nat): Expr {
    if k < |i.src| then Operand(p, i.src[k], w) else Num(0.0)
  }

  // The width at which a pointwise instruction builds its operands.
  function PointwiseWidth(i: Instruction): nat {
    if IsScalarOp(i.op) then 1 else if IsSelectOp(i.op) then MaskCount(i.dst.writeMask) else DstWidth(i.dst)
  }

  // The value an arithmetic instruction assigns, before broadcast and truncation.
  function RhsOf(p: Program, i: Instruction): Rhs
    requires Covered(i.op) && !i.op.SinCos?
  {
    var s := (k: nat, w: nat) => OperandAt(p, i, k, w);
    if i.op.Dp3? then Rhs(Dot(Prefix(s(0, 3), 3), Prefix(s(1, 3), 3)), true)
    else if i.op.Dp4? then Rhs(Dot(s(0, 4), s(1, 4)), true)
    else if i.op.Dp2Add? then Rhs(Bin(Plus, Dot(s(0, 2), s(1, 2)), s(2, 1)), true)
    else
      var w := PointwiseWidth(i);
      Rhs(CombineExpr(i.op, s(0, w), s(1, w), s(2, w), MaskCount(i.dst.writeMask)),
          IsScalarOp(i.op) || (!IsSelectOp(i.op) && w == 1))
  }

  predicate AllReplicated(i: Instruction) {
    |i.src| > 0 && forall k :: 0 <= k < |i.src| && k < 3 ==> Replicated(i.src[k].swizzle)
  }

  // A scalar is broadcast to the destination width; a vector that may be wider is cut to it.
  function Fitted(i: Instruction, r: Rhs): Expr {
    var w := DstWidth(i.dst);
    if r.scalar then if w == 1 then r.e else Splat(if w == 2 || w == 3 then w else 4, r.e)
    else if w < if AllReplicated(i) then 1 else 4 then Prefix(r.e, w)
    else r.e
  }

  function OneLine(on: bool, l: Line): seq<Line> {
    if on then [l] else []
  }

  function EmitSinCos(p: Program, i: Instruction): seq<Line>
    requires i.op.SinCos? && |i.src| == 1
  {
    var dst, scalar := NameOf(p, i.dst), Operand(p, i.src[0], 1);
    OneLine(Selected(i.dst.writeMask, 0), Assign(dst, 1, false, Un(Cos, scalar)))
    + OneLine(Selected(i.dst.writeMask, 1), Assign(dst, 2, false, Un(Sin, scalar)))
    + OneLine(Selected(i.dst.writeMask, 2), Assign(dst, 4, false, Num(0.0)))
    + OneLine(Selected(i.dst.writeMask, 3), Assign(dst, 8, false, Num(0.0)))
  }

  function EmitFlow(p: Program, i: Instruction): Line
    requires IsFlow(i.op) && |i.src| == SourceCount(i.op)
  {
    match i.op
    case If => IfOpen(Ne, Operand(p, i.src[0], 1), Num(0.0))
    case Ifc => IfOpen(CmpOf(i.comparison), Operand(p, i.src[0], 1), Operand(p, i.src[1], 1))
    case Else => ElseMid
    case Rep => ForOpen(Operand(p, i.src[0], 1))
    case Break => BreakLine
    case BreakC => BreakIf(CmpOf(i.comparison), Operand(p, i.src[0], 1), Operand(p, i.src[1], 1))
    case _ => Close
  }

  function EmitOne(p: Program, i: Instruction): seq<Line>
    requires Modelled(i)
  {
    if i.op.Nop? then []
    else if IsFlow(i.op) then [EmitFlow(p, i)]
    else if i.op.SinCos? then EmitSinCos(p, i)
    else [Assign(NameOf(p, i.dst), i.dst.writeMask, Saturates(i.dst), Fitted(i, RhsOf(p, i)))]
  }

  predicate AllModelled(code: seq<Instruction>) {
    forall k :: 0 <= k < |code| ==> Modelled(code[k])
  }

  function EmitAll(p: Program, code: seq<Instruction>): seq<Line>
    requires AllModelled(code)
  {
    if code == [] then [] else EmitOne(p, code[0]) + EmitAll(p, code[1..])
  }

  lemma {:induction false} EmitAllJoin(p: Program, a: seq<Instruction>, b: seq<Instruction>)
    requires AllModelled(a) && AllModelled(b)
    ensures AllModelled(a + b)
    ensures EmitAll(p, a + b) == EmitAll(p, a) + EmitAll(p, b)
  {
    hide EmitOne, Modelled;
    if a == [] {
      assert a + b == b;
    } else {
      EmitAllJoin(p, a[1..], b);
      assert (a + b)[1..] == a[1..] + b;
      assert (a + b)[0] == a[0];
    }
  }

  // ---------------------------------------------------------------- the emitter object

  /** The emitter's context: tables built from the program's declarations, and the output. */
  class Emitter {
    const p: Program
    const defined: array<bool>
    const inputWidth: array<nat>
    var lines: seq<Line>

    ghost predicate Valid()
      reads this, defined, inputWidth
    {
      && defined.Length == 256 && inputWidth.Length == 32
      && (forall n :: 0 <= n < 256 ==> defined[n] == Defined(p.defs, n))
      && (forall n :: 0 <= n < 32 ==> inputWidth[n] == if p.vertex then DeclaredWidth(p.dcls, n) else 0)
    }

    constructor (program: Program)
      ensures p == program && Valid() && lines == [] && fresh(defined) && fresh(inputWidth)
    {
      p, lines := program, [];
      defined := new bool[256](_ => false);
      inputWidth := new nat[32](_ => 0);
      new;
      for k := 0 to |p.defs|
        invariant lines == []
        invariant forall n :: 0 <= n < 256 ==> defined[n] == Defined(p.defs[..k], n)
        invariant forall n :: 0 <= n < 32 ==> inputWidth[n] == 0
      {
        var d := p.defs[k];
        DefinedStep(p.defs, k);
        if d.kind == CONST && d.number < 256 { defined[d.number] := true; }
      }
      assert p.defs[..|p.defs|] == p.defs;
      if p.vertex {
        for k := 0 to |p.dcls|
          invariant lines == []
          invariant forall n :: 0 <= n < 256 ==> defined[n] == Defined(p.defs, n)
          invariant forall n :: 0 <= n < 32 ==> inputWidth[n] == DeclaredWidth(p.dcls[..k], n)
        {
          var d := p.dcls[k];
          assert p.dcls[..k + 1][..k] == p.dcls[..k];
          if d.kind == INPUT && d.number < 32 { inputWidth[d.number] := DclWidth(d.writeMask); }
        }
        assert p.dcls[..|p.dcls|] == p.dcls;
      }
    }

    method FindOutput(number: nat) returns (d: Option<DclEntry>)
      ensures d == FindOutputDcl(p.dcls, number)
    {
      for k := 0 to |p.dcls|
        invariant FindOutputDcl(p.dcls, number) == FindOutputDcl(p.dcls[k..], number)
      {
        var rest := p.dcls[k..];
        assert rest[1..] == p.dcls[k + 1..];
        if p.dcls[k].kind == OUTPUT && p.dcls[k].number == number { return Some(p.dcls[k]); }
      }
      d := None;
    }

    method RegName(r: Register) returns (name: Name)
      requires Valid()
      ensures name == NameOf(p, r)
    {
      hide FindOutputDcl, Defined, DeclaredWidth;
      if r.kind == TEMP {
        name := R(r.number);
      } else if r.kind == INPUT {
        name := InV(r.number);
      } else if r.kind == CONST {
        if r.relative {
          name := CRelative(r.relativeComponent, r.number);
        } else if r.number < 256 && defined[r.number] {
          name := CDef(r.number);
        } else {
          name := C(r.number);
        }
      } else if r.kind == ADDR {
        name := if p.vertex then A(r.number) else InT(r.number);
      } else if r.kind == RASTOUT {
        name := if r.number == 0 then OutPosition else if r.number == 1 then OutFog else OutPointSize;
      } else if r.kind == ATTROUT {
        name := OutOD(r.number);
      } else if r.kind == OUTPUT {
        if p.vertex && p.major < 3 {
          name := OutOT(r.number);
        } else {
          var d := FindOutput(r.number);
          if p.vertex && d.Some? && d.value.usage == USAGE_POSITION && d.value.usageIndex == 0 {
            name := OutPosition;
          } else {
            name := OutO(r.number);
          }
        }
      } else if r.kind == COLOROUT {
        name := OC(r.number);
      } else if r.kind == DEPTHOUT {
        name := ODepth;
      } else if r.kind == SAMPLER {
        name := S(r.number);
      } else if r.kind == CONSTINT {
        name := I(r.number);
      } else if r.kind == CONSTBOOL {
        name := B(r.number);
      } else {
        name := Unknown(r.kind, r.number);
      }
    }

    method RegComponentExpr(r: Register, lane: Lane) returns (e: Expr)
      requires Valid()
      ensures e == RegComponent(p, r, lane)
    {
      hide NameOf, DeclaredWidth, Defined;
      var base := RegName(r);
      var available := 4;
      if r.kind == INPUT && r.number < 32 && inputWidth[r.number] != 0 { available := inputWidth[r.number]; }
      e := if lane >= available then Num(0.0) else Comp(base, lane);
    }

    method SrcComponentExpr(r: Register, k: Lane) returns (e: Expr)
      requires Valid()
      ensures e == SrcComponent(p, r, k)
    {
      hide NameOf, RegComponent;
      var base := RegName(r);
      e := RegComponentExpr(r, r.swizzle.At(k));
      match r.srcMod
      case 1 => e := Un(Neg, e);
      case 2 => e := LessHalf(e);
      case 3 => e := Un(Neg, LessHalf(e));
      case 4 => e := Times2(LessHalf(e));
      case 5 => e := Un(Neg, Times2(LessHalf(e)));
      case 6 => e := Bin(Minus, Num(1.0), e);
      case 7 => e := Bin(Times, e, Num(2.0));
      case 8 => e := Bin(Times, Un(Neg, e), Num(2.0));
      case 9 => e := Bin(Over, e, Comp(base, 2));
      case 10 => e := Bin(Over, e, Comp(base, 3));
      case 11 => e := Un(AbsOf, e);
      case 12 => e := Un(Neg, Un(AbsOf, e));
      case 13 => e := Bin(Minus, Num(1.0), e);
      case _ =>
    }

    method SrcExprWidth(r: Register, w: nat) returns (e: Expr)
      requires Valid()
      ensures e == Operand(p, r, w)
    {
      hide SrcComponent;
      var c0 := SrcComponentExpr(r, 0);
      if w <= 1 { return c0; }
      var c1 := SrcComponentExpr(r, 1);
      if w == 2 { return Vec2(c0, c1); }
      var c2 := SrcComponentExpr(r, 2);
      if w == 3 { return Vec3(c0, c1, c2); }
      var c3 := SrcComponentExpr(r, 3);
      e := Vec4(c0, c1, c2, c3);
    }

    // The operand widths and the right-hand side of an arithmetic instruction.
    method RightHandSide(i: Instruction) returns (rhs: Rhs)
      requires Valid() && Covered(i.op) && !i.op.SinCos? && |i.src| == SourceCount(i.op)
      ensures rhs == RhsOf(p, i)
    {
      hide Operand;
      var w := DstWidth(i.dst);
      var n := MaskCount(i.dst.writeMask);
      var width :=
        if i.op.Dp3? then 3 else if i.op.Dp4? then 4 else if i.op.Dp2Add? then 2
        else if i.op.Rcp? || i.op.Rsq? || i.op.Exp? || i.op.Log? || i.op.Pow? then 1
        else if i.op.Slt? || i.op.Sge? || i.op.Cmp? then n else w;
      var s0 := SrcExprWidth(i.src[0], width);
      var s1 := Num(0.0);
      var s2 := Num(0.0);
      if |i.src| > 1 { s1 := SrcExprWidth(i.src[1], width); }
      if |i.src| > 2 { s2 := SrcExprWidth(i.src[2], if i.op.Dp2Add? then 1 else width); }
      match i.op
      case Mov => rhs := Rhs(s0, w == 1);
      case Add => rhs := Rhs(Bin(Plus, s0, s1), w == 1);
      case Sub => rhs := Rhs(Bin(Minus, s0, s1), w == 1);
      case Mul => rhs := Rhs(Bin(Times, s0, s1), w == 1);
      case Mad => rhs := Rhs(Bin(Plus, Bin(Times, s0, s1), s2), w == 1);
      case Dp3 => rhs := Rhs(Dot(Prefix(s0, 3), Prefix(s1, 3)), true);
      case Dp4 => rhs := Rhs(Dot(s0, s1), true);
      case Rcp => rhs := Rhs(Bin(Over, Num(1.0), s0), true);
      case Rsq => rhs := Rhs(Un(Rsqrt, Un(AbsOf, s0)), true);
      case Min => rhs := Rhs(Bin(MinOf, s0, s1), w == 1);
      case Max => rhs := Rhs(Bin(MaxOf, s0, s1), w == 1);
      case Slt => rhs := Rhs(Select(Filled(n, 0.0), Filled(n, 1.0), Lt, s0, s1), false);
      case Sge => rhs := Rhs(Select(Filled(n, 0.0), Filled(n, 1.0), Ge, s0, s1), false);
      case Exp => rhs := Rhs(Un(Exp2, s0), true);
      case Log => rhs := Rhs(Un(Log2, Un(AbsOf, s0)), true);
      case Frc => rhs := Rhs(Un(FractOf, s0), w == 1);
      case Abs => rhs := Rhs(Un(AbsOf, s0), w == 1);
      case Lrp => rhs := Rhs(Mix(s2, s1, s0), w == 1);
      case Cmp => rhs := Rhs(Select(s2, s1, Ge, s0, Filled(n, 0.0)), false);
      case Pow => rhs := Rhs(Bin(Power, Un(AbsOf, s0), s1), true);
      case Dp2Add => rhs := Rhs(Bin(Plus, Dot(s0, s1), s2), true);
      case Sgn => rhs := Rhs(Un(SignOf, s0), w == 1);
    }

    method Fit(i: Instruction, rhs: Rhs) returns (e: Expr)
      ensures e == Fitted(i, rhs)
    {
      hide Replicated;
      var w := DstWidth(i.dst);
      e := rhs.e;
      if rhs.scalar && w != 1 {
        e := Splat(if w == 2 || w == 3 then w else 4, e);
      }
      if !rhs.scalar && w < 4 {
        var rhsWidth := 4;
        var allScalar := |i.src| > 0;
        var k := 0;
        while k < |i.src| && k < 3 && allScalar
          invariant 0 <= k <= |i.src|
          invariant allScalar ==> |i.src| > 0 && forall j :: 0 <= j < k && j < 3 ==> Replicated(i.src[j].swizzle)
          invariant !allScalar ==> !AllReplicated(i)
        {
          if !Replicated(i.src[k].swizzle) { allScalar := false; }
          k := k + 1;
        }
        if allScalar { rhsWidth := 1; }
        if w < rhsWidth { e := Prefix(e, w); }
      }
    }

    method Emit(l: Line)
      modifies `lines
      ensures lines == old(lines) + [l]
    {
      lines := lines + [l];
    }

    method EmitSinCosLines(i: Instruction)
      requires Valid() && i.op.SinCos? && |i.src| == 1
      modifies `lines
      ensures lines == old(lines) + EmitSinCos(p, i)
    {
      hide NameOf, Operand, Selected, Valid;
      var dst := RegName(i.dst);
      var scalar := SrcExprWidth(i.src[0], 1);
      if Selected(i.dst.writeMask, 0) { Emit(Assign(dst, 1, false, Un(Cos, scalar))); }
      if Selected(i.dst.writeMask, 1) { Emit(Assign(dst, 2, false, Un(Sin, scalar))); }
      if Selected(i.dst.writeMask, 2) { Emit(Assign(dst, 4, false, Num(0.0))); }
      if Selected(i.dst.writeMask, 3) { Emit(Assign(dst, 8, false, Num(0.0))); }
    }

    method EmitFlowLine(i: Instruction)
      requires Valid() && IsFlow(i.op) && |i.src| == SourceCount(i.op)
      modifies `lines
      ensures lines == old(lines) + [EmitFlow(p, i)]
    {
      hide Operand, Valid;
      match i.op
      case If =>
        var s0 := SrcExprWidth(i.src[0], 1);
        Emit(IfOpen(Ne, s0, Num(0.0)));
      case Ifc =>
        var s0 := SrcExprWidth(i.src[0], 1);
        var s1 := SrcExprWidth(i.src[1], 1);
        Emit(IfOpen(CmpOf(i.comparison), s0, s1));
      case Else => Emit(ElseMid);
      case EndIf => Emit(Close);
      case Rep =>
        var s0 := SrcExprWidth(i.src[0], 1);
        Emit(ForOpen(s0));
      case EndRep => Emit(Close);
      case Break => Emit(BreakLine);
      case BreakC =>
        var s0 := SrcExprWidth(i.src[0], 1);
        var s1 := SrcExprWidth(i.src[1], 1);
        Emit(BreakIf(CmpOf(i.comparison), s0, s1));
    }

    method EmitInstruction(i: Instruction)
      requires Valid() && Modelled(i)
      modifies `lines
      ensures Valid() && lines == old(lines) + EmitOne(p, i)
    {
      hide NameOf, RhsOf, Fitted, Defined, DeclaredWidth, EmitSinCos, EmitFlow;
      if i.op.Nop? { return; }
      if IsFlow(i.op) {
        EmitFlowLine(i);
      } else if i.op.SinCos? {
        EmitSinCosLines(i);
      } else {
        var dst := RegName(i.dst);
        var rhs := RightHandSide(i);
        var e := Fit(i, rhs);
        Emit(Assign(dst, i.dst.writeMask, Saturates(i.dst), e));
      }
    }

    /** Emitting the instructions of a program in order produces the specified lines. */
    method EmitInstructions()
      requires Valid() && AllModelled(p.instructions)
      modifies `lines
      ensures Valid() && lines == old(lines) + EmitAll(p, p.instructions)
    {
      hide EmitOne, Modelled, EmitAll, Defined, DeclaredWidth;
      for k := 0 to |p.instructions|
        invariant Valid() && lines + EmitAll(p, p.instructions[k..]) == old(lines) + EmitAll(p, p.instructions)
      {
        var i := p.instructions[k];
        var rest := p.instructions[k + 1..];
        assert p.instructions[k..] == [i] + rest;
        EmitAllJoin(p, [i], rest);
        EmitAllOne(p, i);
        EmitInstruction(i);
      }
      assert p.instructions[|p.instructions|..] == [];
      EmitNothing(p);
    }
  }

  lemma {:induction false} EmitAllOne(p: Program, i: Instruction)
    requires Modelled(i)
    ensures EmitAll(p, [i]) == EmitOne(p, i)
  {
    hide EmitOne;
    assert EmitAll(p, [i]) == EmitOne(p, i) + EmitAll(p, []);
  }

  lemma {:induction false} EmitNothing(p: Program)
    ensures EmitAll(p, []) == []
  {
  }

  lemma {:induction false} DefinedStep(defs: seq<DefEntry>, k: nat)
    requires k < |defs|
    ensures forall n: nat :: Defined(defs[..k + 1], n) <==>
      Defined(defs[..k], n) || (defs[k].kind == CONST && defs[k].number == n)
  {
    forall n: nat
      ensures Defined(defs[..k + 1], n) <==> Defined(defs[..k], n) || (defs[k].kind == CONST && defs[k].number == n)
    {
      var after := defs[..k + 1];
      assert after[k] == defs[k];
      assert forall j :: 0 <= j < k ==> after[j] == defs[..k][j];
    }
  }
}
