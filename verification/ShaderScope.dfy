/**
  Which variables an emitted function has, and which its lines name: a function whose lines name
  anything else, or that declares a variable twice, does not compile.
 */
module ShaderScope {
  import opened Options
  import opened Words
  import opened ShaderIr
  import opened ShaderParser
  import opened ShaderFormat
  import opened ShaderSemantics
  import opened Msl
  import opened MslEmitter
  import opened ShaderInterface
  import opened ShaderOperands
  import opened ShaderInstructions
  import opened ShaderDeclarations

  // ---------------------------------------------------------------- what the lines name

  function ExprNames(e: Expr): set<Name> {
    match e
    case Num(_) => {}
    case Comp(v, _) => {v}
    case Un(_, a) => ExprNames(a)
    case Bin(_, a, b) => ExprNames(a) + ExprNames(b)
    case Dot(a, b) => ExprNames(a) + ExprNames(b)
    case Mix(a, b, t) => ExprNames(a) + ExprNames(b) + ExprNames(t)
    case Select(no, yes, _, a, b) => ExprNames(no) + ExprNames(yes) + ExprNames(a) + ExprNames(b)
    case Vec2(a, b) => ExprNames(a) + ExprNames(b)
    case Vec3(a, b, c) => ExprNames(a) + ExprNames(b) + ExprNames(c)
    case Vec4(a, b, c, d) => ExprNames(a) + ExprNames(b) + ExprNames(c) + ExprNames(d)
    case Splat(_, a) => ExprNames(a)
    case Prefix(a, _) => ExprNames(a)
  }

  function LineNames(l: Line): set<Name> {
    match l
    case Assign(dst, _, _, rhs) => {dst} + ExprNames(rhs)
    case IfOpen(_, a, b) => ExprNames(a) + ExprNames(b)
    case BreakIf(_, a, b) => ExprNames(a) + ExprNames(b)
    case ForOpen(bound) => ExprNames(bound)
    case _ => {}
  }

  function AllNames(lines: seq<Line>): set<Name> {
    if lines == [] then {} else LineNames(lines[0]) + AllNames(lines[1..])
  }

  lemma {:induction false} NamesJoin(a: seq<Line>, b: seq<Line>)
    ensures AllNames(a + b) == AllNames(a) + AllNames(b)
  {
    hide LineNames;
    if a == [] {
      assert a + b == b;
    } else {
      assert (a + b)[1..] == a[1..] + b;
      NamesJoin(a[1..], b);
    }
  }

  // ---------------------------------------------------------------- what an instruction names

  // A source component names its variable unless it is a component the variable does not have.
  predicate MentionsComponent(p: Program, r: Register, k: Lane) {
    r.swizzle.At(k) < AvailableWidth(p, r) || r.srcMod == 9 || r.srcMod == 10
  }

  predicate Mentions(p: Program, r: Register, w: nat) {
    || MentionsComponent(p, r, 0) || (w > 1 && MentionsComponent(p, r, 1))
    || (w > 2 && MentionsComponent(p, r, 2)) || (w > 3 && MentionsComponent(p, r, 3))
  }

  function OperandNames(p: Program, r: Register, w: nat): set<Name> {
    if Mentions(p, r, w) then {NameOf(p, r)} else {}
  }

  lemma {:induction false} ComponentNames(p: Program, r: Register, k: Lane)
    ensures ExprNames(SrcComponent(p, r, k)) == if MentionsComponent(p, r, k) then {NameOf(p, r)} else {}
  {
    var e := RegComponent(p, r, r.swizzle.At(k));
    assert ExprNames(e) == if r.swizzle.At(k) < AvailableWidth(p, r) then {NameOf(p, r)} else {};
    hide NameOf, AvailableWidth, RegComponent;
    ModifiedNames(e, NameOf(p, r), r.srcMod);
  }

  lemma {:induction false} ModifiedNames(e: Expr, base: Name, mod: Nibble)
    ensures ExprNames(Modified(e, base, mod)) == ExprNames(e) + if mod == 9 || mod == 10 then {base} else {}
  {
    assert ExprNames(LessHalf(e)) == ExprNames(e);
    assert ExprNames(Times2(LessHalf(e))) == ExprNames(e);
    assert ExprNames(Un(Neg, e)) == ExprNames(e) == ExprNames(Un(AbsOf, e));
  }

  lemma {:induction false} OperandExprNames(p: Program, r: Register, w: nat)
    ensures ExprNames(Operand(p, r, w)) == OperandNames(p, r, w)
  {
    ComponentNames(p, r, 0);
    ComponentNames(p, r, 1);
    ComponentNames(p, r, 2);
    ComponentNames(p, r, 3);
    hide NameOf, SrcComponent, MentionsComponent;
  }

  // The width at which an arithmetic instruction reads its k-th operand.
  function ReadWidth(i: Instruction, k: nat): nat {
    if i.op.Dp3? then 3 else if i.op.Dp4? then 4 else if i.op.Dp2Add? then if k == 2 then 1 else 2 else PointwiseWidth(i)
  }

  function ReadNames(p: Program, i: Instruction, k: nat): set<Name> {
    if k < Arity(i.op) && k < |i.src| then OperandNames(p, i.src[k], ReadWidth(i, k)) else {}
  }

  function FlowNames(p: Program, src: seq<Register>): set<Name> {
    if src == [] then {} else OperandNames(p, src[0], 1) + FlowNames(p, src[1..])
  }

  // The variables that an instruction's lines name.
  function InstructionNames(p: Program, i: Instruction): set<Name>
    requires Modelled(i)
  {
    if i.op.Nop? then {}
    else if IsFlow(i.op) then FlowNames(p, i.src)
    else if i.op.SinCos? then
      if i.dst.writeMask == 0 then {}
      else {NameOf(p, i.dst)} + if i.dst.writeMask % 4 == 0 then {} else OperandNames(p, i.src[0], 1)
    else {NameOf(p, i.dst)} + (ReadNames(p, i, 0) + ReadNames(p, i, 1) + ReadNames(p, i, 2))
  }

  lemma {:induction false} UnaryNames(op: Op, a: Expr, b: Expr, c: Expr, n: nat)
    requires Pointwise(op) && Arity(op) == 1
    ensures ExprNames(CombineExpr(op, a, b, c, n)) == ExprNames(a)
  {
    assert ExprNames(Un(AbsOf, a)) == ExprNames(a);
  }

  lemma {:induction false} SelectNames(op: Op, a: Expr, b: Expr, c: Expr, n: nat)
    requires IsSelectOp(op)
    ensures ExprNames(CombineExpr(op, a, b, c, n)) == ExprNames(a) + ExprNames(b) + if op.Cmp? then ExprNames(c) else {}
  {
    hide ExprNames, Filled;
    var zero, one := Filled(n, 0.0), Filled(n, 1.0);
    FilledNames(n, 0.0);
    FilledNames(n, 1.0);
    match op
    case Slt => SelectOf(zero, one, Lt, a, b);
    case Sge => SelectOf(zero, one, Ge, a, b);
    case Cmp => SelectOf(c, b, Ge, a, zero);
  }

  lemma {:induction false} SelectOf(no: Expr, yes: Expr, cmp: Cmp, a: Expr, b: Expr)
    ensures ExprNames(Select(no, yes, cmp, a, b)) == ExprNames(no) + ExprNames(yes) + ExprNames(a) + ExprNames(b)
  {
  }

  lemma {:induction false} FilledNames(n: nat, x: real)
    ensures ExprNames(Filled(n, x)) == {}
  {
    assert ExprNames(Num(x)) == {};
    assert ExprNames(Splat(if 1 <= n <= 3 then n else 4, Num(x))) == ExprNames(Num(x));
  }

  lemma {:induction false} MoreNames(op: Op, a: Expr, b: Expr, c: Expr, n: nat)
    requires Pointwise(op) && Arity(op) > 1 && !IsSelectOp(op)
    ensures ExprNames(CombineExpr(op, a, b, c, n)) == ExprNames(a) + ExprNames(b) + if Arity(op) > 2 then ExprNames(c) else {}
  {
    assert ExprNames(Un(AbsOf, a)) == ExprNames(a);
    assert ExprNames(Bin(Times, a, b)) == ExprNames(a) + ExprNames(b);
    hide Filled;
  }

  lemma {:induction false} CombineNames(op: Op, a: Expr, b: Expr, c: Expr, n: nat)
    requires Pointwise(op)
    ensures ExprNames(CombineExpr(op, a, b, c, n)) ==
      ExprNames(a) + (if Arity(op) > 1 then ExprNames(b) else {}) + (if Arity(op) > 2 then ExprNames(c) else {})
  {
    if Arity(op) == 1 { UnaryNames(op, a, b, c, n); }
    else if IsSelectOp(op) { SelectNames(op, a, b, c, n); }
    else { MoreNames(op, a, b, c, n); }
    hide CombineExpr, ExprNames;
  }

  lemma {:induction false} FittedNames(i: Instruction, r: Rhs)
    ensures ExprNames(Fitted(i, r)) == ExprNames(r.e)
  {
    hide AllReplicated, DstWidth;
  }

  lemma {:induction false} ReadExprNames(p: Program, i: Instruction, k: nat)
    requires k < Arity(i.op) && k < |i.src|
    ensures ExprNames(OperandAt(p, i, k, ReadWidth(i, k))) == ReadNames(p, i, k)
  {
    OperandExprNames(p, i.src[k], ReadWidth(i, k));
    hide Operand, Mentions, ReadWidth, NameOf;
  }

  lemma {:induction false} RhsNames(p: Program, i: Instruction)
    requires Modelled(i) && Covered(i.op) && !i.op.SinCos?
    ensures ExprNames(RhsOf(p, i).e) == ReadNames(p, i, 0) + ReadNames(p, i, 1) + ReadNames(p, i, 2)
  {
    ReadExprNames(p, i, 0);
    if Arity(i.op) > 1 { ReadExprNames(p, i, 1); }
    if Arity(i.op) > 2 { ReadExprNames(p, i, 2); }
    if Pointwise(i.op) {
      var w := PointwiseWidth(i);
      CombineNames(i.op, OperandAt(p, i, 0, w), OperandAt(p, i, 1, w), OperandAt(p, i, 2, w), MaskCount(i.dst.writeMask));
    } else {
      DotNames(OperandAt(p, i, 0, ReadWidth(i, 0)), OperandAt(p, i, 1, ReadWidth(i, 0)));
    }
    hide OperandAt, OperandNames, PointwiseWidth, CombineExpr, MaskCount;
  }

  lemma {:induction false} DotNames(a: Expr, b: Expr)
    ensures ExprNames(Dot(Prefix(a, 3), Prefix(b, 3))) == ExprNames(a) + ExprNames(b) == ExprNames(Dot(a, b))
  {
  }

  lemma {:induction false} OneLineNames(l: Line)
    ensures AllNames([l]) == LineNames(l) && AllNames([]) == {}
  {
    assert [l][1..] == [];
    assert AllNames([l]) == LineNames(l) + AllNames([]);
  }

  lemma {:induction false} SinCosNames(p: Program, i: Instruction)
    requires i.op.SinCos? && |i.src| == 1
    ensures AllNames(EmitSinCos(p, i)) == InstructionNames(p, i)
  {
    hide NameOf, Operand, OperandNames, AllNames;
    var dst, scalar := NameOf(p, i.dst), Operand(p, i.src[0], 1);
    OperandExprNames(p, i.src[0], 1);
    var a := OneLine(Selected(i.dst.writeMask, 0), Assign(dst, 1, false, Un(Cos, scalar)));
    var b := OneLine(Selected(i.dst.writeMask, 1), Assign(dst, 2, false, Un(Sin, scalar)));
    var c := OneLine(Selected(i.dst.writeMask, 2), Assign(dst, 4, false, Num(0.0)));
    var d := OneLine(Selected(i.dst.writeMask, 3), Assign(dst, 8, false, Num(0.0)));
    OneLineNames(Assign(dst, 1, false, Un(Cos, scalar)));
    OneLineNames(Assign(dst, 2, false, Un(Sin, scalar)));
    OneLineNames(Assign(dst, 4, false, Num(0.0)));
    OneLineNames(Assign(dst, 8, false, Num(0.0)));
    NamesJoin(a, b);
    NamesJoin(a + b, c);
    NamesJoin(a + b + c, d);
  }

  lemma {:induction false} FlowLineNames(p: Program, i: Instruction)
    requires Modelled(i) && IsFlow(i.op)
    ensures LineNames(EmitFlow(p, i)) == FlowNames(p, i.src)
  {
    hide Operand, OperandNames;
    if |i.src| > 0 {
      OperandExprNames(p, i.src[0], 1);
      FlowUnfold(p, i.src);
    }
    if |i.src| > 1 {
      OperandExprNames(p, i.src[1], 1);
      FlowUnfold(p, i.src[1..]);
    }
  }

  lemma {:induction false} FlowUnfold(p: Program, src: seq<Register>)
    requires src != []
    ensures FlowNames(p, src) == OperandNames(p, src[0], 1) + FlowNames(p, src[1..])
    ensures |src| == 1 ==> FlowNames(p, src[1..]) == {}
  {
    hide OperandNames;
  }

  lemma {:induction false} EmittedNames(p: Program, i: Instruction)
    requires Modelled(i)
    ensures AllNames(EmitOne(p, i)) == InstructionNames(p, i)
  {
    if IsFlow(i.op) {
      FlowLineNames(p, i);
      OneLineNames(EmitFlow(p, i));
    } else if i.op.SinCos? {
      SinCosNames(p, i);
    } else if !i.op.Nop? {
      RhsNames(p, i);
      FittedNames(i, RhsOf(p, i));
      OneLineNames(Assign(NameOf(p, i.dst), i.dst.writeMask, Saturates(i.dst), Fitted(i, RhsOf(p, i))));
    }
    hide NameOf, RhsOf, Fitted, EmitFlow, FlowNames, ReadNames, AllNames, EmitSinCos, ExprNames;
  }

  // ---------------------------------------------------------------- what the function has

  // The fields that declarations give.
  function Fields(p: Program, dcls: seq<DclEntry>): seq<Name> {
    NamesOf(FieldsOf(p, dcls))
  }

  function Attributes(u: Usage, n: nat): seq<Name> {
    if n == 0 then [] else Attributes(u, n - 1) + if n - 1 in u.attributes then [OutOD(n - 1)] else []
  }

  function TexCoords(u: Usage, n: nat): seq<Name> {
    if n == 0 then [] else TexCoords(u, n - 1) + if n - 1 in u.outputs then [OutOT(n - 1)] else []
  }

  // The fields of the output structure that no declaration gives.
  function FixedFields(p: Program): seq<Name> {
    if !p.vertex then []
    else [OutPosition] + (if p.major < 3 then Attributes(p.usage, 2) + TexCoords(p.usage, 8) else [])
         + if p.usage.writesFog then [OutFog] else []
  }

  // The fields of the input and output structures.
  function Interface(p: Program): seq<Name> {
    Fields(p, p.dcls) + FixedFields(p)
  }

  // A constant register is an element of the buffer parameter.
  predicate Visible(p: Program, x: Name) {
    x.C? || x in Declared(p) || x in Interface(p)
  }

  // Every name is declared, and nothing is declared twice.
  ghost predicate Compiles(p: Program, lines: seq<Line>) {
    NoRepeats(Declared(p) + Interface(p)) && forall x :: x in AllNames(lines) ==> Visible(p, x)
  }

  // ---------------------------------------------------------------- when a translation compiles

  ghost predicate InstructionVisible(p: Program, i: Instruction) {
    Modelled(i) && forall x :: x in InstructionNames(p, i) ==> Visible(p, x)
  }

  // The condition on a program: nothing of its interface is declared twice, and every register
  // that an instruction mentions has a variable.
  ghost predicate Compilable(p: Program) {
    NoRepeats(Declared(p) + Interface(p)) && forall k :: 0 <= k < |p.instructions| ==> InstructionVisible(p, p.instructions[k])
  }

  lemma {:induction false} LinesVisible(p: Program, code: seq<Instruction>)
    requires AllModelled(code)
    ensures (forall x :: x in AllNames(EmitAll(p, code)) ==> Visible(p, x)) <==>
            (forall k :: 0 <= k < |code| ==> InstructionVisible(p, code[k]))
    decreases |code|
  {
    hide Visible, InstructionNames, EmitOne, AllNames, Modelled;
    if code == [] {
      NoLineNames();
    } else {
      assert Modelled(code[0]);
      LinesVisible(p, code[1..]);
      EmittedNames(p, code[0]);
      NamesJoin(EmitOne(p, code[0]), EmitAll(p, code[1..]));
      assert forall k :: 0 < k < |code| ==> code[k] == code[1..][k - 1];
      if forall k :: 0 <= k < |code| ==> InstructionVisible(p, code[k]) {
        assert InstructionVisible(p, code[0]);
        assert forall k :: 0 <= k < |code[1..]| ==> InstructionVisible(p, code[1..][k]);
      }
      if forall x :: x in AllNames(EmitAll(p, code)) ==> Visible(p, x) {
        assert InstructionVisible(p, code[0]);
        assert forall k :: 0 <= k < |code[1..]| ==> InstructionVisible(p, code[1..][k]);
      }
    }
  }

  lemma {:induction false} NoLineNames()
    ensures AllNames([]) == {}
  {
  }

  /** A translation compiles exactly when its program meets the condition. */
  lemma {:induction false} CompilesExactly(p: Program)
    requires AllModelled(p.instructions)
    ensures Compiles(p, EmitAll(p, p.instructions)) <==> Compilable(p)
  {
    LinesVisible(p, p.instructions);
    hide NoRepeats, Visible, InstructionVisible, AllNames, EmitAll, Declared, Interface;
  }

  // ---------------------------------------------------------------- which registers have a variable

  // The declaration gives a field of that name.
  predicate DeclaresField(p: Program, d: DclEntry, x: Name) {
    x in NamesOf(InputField(p, d)) || x in NamesOf(OutputField(p, d))
  }

  lemma {:induction false} FieldNames(p: Program, dcls: seq<DclEntry>, x: Name)
    requires dcls != []
    ensures x in Fields(p, dcls) <==> DeclaresField(p, dcls[0], x) || x in Fields(p, dcls[1..])
  {
    hide InputField, OutputField;
    var a, b, c := InputField(p, dcls[0]), OutputField(p, dcls[0]), FieldsOf(p, dcls[1..]);
    assert NamesOf(a + b + c) == NamesOf(a) + NamesOf(b) + NamesOf(c);
  }

  lemma {:induction false} FieldsHold(p: Program, dcls: seq<DclEntry>, x: Name)
    ensures x in Fields(p, dcls) <==> exists k :: 0 <= k < |dcls| && DeclaresField(p, dcls[k], x)
    decreases |dcls|
  {
    hide InputField, OutputField;
    if dcls != [] {
      FieldsHold(p, dcls[1..], x);
      FieldNames(p, dcls, x);
      hide Fields;
      assert forall k :: 0 < k < |dcls| ==> dcls[k] == dcls[1..][k - 1];
      if k :| 0 <= k < |dcls| && DeclaresField(p, dcls[k], x) {
        assert k == 0 || DeclaresField(p, dcls[1..][k - 1], x);
      }
      if k :| 0 <= k < |dcls[1..]| && DeclaresField(p, dcls[1..][k], x) {
        assert DeclaresField(p, dcls[k + 1], x);
      }
    }
  }

  lemma {:induction false} AttributesHold(u: Usage, n: nat, x: Name)
    ensures x in Attributes(u, n) <==> x.OutOD? && x.n < n && x.n in u.attributes
  {
    if n > 0 { AttributesHold(u, n - 1, x); }
  }

  lemma {:induction false} TexCoordsHold(u: Usage, n: nat, x: Name)
    ensures x in TexCoords(u, n) <==> x.OutOT? && x.n < n && x.n in u.outputs
  {
    if n > 0 { TexCoordsHold(u, n - 1, x); }
  }

  predicate HasDeclaration(p: Program, x: Name) {
    exists k :: 0 <= k < |p.dcls| && DeclaresField(p, p.dcls[k], x)
  }

  predicate HasDefinition(defs: seq<DefEntry>, kind: RegKind, n: nat) {
    exists k :: 0 <= k < |defs| && defs[k].kind == kind && defs[k].number == n
  }

  // Whether a register that the model covers has a variable in the emitted function.
  predicate HasVariable(p: Program, l: Loc) {
    match l
    case Temp(n) => n <= p.usage.maxTemp
    case Input(n) => HasDeclaration(p, InV(n))
    case TexCoord(n) => HasDeclaration(p, InT(n))
    case Constant(_) => true
    case IntConst(n) => HasDefinition(p.defs, CONSTINT, n)
    case BoolConst(n) => HasDefinition(p.defs, CONSTBOOL, n)
    case Position => p.vertex
    case Attribute(n) => p.vertex && p.major < 3 && n < 2 && n in p.usage.attributes
    case Out(n) =>
      if p.vertex && p.major < 3 then n < 8 && n in p.usage.outputs else HasDeclaration(p, OutO(n))
    case Color(n) => !p.vertex && n < Max1(p.usage.colorOutputs)
  }

  lemma {:induction false} TempsNames(n: nat, x: Name)
    ensures x in Temps(n) <==> x.R? && x.n < n
  {
    if n > 0 { TempsNames(n - 1, x); }
  }

  lemma {:induction false} ColorsNames(n: nat, x: Name)
    ensures x in Colors(n) <==> x.OC? && x.n < n
  {
    if n > 0 { ColorsNames(n - 1, x); }
  }

  lemma {:induction false} StageNamesAre(p: Program, x: Name)
    ensures x in StageNames(p) <==>
      if p.vertex then NeedsAddress(p.instructions) && x == A(0)
      else (x.OC? && x.n < Max1(p.usage.colorOutputs)) || (p.usage.writesDepth && x == ODepth)
  {
    ColorsNames(Max1(p.usage.colorOutputs), x);
    hide Colors, NeedsAddress;
  }

  function DefName(kind: RegKind, n: nat): Name {
    if kind == CONST then CDef(n) else if kind == CONSTINT then I(n) else B(n)
  }

  predicate IsDefKind(kind: RegKind) {
    kind == CONST || kind == CONSTINT || kind == CONSTBOOL
  }

  lemma {:induction false} DefNamesAre(defs: seq<DefEntry>, x: Name)
    ensures x in DefNames(defs) ==> x.CDef? || x.I? || x.B?
    ensures forall kind, n :: IsDefKind(kind) && x == DefName(kind, n) ==> (x in DefNames(defs) <==> HasDefinition(defs, kind, n))
    decreases |defs|
  {
    if defs != [] {
      var n := |defs| - 1;
      DefNamesAre(defs[..n], x);
      forall kind, m | IsDefKind(kind) && x == DefName(kind, m)
        ensures HasDefinition(defs, kind, m) <==> HasDefinition(defs[..n], kind, m) || (defs[n].kind == kind && defs[n].number == m)
      {
        if HasDefinition(defs[..n], kind, m) {
          var k :| 0 <= k < n && defs[..n][k].kind == kind && defs[..n][k].number == m;
          assert defs[k].kind == kind;
        }
        if HasDefinition(defs, kind, m) {
          var k :| 0 <= k < |defs| && defs[k].kind == kind && defs[k].number == m;
          assert k < n ==> defs[..n][k] == defs[k];
        }
      }
    }
  }

  lemma {:induction false} FixedNames(p: Program, x: Name)
    ensures x in FixedFields(p) ==> p.vertex
    ensures p.vertex ==> (x in FixedFields(p) <==>
      || x == OutPosition || (x == OutFog && p.usage.writesFog)
      || (p.major < 3 && x.OutOD? && x.n < 2 && x.n in p.usage.attributes)
      || (p.major < 3 && x.OutOT? && x.n < 8 && x.n in p.usage.outputs))
  {
    AttributesHold(p.usage, 2, x);
    TexCoordsHold(p.usage, 8, x);
    hide Attributes, TexCoords;
  }

  /** A register's name is a variable of the emitted function exactly as the table says. */
  lemma {:induction false} VariablesExactly(p: Program, l: Loc)
    ensures Visible(p, LocName(p, l)) <==> HasVariable(p, l)
  {
    var x := LocName(p, l);
    TempsNames(p.usage.maxTemp + 1, x);
    StageNamesAre(p, x);
    DefNamesAre(p.defs, x);
    FixedNames(p, x);
    FieldsHold(p, p.dcls, x);
    DeclarationKinds(p, x);
    DefinedHas(p, l);
    hide Temps, StageNames, DefNames, FixedFields, Fields, DeclaresField, HasDefinition, Defined;
  }

  lemma {:induction false} DefinedHas(p: Program, l: Loc)
    ensures l.Constant? && l.n < 256 && Defined(p.defs, l.n) ==> HasDefinition(p.defs, CONST, l.n)
    ensures l.IntConst? ==> DefName(CONSTINT, l.n) == I(l.n)
    ensures l.BoolConst? ==> DefName(CONSTBOOL, l.n) == B(l.n)
    ensures l.Constant? ==> DefName(CONST, l.n) == CDef(l.n)
  {
  }

  lemma {:induction false} DeclarationKinds(p: Program, x: Name)
    ensures HasDeclaration(p, x) ==> x.InV? || x.InT? || (x.OutO? && p.vertex && p.major >= 3)
  {
  }

  // ---------------------------------------------------------------- compiling, for bytecode that parses

  lemma {:induction false} NoRepeatsJoin(a: seq<Name>, b: seq<Name>)
    ensures NoRepeats(a + b) <==> NoRepeats(a) && NoRepeats(b) && forall x :: x in a ==> x !in b
  {
    var s := a + b;
    assert forall k :: 0 <= k < |a| ==> s[k] == a[k];
    assert forall k :: 0 <= k < |b| ==> s[|a| + k] == b[k];
    if NoRepeats(s) {
      forall j, k | 0 <= j < k < |a| ensures a[j] != a[k] { assert s[j] != s[k]; }
      forall j, k | 0 <= j < k < |b| ensures b[j] != b[k] { assert s[|a| + j] != s[|a| + k]; }
      forall j, k | 0 <= j < |a| && 0 <= k < |b| ensures a[j] != b[k] { assert s[j] != s[|a| + k]; }
    }
    if NoRepeats(a) && NoRepeats(b) && forall x :: x in a ==> x !in b {
      forall j, k | 0 <= j < k < |s| ensures s[j] != s[k] {
        if j < |a| <= k { assert a[j] in a && b[k - |a|] in b; }
      }
    }
  }

  lemma {:induction false} TempsOnce(n: nat)
    ensures NoRepeats(Temps(n))
  {
    if n > 0 {
      TempsOnce(n - 1);
      TempsNames(n - 1, R(n - 1));
      NoRepeatsJoin(Temps(n - 1), [R(n - 1)]);
    }
  }

  lemma {:induction false} ColorsOnce(n: nat)
    ensures NoRepeats(Colors(n))
  {
    if n > 0 {
      ColorsOnce(n - 1);
      ColorsNames(n - 1, OC(n - 1));
      NoRepeatsJoin(Colors(n - 1), [OC(n - 1)]);
    }
  }

  lemma {:induction false} StageOnce(p: Program)
    ensures NoRepeats(StageNames(p))
  {
    ColorsOnce(Max1(p.usage.colorOutputs));
    ColorsNames(Max1(p.usage.colorOutputs), ODepth);
    NoRepeatsJoin(Colors(Max1(p.usage.colorOutputs)), [ODepth]);
    NoRepeatsJoin(Colors(Max1(p.usage.colorOutputs)), []);
    hide NeedsAddress, Colors;
  }

  lemma {:induction false} DefsOnce(defs: seq<DefEntry>)
    requires DistinctDefs(defs)
    ensures NoRepeats(DefNames(defs))
    decreases |defs|
  {
    if defs != [] {
      var n := |defs| - 1;
      DefsOnce(defs[..n]);
      var last := NameOfDef(defs[n]);
      if last != [] {
        DefNamesAre(defs[..n], last[0]);
        assert last[0] == DefName(defs[n].kind, defs[n].number);
        forall k | 0 <= k < n ensures !SameSlot(defs[..n][k], defs[n]) { assert !SameSlot(defs[k], defs[n]); }
        assert !HasDefinition(defs[..n], defs[n].kind, defs[n].number);
      }
      hide DefNames, HasDefinition;
      NoRepeatsJoin(DefNames(defs[..n]), last);
    }
  }

  lemma {:induction false} LocalsOnce(p: Program)
    requires DistinctDefs(p.defs)
    ensures NoRepeats(Declared(p))
  {
    TempsOnce(p.usage.maxTemp + 1);
    StageOnce(p);
    DefsOnce(p.defs);
    hide NoRepeats, Temps, StageNames, DefNames, DistinctDefs, HasDefinition;
    NoRepeatsJoin(StageNames(p), DefNames(p.defs));
    NoRepeatsJoin(Temps(p.usage.maxTemp + 1), StageNames(p) + DefNames(p.defs));
    forall x: Name ensures (x in StageNames(p) ==> x !in DefNames(p.defs))
      && (x in Temps(p.usage.maxTemp + 1) ==> x !in StageNames(p) && x !in DefNames(p.defs))
    {
      StageNamesAre(p, x);
      DefNamesAre(p.defs, x);
      TempsNames(p.usage.maxTemp + 1, x);
    }
  }

  lemma {:induction false} AttributesOnce(u: Usage, n: nat)
    ensures NoRepeats(Attributes(u, n))
  {
    if n > 0 {
      AttributesOnce(u, n - 1);
      AttributesHold(u, n - 1, OutOD(n - 1));
      NoRepeatsJoin(Attributes(u, n - 1), [OutOD(n - 1)]);
    }
  }

  lemma {:induction false} TexCoordsOnce(u: Usage, n: nat)
    ensures NoRepeats(TexCoords(u, n))
  {
    if n > 0 {
      TexCoordsOnce(u, n - 1);
      TexCoordsHold(u, n - 1, OutOT(n - 1));
      NoRepeatsJoin(TexCoords(u, n - 1), [OutOT(n - 1)]);
    }
  }

  lemma {:induction false} MiddleOnce(u: Usage)
    ensures NoRepeats(Attributes(u, 2) + TexCoords(u, 8))
    ensures forall x :: x in Attributes(u, 2) + TexCoords(u, 8) ==> x.OutOD? || x.OutOT?
  {
    AttributesOnce(u, 2);
    TexCoordsOnce(u, 8);
    hide Attributes, TexCoords, NoRepeats;
    forall x ensures x in Attributes(u, 2) ==> x.OutOD? { AttributesHold(u, 2, x); }
    forall x ensures x in TexCoords(u, 8) ==> x.OutOT? { TexCoordsHold(u, 8, x); }
    NoRepeatsJoin(Attributes(u, 2), TexCoords(u, 8));
  }

  lemma {:induction false} FixedOnce(p: Program)
    ensures NoRepeats(FixedFields(p))
  {
    if p.vertex {
      MiddleOnce(p.usage);
      var middle := if p.major < 3 then Attributes(p.usage, 2) + TexCoords(p.usage, 8) else [];
      var fog := if p.usage.writesFog then [OutFog] else [];
      NoRepeatsJoin([OutPosition], middle);
      NoRepeatsJoin([OutPosition] + middle, fog);
      hide Attributes, TexCoords;
    }
  }

  // Only declarations can repeat a name.
  lemma {:induction false} OnlyFieldsRepeat(p: Program)
    requires DistinctDefs(p.defs)
    ensures NoRepeats(Declared(p) + Interface(p)) <==> NoRepeats(Fields(p, p.dcls))
  {
    LocalsOnce(p);
    FixedOnce(p);
    hide NoRepeats, Declared, Fields, FixedFields, DistinctDefs;
    NoRepeatsJoin(Fields(p, p.dcls), FixedFields(p));
    NoRepeatsJoin(Declared(p), Interface(p));
    forall x: Name ensures (x in Fields(p, p.dcls) ==> x !in FixedFields(p)) && (x in Declared(p) ==> x !in Interface(p)) {
      FieldsApart(p, x);
    }
  }

  lemma {:induction false} FieldsApart(p: Program, x: Name)
    ensures x in Fields(p, p.dcls) ==> x !in FixedFields(p)
    ensures x in Declared(p) ==> x !in Interface(p)
  {
    TempsNames(p.usage.maxTemp + 1, x);
    StageNamesAre(p, x);
    DefNamesAre(p.defs, x);
    FixedNames(p, x);
    FieldsHold(p, p.dcls, x);
    DeclarationKinds(p, x);
    hide Temps, StageNames, DefNames, FixedFields, Fields, DeclaresField, HasDefinition;
  }

  function OperandWidthOf(i: Instruction, k: nat): nat {
    if IsFlow(i.op) || i.op.SinCos? then 1 else ReadWidth(i, k)
  }

  predicate ReadsOperand(i: Instruction, k: nat) {
    if IsFlow(i.op) then true else if i.op.SinCos? then i.dst.writeMask % 4 != 0 else k < Arity(i.op)
  }

  predicate NamesDestination(i: Instruction, r: Register) {
    HasDst(i.op) && r == i.dst && (i.op.SinCos? ==> i.dst.writeMask != 0)
  }

  predicate NamesSource(p: Program, i: Instruction, k: nat)
    requires k < |i.src|
  {
    ReadsOperand(i, k) && Mentions(p, i.src[k], OperandWidthOf(i, k))
  }

  // The registers whose names stand in an instruction's lines.
  ghost predicate NamesRegister(p: Program, i: Instruction, r: Register) {
    NamesDestination(i, r) || exists k :: 0 <= k < |i.src| && r == i.src[k] && NamesSource(p, i, k)
  }

  lemma {:induction false} FlowNamesRegisters(p: Program, src: seq<Register>, x: Name)
    ensures x in FlowNames(p, src) <==> exists k :: 0 <= k < |src| && x in OperandNames(p, src[k], 1)
    decreases |src|
  {
    hide OperandNames;
    if src != [] {
      FlowNamesRegisters(p, src[1..], x);
      if k :| 0 <= k < |src[1..]| && x in OperandNames(p, src[1..][k], 1) { assert x in OperandNames(p, src[k + 1], 1); }
      if k :| 0 <= k < |src| && x in OperandNames(p, src[k], 1) {
        assert k == 0 || x in OperandNames(p, src[1..][k - 1], 1);
      }
    }
  }

  lemma {:induction false} SourceNames(p: Program, i: Instruction, x: Name)
    requires Modelled(i)
    ensures x in InstructionNames(p, i) <==>
      || (HasDst(i.op) && (i.op.SinCos? ==> i.dst.writeMask != 0) && x == NameOf(p, i.dst))
      || exists k :: 0 <= k < |i.src| && NamesSource(p, i, k) && x == NameOf(p, i.src[k])
  {
    hide NameOf, Mentions, PointwiseWidth;
    if IsFlow(i.op) {
      FlowNamesRegisters(p, i.src, x);
      hide FlowNames;
      forall k | 0 <= k < |i.src| ensures x in OperandNames(p, i.src[k], 1) <==> NamesSource(p, i, k) && x == NameOf(p, i.src[k]) {}
    } else if i.op.SinCos? {
      assert |i.src| == 1;
      assert NamesSource(p, i, 0) <==> i.dst.writeMask % 4 != 0 && Mentions(p, i.src[0], 1);
    } else if !i.op.Nop? {
      forall k | 0 <= k < |i.src| ensures NamesSource(p, i, k) && x == NameOf(p, i.src[k]) <==> x in ReadNames(p, i, k) {}
      forall k | k == 0 || k == 1 || k == 2 ensures x in ReadNames(p, i, k) ==> k < |i.src| {}
      hide ReadNames, NamesSource;
    }
  }

  // Every register that an instruction names is one that the model covers.
  ghost predicate PlainRegisters(p: Program, i: Instruction) {
    forall r :: NamesRegister(p, i, r) ==> Plainly(p, r)
  }

  ghost predicate VariablesThere(p: Program, i: Instruction) {
    forall r :: NamesRegister(p, i, r) && LocOf(p, r).Some? ==> HasVariable(p, LocOf(p, r).value)
  }

  lemma {:induction false} VisibleRegisters(p: Program, i: Instruction)
    requires Modelled(i) && PlainRegisters(p, i)
    ensures InstructionVisible(p, i) <==> VariablesThere(p, i)
  {
    hide Visible, HasVariable, LocName, LocOf, NamesSource, InstructionNames, Modelled;
    forall r | NamesRegister(p, i, r) ensures Visible(p, NameOf(p, r)) <==> HasVariable(p, LocOf(p, r).value) {
      NameOfLocation(p, r);
      VariablesExactly(p, LocOf(p, r).value);
    }
    hide NameOf, Plainly;
    if VariablesThere(p, i) {
      forall x | x in InstructionNames(p, i) ensures Visible(p, x) {
        SourceNames(p, i, x);
        NamedBy(p, i, x);
      }
    }
    if InstructionVisible(p, i) {
      forall r | NamesRegister(p, i, r) ensures Visible(p, NameOf(p, r)) {
        SourceNames(p, i, NameOf(p, r));
      }
    }
  }

  lemma {:induction false} NamedBy(p: Program, i: Instruction, x: Name)
    requires Modelled(i) && x in InstructionNames(p, i)
    ensures exists r :: NamesRegister(p, i, r) && NameOf(p, r) == x
  {
    SourceNames(p, i, x);
    hide NameOf, NamesSource, InstructionNames, Modelled;
    if HasDst(i.op) && (i.op.SinCos? ==> i.dst.writeMask != 0) && x == NameOf(p, i.dst) {
      assert NamesRegister(p, i, i.dst);
    } else {
      var k :| 0 <= k < |i.src| && NamesSource(p, i, k) && x == NameOf(p, i.src[k]);
      assert NamesRegister(p, i, i.src[k]);
    }
  }

  // For bytecode that parses: what is known of a register an instruction names. Temporaries,
  // outputs and color registers that instructions other than flow control use are declared,
  // except outputs past the structure's last and colors past the last one written.
  predicate ParsedVariable(p: Program, i: Instruction, r: Register)
    requires LocOf(p, r).Some?
  {
    match LocOf(p, r).value
    case Temp(n) => !IsFlow(i.op) || n <= LargestTemp(p.instructions)
    case Attribute(n) => p.vertex && p.major < 3 && n < 2 && ((HasDst(i.op) && r == i.dst) || n in p.usage.attributes)
    case Out(n) =>
      if p.vertex && p.major < 3 then n < 8 && (!IsFlow(i.op) || n in p.usage.outputs) else HasDeclaration(p, OutO(n))
    case Color(n) => !p.vertex && n < Max1(LastColor(p.instructions))
    case l => HasVariable(p, l)
  }

  lemma {:induction false} ParsedVariableIs(p: Program, q: Program, i: Instruction, r: Register)
    requires Kept(q) && p == Finish(q) && i in p.instructions && NamesRegister(p, i, r) && LocOf(p, r).Some?
    ensures HasVariable(p, LocOf(p, r).value) <==> ParsedVariable(p, i, r)
  {
    var k :| 0 <= k < |q.instructions| && q.instructions[k] == i;
    assert InstructionTracked(q.usage, i);
    if !IsFlow(i.op) { NamedIsTracked(p, q.usage, i, r); }
    hide NamesRegister, InstructionTracked, LargestTemp, LastColor, HasDeclaration, HasDefinition, FindOutputDcl;
  }

  lemma {:induction false} NamedIsTracked(p: Program, u: Usage, i: Instruction, r: Register)
    requires InstructionTracked(u, i) && NamesRegister(p, i, r) && !IsFlow(i.op)
    ensures Tracked(u, r, true) || (Tracked(u, r, false) && !(HasDst(i.op) && r == i.dst))
  {
    hide NamesSource;
  }

  ghost predicate AllParsed(p: Program, i: Instruction) {
    forall r :: NamesRegister(p, i, r) && LocOf(p, r).Some? ==> ParsedVariable(p, i, r)
  }

  lemma {:induction false} ParsedInstruction(p: Program, q: Program, i: Instruction)
    requires Kept(q) && p == Finish(q) && i in p.instructions && Modelled(i) && PlainRegisters(p, i)
    ensures InstructionVisible(p, i) <==> AllParsed(p, i)
  {
    VisibleRegisters(p, i);
    hide Kept, NamesRegister, HasVariable, ParsedVariable, LocOf, InstructionVisible, Finish, Modelled;
    forall r | NamesRegister(p, i, r) && LocOf(p, r).Some? ensures HasVariable(p, LocOf(p, r).value) <==> ParsedVariable(p, i, r) {
      ParsedVariableIs(p, q, i, r);
    }
  }

  /** For every bytecode that parses, with covered instructions on covered registers: the emitted
      function compiles exactly when no declaration repeats a field and every register its lines
      name is one of those that have a variable. */
  lemma {:induction false} CompilesForParsed(b: seq<u32>, p: Program)
    requires ParseSpec(b) == Parsed(p)
    requires forall k :: 0 <= k < |p.instructions| ==> Modelled(p.instructions[k]) && PlainRegisters(p, p.instructions[k])
    ensures AllModelled(p.instructions)
    ensures Compiles(p, EmitAll(p, p.instructions)) <==>
      NoRepeats(Fields(p, p.dcls)) && forall k :: 0 <= k < |p.instructions| ==> AllParsed(p, p.instructions[k])
  {
    hide ParseSpec, Bytecode, TableIs, LastWrites, DistinctDefs, NoRepeats, Fields, Declared, Interface, Compiles, EmitAll,
      Kept, AllParsed, InstructionVisible, PlainRegisters, Finish, Modelled;
    var items, q := ParsedKept(b, p);
    OnlyFieldsRepeat(p);
    CompilesExactly(p);
    forall k | 0 <= k < |p.instructions| ensures InstructionVisible(p, p.instructions[k]) <==> AllParsed(p, p.instructions[k]) {
      ParsedInstruction(p, q, p.instructions[k]);
    }
  }
}
