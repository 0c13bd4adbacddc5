/**
  A whole translated function from its start: the registers that a Direct3D 9 program starts
  from, the variables that the emitted function declares, and the run from there to the end.
 */
module ShaderStart {
  import opened Options
  import opened Words
  import opened ShaderIr
  import opened ShaderParser
  import opened ShaderFormat
  import opened ShaderEncoding
  import opened ShaderSemantics
  import opened Msl
  import opened MslEmitter
  import opened ShaderInterface
  import opened ShaderDeclarations
  import opened ShaderOperands
  import opened ShaderScope
  import opened ShaderBlocks
  import opened MslBlocks
  import opened ShaderAssignments
  import opened ShaderPreservation

  // What a draw gives the function: the inputs, the texture coordinates, the constant buffer.
  datatype Given = Given(inputs: map<nat, V4>, coords: map<nat, V4>, buffer: map<nat, V4>)

  function Nth(vs: map<nat, V4>, n: nat): V4 {
    if n in vs then vs[n] else ZERO
  }

  // ---------------------------------------------------------------- immediate values

  function At(words: seq<u32>, k: nat): u32 {
    if k < |words| then words[k] else 0
  }

  // Two's complement.
  function Signed(w: u32): int {
    if w < 0x8000_0000 then w else w - TWO_32
  }

  // The value that the words of a definition stand for.
  function Immediate(m: Math, kind: RegKind, words: seq<u32>): V4 {
    if kind == CONST then V4(m.float(At(words, 0)), m.float(At(words, 1)), m.float(At(words, 2)), m.float(At(words, 3)))
    else if kind == CONSTINT then
      V4(Signed(At(words, 0)) as real, Signed(At(words, 1)) as real, Signed(At(words, 2)) as real, Signed(At(words, 3)) as real)
    else V4(if At(words, 0) != 0 then 1.0 else 0.0, 0.0, 0.0, 0.0)
  }

  // ---------------------------------------------------------------- Direct3D 9

  const FLOAT_CONSTANTS := 256

  // What a register holds when the program starts: a constant its last definition, or what was
  // given when there is none; inputs what was given; and everything else zero.
  ghost function Initially(m: Math, items: seq<Item>, given: Given, l: Loc): V4 {
    var writes := LastWrites(map[], items);
    match l
    case Input(n) => Nth(given.inputs, n)
    case TexCoord(n) => Nth(given.coords, n)
    case Constant(n) =>
      if n < FLOAT_CONSTANTS && (CONST, n) in writes then Immediate(m, CONST, writes[(CONST, n)]) else Nth(given.buffer, n)
    case IntConst(n) => if (CONSTINT, n) in writes then Immediate(m, CONSTINT, writes[(CONSTINT, n)]) else ZERO
    case BoolConst(n) => if (CONSTBOOL, n) in writes then Immediate(m, CONSTBOOL, writes[(CONSTBOOL, n)]) else ZERO
    case _ => ZERO
  }

  ghost predicate StartRegs(m: Math, items: seq<Item>, given: Given, regs: Regs) {
    forall l :: Get(regs, l) == Initially(m, items, given, l)
  }

  // ---------------------------------------------------------------- Metal

  // The value a declaration gives its variable.
  function Shown(m: Math, d: Variable): V4 {
    if IsConstant(d.name) then Immediate(m, KindOf(d.name), d.start) else ZERO
  }

  // What the declarations of a function and its parameters leave in its variables.
  ghost predicate StartEnv(m: Math, p: Program, lines: seq<Variable>, given: Given, env: Env) {
    && Names(lines) == Declared(p) && (forall k :: 0 <= k < |lines| ==> FromTable(p.defs, lines[k]))
    && (forall k :: 0 <= k < |lines| ==> Value(env, lines[k].name) == Shown(m, lines[k]))
    && (forall n :: Value(env, InV(n)) == Nth(given.inputs, n) && env.inputWidth(n) == VariableWidth(p, n))
    && (forall n :: Value(env, InT(n)) == Nth(given.coords, n) && Value(env, C(n)) == Nth(given.buffer, n))
    && (forall x: Name :: x !in Declared(p) && !x.InV? && !x.InT? && !x.C? ==> Value(env, x) == ZERO)
  }

  // An input has nothing beyond the components of its field.
  ghost predicate Fitting(p: Program, given: Given) {
    forall n: nat, lane: Lane :: lane >= VariableWidth(p, n) ==> Nth(given.inputs, n).At(lane) == 0.0
  }

  // ---------------------------------------------------------------- matching starts

  lemma {:induction false} LineOf(lines: seq<Variable>, x: Name) returns (k: nat)
    requires x in Names(lines)
    ensures k < |lines| && lines[k].name == x
  {
    var j :| 0 <= j < |Names(lines)| && Names(lines)[j] == x;
    k := j;
  }

  // A variable that no definition declares starts at zero, declared or not.
  lemma {:induction false} ZeroStart(m: Math, p: Program, lines: seq<Variable>, given: Given, env: Env, x: Name)
    requires StartEnv(m, p, lines, given, env) && !IsConstant(x) && !x.InV? && !x.InT? && !x.C?
    ensures Value(env, x) == ZERO
  {
    hide Declared;
    if x in Declared(p) {
      var k := LineOf(lines, x);
    }
  }

  lemma {:induction false} DefinedIsWritten(b: seq<u32>, p: Program, items: seq<Item>, kind: RegKind, n: nat)
    requires ParseSpec(b) == Parsed(p) && Bytecode(b, items)
    ensures HasDefinition(p.defs, kind, n) <==> (kind, n) in LastWrites(map[], items)
  {
    ParseReturnsProgram(b, p, items);
    hide ParseSpec, Bytecode, LastWrites;
    if HasDefinition(p.defs, kind, n) {
      var k :| 0 <= k < |p.defs| && p.defs[k].kind == kind && p.defs[k].number == n;
      assert Keys(p.defs)[k] == (kind, n);
    }
    if (kind, n) in LastWrites(map[], items) {
      var k :| 0 <= k < |p.defs| && Keys(p.defs)[k] == (kind, n);
      assert Key(p.defs[k]) == (kind, n);
    }
  }

  lemma {:induction false} ConstantDeclared(p: Program, kind: RegKind, n: nat)
    requires IsDefKind(kind)
    ensures DefName(kind, n) in Declared(p) <==> HasDefinition(p.defs, kind, n)
  {
    var x := DefName(kind, n);
    TempsNames(p.usage.maxTemp + 1, x);
    StageNamesAre(p, x);
    DefNamesAre(p.defs, x);
    hide Temps, StageNames, DefNames, HasDefinition;
  }

  // A constant that is defined starts from its last definition, and no other is declared.
  lemma {:induction false} ConstantStart(m: Math, b: seq<u32>, p: Program, items: seq<Item>, lines: seq<Variable>, given: Given,
                                         env: Env, kind: RegKind, n: nat)
    requires ParseSpec(b) == Parsed(p) && Bytecode(b, items) && StartEnv(m, p, lines, given, env) && IsDefKind(kind)
    ensures var writes, x := LastWrites(map[], items), DefName(kind, n);
      && ((kind, n) in writes <==> HasDefinition(p.defs, kind, n))
      && Value(env, x) == if (kind, n) in writes then Immediate(m, kind, writes[(kind, n)]) else ZERO
  {
    hide ParseSpec, Bytecode, LastWrites, Declared, HasDefinition, FromTable, Immediate;
    DefinedIsWritten(b, p, items, kind, n);
    ConstantDeclared(p, kind, n);
    var x := DefName(kind, n);
    if x in Declared(p) {
      var k := LineOf(lines, x);
      DeclaredWithLastValue(b, p, lines[k], items);
    }
  }

  lemma {:induction false} DefinedIs(p: Program, n: nat)
    ensures Defined(p.defs, n) <==> HasDefinition(p.defs, CONST, n)
  {
  }

  lemma {:induction false} StartValueAgrees(m: Math, b: seq<u32>, p: Program, items: seq<Item>, lines: seq<Variable>,
                                            given: Given, env: Env, l: Loc)
    requires ParseSpec(b) == Parsed(p) && Bytecode(b, items) && StartEnv(m, p, lines, given, env)
    ensures Initially(m, items, given, l) == Value(env, LocName(p, l))
  {
    hide ParseSpec, Bytecode, LastWrites, Declared, HasDefinition, FromTable, Immediate, Defined;
    match l
    case Constant(n) => ConstantStart(m, b, p, items, lines, given, env, CONST, n); DefinedIs(p, n);
    case IntConst(n) => ConstantStart(m, b, p, items, lines, given, env, CONSTINT, n);
    case BoolConst(n) => ConstantStart(m, b, p, items, lines, given, env, CONSTBOOL, n);
    case Input(n) =>
    case TexCoord(n) =>
    case _ => ZeroStart(m, p, lines, given, env, LocName(p, l));
  }

  /** The declarations leave in every variable what its register starts from. */
  lemma {:induction false} StartsMatch(m: Math, b: seq<u32>, p: Program, items: seq<Item>, lines: seq<Variable>, given: Given,
                                       regs: Regs, env: Env)
    requires ParseSpec(b) == Parsed(p) && Bytecode(b, items) && Fitting(p, given)
    requires StartRegs(m, items, given, regs) && StartEnv(m, p, lines, given, env)
    ensures Agrees(p, regs, env) && Narrow(p, regs)
  {
    hide ParseSpec, Bytecode, LocName, Value, VariableWidth;
    forall l ensures Get(regs, l) == Value(env, LocName(p, l)) {
      StartValueAgrees(m, b, p, items, lines, given, env, l);
    }
    hide Initially, Declared, FromTable, Shown;
    forall n: nat, lane: Lane ensures ZeroBeyond(p, regs, n, lane) {
      InitialInput(m, items, given, n);
    }
  }

  lemma {:induction false} InitialInput(m: Math, items: seq<Item>, given: Given, n: nat)
    ensures Initially(m, items, given, Input(n)) == Nth(given.inputs, n)
  {
    hide LastWrites;
  }

  /** From the bytecode to the pixels and vertices: for every bytecode that parses to a balanced
      program within the channel and typing conditions, and everything a draw can give it, the
      emitted function declares its variables, runs to its end, and leaves in its outputs what the
      Direct3D 9 program leaves in its output registers; unless a field repeats or a register that
      is named has no variable, when it never runs. */
  lemma {:induction false} TranslatedFromStart(m: Math, b: seq<u32>, p: Program, items: seq<Item>, lines: seq<Variable>,
                                               given: Given, regs: Regs, env: Env)
    returns (steps: nat, end: Regs, after: Env, fuel: nat)
    requires ParseSpec(b) == Parsed(p) && Bytecode(b, items) && Balanced(p.instructions) && AllFaithful(p, p.instructions)
    requires Fitting(p, given) && StartRegs(m, items, given, regs) && StartEnv(m, p, lines, given, env)
    ensures AllModelled(p.instructions)
    ensures Run(m, p, p.instructions, Machine(0, regs, []), steps) == Machine(|p.instructions|, end, [])
    ensures forall l :: Value(after, LocName(p, l)) == Get(end, l)
    ensures forall k: nat :: k >= fuel ==>
      RunFunction(m, p, env, EmitAll(p, p.instructions), k) ==
      if NoRepeats(Fields(p, p.dcls)) && forall j :: 0 <= j < |p.instructions| ==> AllParsed(p, p.instructions[j])
      then Ended(after, false) else Stuck
  {
    hide ParseSpec, Bytecode, Faithful, Balanced, Run, Exec, EmitAll, AllParsed, NoRepeats, Modelled, ReadAll, Fitting, StartRegs,
      StartEnv, RunFunction, Narrow, Fields;
    StartsMatch(m, b, p, items, lines, given, regs, env);
    steps, end, after, fuel := TranslatedBytecode(m, b, p, regs, env);
  }

  // ---------------------------------------------------------------- every draw has a start

  ghost function StartLocs(items: seq<Item>, given: Given): set<Loc> {
    var writes := LastWrites(map[], items);
    (set n | n in given.inputs :: Input(n)) + (set n | n in given.coords :: TexCoord(n))
    + (set n | n in given.buffer :: Constant(n)) + (set k | k in writes && k.0 == CONST :: Constant(k.1))
    + (set k | k in writes && k.0 == CONSTINT :: IntConst(k.1)) + (set k | k in writes && k.0 == CONSTBOOL :: BoolConst(k.1))
  }

  ghost function MakeRegs(m: Math, items: seq<Item>, given: Given): (regs: Regs)
    ensures StartRegs(m, items, given, regs)
  {
    var regs := map l | l in StartLocs(items, given) :: Initially(m, items, given, l);
    assert forall l :: Get(regs, l) == Initially(m, items, given, l) by {
      forall l ensures Get(regs, l) == Initially(m, items, given, l) { OutsideZero(m, items, given, l); }
    }
    regs
  }

  lemma {:induction false} OutsideZero(m: Math, items: seq<Item>, given: Given, l: Loc)
    ensures l !in StartLocs(items, given) ==> Initially(m, items, given, l) == ZERO
  {
    hide LastWrites, Immediate;
    var writes := LastWrites(map[], items);
    match l
    case Constant(n) => if (CONST, n) in writes { assert l in StartLocs(items, given); }
    case IntConst(n) => if (CONSTINT, n) in writes { assert l in StartLocs(items, given); }
    case BoolConst(n) => if (CONSTBOOL, n) in writes { assert l in StartLocs(items, given); }
    case _ =>
  }

  // What a variable starts from, by its name.
  ghost function NameStart(m: Math, items: seq<Item>, given: Given, x: Name): V4 {
    var writes := LastWrites(map[], items);
    if x.InV? then Nth(given.inputs, x.n) else if x.InT? then Nth(given.coords, x.n) else if x.C? then Nth(given.buffer, x.n)
    else if IsConstant(x) && (KindOf(x), x.n) in writes then Immediate(m, KindOf(x), writes[(KindOf(x), x.n)])
    else ZERO
  }

  ghost function StartNames(items: seq<Item>, given: Given): set<Name> {
    var writes := LastWrites(map[], items);
    (set n | n in given.inputs :: InV(n)) + (set n | n in given.coords :: InT(n)) + (set n | n in given.buffer :: C(n))
    + (set k | k in writes && k.0 == CONST :: CDef(k.1)) + (set k | k in writes && k.0 == CONSTINT :: I(k.1))
    + (set k | k in writes && k.0 == CONSTBOOL :: B(k.1))
  }

  lemma {:induction false} OutsideNames(m: Math, items: seq<Item>, given: Given, x: Name)
    ensures x !in StartNames(items, given) ==> NameStart(m, items, given, x) == ZERO
  {
    hide LastWrites, Immediate;
    var writes := LastWrites(map[], items);
    match x
    case CDef(n) => if (CONST, n) in writes { assert x in StartNames(items, given); }
    case I(n) => if (CONSTINT, n) in writes { assert x in StartNames(items, given); }
    case B(n) => if (CONSTBOOL, n) in writes { assert x in StartNames(items, given); }
    case _ =>
  }

  function Zeros(names: seq<Name>): (lines: seq<Variable>)
    ensures Names(lines) == names
  {
    seq(|names|, k requires 0 <= k < |names| => Variable(names[k], []))
  }

  function DefLines(defs: seq<DefEntry>): (lines: seq<Variable>)
    ensures Names(lines) == DefNames(defs)
    decreases |defs|
  {
    if defs == [] then []
    else
      var last := defs[|defs| - 1];
      DefLines(defs[..|defs| - 1]) + if NameOfDef(last) == [] then [] else [Variable(NameOfDef(last)[0], last.values)]
  }

  lemma {:induction false} DefLinesFrom(defs: seq<DefEntry>, k: nat)
    requires k < |DefLines(defs)|
    ensures FromTable(defs, DefLines(defs)[k])
    decreases |defs|
  {
    hide Names, NameOfDef;
    var n := |defs| - 1;
    var before := DefLines(defs[..n]);
    if k < |before| {
      DefLinesFrom(defs[..n], k);
      if IsConstant(before[k].name) {
        var j :| 0 <= j < n && IsDefinition(defs[..n][j], before[k]);
        assert IsDefinition(defs[j], DefLines(defs)[k]);
      }
    } else {
      OneName(defs[n]);
      assert IsDefinition(defs[n], DefLines(defs)[k]);
    }
  }

  lemma {:induction false} OneName(d: DefEntry)
    ensures |NameOfDef(d)| <= 1
  {
  }

  lemma {:induction false} LinesExist(p: Program) returns (lines: seq<Variable>)
    ensures Names(lines) == Declared(p) && forall k :: 0 <= k < |lines| ==> FromTable(p.defs, lines[k])
  {
    hide Temps, StageNames, DefNames, DefLines, Names, FromTable;
    var locals := Temps(p.usage.maxTemp + 1) + StageNames(p);
    var zeros := Zeros(locals);
    lines := zeros + DefLines(p.defs);
    NamesJoin(zeros, DefLines(p.defs));
    assert locals + DefNames(p.defs) == Declared(p);
    forall k | 0 <= k < |lines| ensures FromTable(p.defs, lines[k]) {
      if k < |zeros| { LocalFromTable(p, zeros, locals, k); } else { DefLinesFrom(p.defs, k - |zeros|); }
    }
  }

  lemma {:induction false} NamesJoin(a: seq<Variable>, b: seq<Variable>)
    ensures Names(a + b) == Names(a) + Names(b)
  {
  }

  lemma {:induction false} LocalFromTable(p: Program, zeros: seq<Variable>, locals: seq<Name>, k: nat)
    requires locals == Temps(p.usage.maxTemp + 1) + StageNames(p) && Names(zeros) == locals && k < |zeros|
    ensures FromTable(p.defs, zeros[k])
  {
    hide Temps, StageNames, IsDefinition;
    assert zeros[k].name == locals[k] && locals[k] in locals;
    LocalNames(p, locals[k]);
  }

  lemma {:induction false} LocalNames(p: Program, x: Name)
    ensures x in Temps(p.usage.maxTemp + 1) + StageNames(p) ==> !IsConstant(x)
  {
    TempsNames(p.usage.maxTemp + 1, x);
    StageNamesAre(p, x);
    hide Temps, StageNames;
  }

  /** Every bytecode that parses, with every draw, has such a start on both sides. */
  lemma {:induction false} StartExists(m: Math, b: seq<u32>, p: Program, items: seq<Item>, given: Given)
    returns (lines: seq<Variable>, regs: Regs, env: Env)
    requires ParseSpec(b) == Parsed(p) && Bytecode(b, items)
    ensures StartRegs(m, items, given, regs) && StartEnv(m, p, lines, given, env)
  {
    hide ParseSpec, Bytecode, Declared, LastWrites, FromTable;
    regs := MakeRegs(m, items, given);
    lines := LinesExist(p);
    var vars := map x | x in StartNames(items, given) :: NameStart(m, items, given, x);
    env := Env(vars, n => VariableWidth(p, n));
    forall x ensures Value(env, x) == NameStart(m, items, given, x) { OutsideNames(m, items, given, x); }
    hide StartNames;
    forall k | 0 <= k < |lines| ensures Value(env, lines[k].name) == Shown(m, lines[k]) {
      if IsConstant(lines[k].name) {
        DeclaredWithLastValue(b, p, lines[k], items);
      } else {
        LocalStart(p, lines, k);
      }
    }
    forall x: Name | x !in Declared(p) && !x.InV? && !x.InT? && !x.C? ensures Value(env, x) == ZERO {
      if IsConstant(x) { UndeclaredUnwritten(b, p, items, x); }
    }
  }

  lemma {:induction false} LocalStart(p: Program, lines: seq<Variable>, k: nat)
    requires Names(lines) == Declared(p) && k < |lines|
    ensures !lines[k].name.InV? && !lines[k].name.InT? && !lines[k].name.C?
  {
    var x := lines[k].name;
    assert x in Declared(p) by { assert Names(lines)[k] == x; }
    TempsNames(p.usage.maxTemp + 1, x);
    StageNamesAre(p, x);
    DefNamesAre(p.defs, x);
    hide Temps, StageNames, DefNames, HasDefinition;
  }

  lemma {:induction false} UndeclaredUnwritten(b: seq<u32>, p: Program, items: seq<Item>, x: Name)
    requires ParseSpec(b) == Parsed(p) && Bytecode(b, items) && IsConstant(x) && x !in Declared(p)
    ensures (KindOf(x), x.n) !in LastWrites(map[], items)
  {
    hide ParseSpec, Bytecode, LastWrites, Declared, HasDefinition;
    DefinedIsWritten(b, p, items, KindOf(x), x.n);
    ConstantDeclared(p, KindOf(x), x.n);
  }

  // ---------------------------------------------------------------- inputs declared twice

  const POSITION_XYZW: DclEntry := DclEntry(USAGE_POSITION, 0, INPUT, 15, 0, 0)
  const FOG_X: DclEntry := DclEntry(11, 0, INPUT, 1, 0, 0)

  lemma {:induction false} BothDeclared(p: Program)
    requires p.dcls == [] && p.instructions == [] && p.defs == []
    ensures AbsorbAll(p, [Declaration(POSITION_XYZW), Declaration(FOG_X)]).Some?
    ensures Dcls([Declaration(POSITION_XYZW), Declaration(FOG_X)]) == [POSITION_XYZW, FOG_X]
  {
    var items := [Declaration(POSITION_XYZW), Declaration(FOG_X)];
    assert items[1..] == [Declaration(FOG_X)] && items[1..][1..] == [];
    var q := Absorb(p, items[0]).value;
    assert AbsorbAll(q, items[1..]) == AbsorbAll(Absorb(q, items[1]).value, []);
    assert AbsorbAll(p, items) == AbsorbAll(q, items[1..]);
    assert Dcls(items[1..]) == [FOG_X] + Dcls([]);
  }

  // The widths of an input that is declared as a position and then as a fog coordinate.
  lemma {:induction false} TwoWidths(p: Program)
    requires p.vertex && p.dcls == [POSITION_XYZW, FOG_X]
    ensures VariableWidth(p, 0) == 4 && !DeclaredAlike(p, 0)
    ensures forall r: Register :: r.kind == INPUT && r.number == 0 ==> AvailableWidth(p, r) == 1
  {
    hide Lanes, DeclaredWidth, FindLast;
    LanesCounted(15);
    LanesCounted(1);
    LastWidth(p.dcls, 0);
    assert p.dcls[1] == FOG_X && p.dcls[0] == POSITION_XYZW;
    var field, last := FindLast(p.dcls, 0, true), FindLast(p.dcls, 0, false);
    assert IsLast(p.dcls, last.value, 0, false) && last.value == 1;
    assert IsLast(p.dcls, field.value, 0, true) && field.value == 0;
  }

  // A vertex shader can be parsed whose input has four components in its field, while every
  // operand that reads it gets zero for all but the first: whatever was given, v0.y is 0.0.
  lemma {:induction false} RedeclaredInput() returns (b: seq<u32>, p: Program)
    ensures ParseSpec(b) == Parsed(p) && p.vertex && VariableWidth(p, 0) == 4 && !DeclaredAlike(p, 0)
    ensures forall r: Register, m: Math, env: Env ::
      r.kind == INPUT && r.number == 0 && r.swizzle == IDENTITY && r.srcMod == 0 ==>
      Eval(m, env, SrcComponent(p, r, 1)) == Some([0.0])
  {
    hide AbsorbAll, Dcls, VariableWidth, DeclaredAlike, ParseSpec, InputWidth;
    var items := [Declaration(POSITION_XYZW), Declaration(FOG_X)];
    BothDeclared(Start(0xFFFE_0300).value);
    b, p := EncodedProgram(0xFFFE_0300, items);
    ParseReturnsProgram(b, p, items);
    TwoWidths(p);
  }
}
