/**
  What a Direct3D 9 shader program means: registers hold four real lanes, an arithmetic
  instruction works channel by channel, and flow control is a flat instruction list run by
  a program counter with a stack of loops.
 */
module ShaderSemantics {
  import opened Options
  import opened ShaderIr
  import opened Words

  datatype V4 = V4(x: real, y: real, z: real, w: real) {
    function At(i: Lane): real {
      if i == 0 then x else if i == 1 then y else if i == 2 then z else w
    }

    function Put(i: Lane, r: real): V4 {
      if i == 0 then V4(r, y, z, w) else if i == 1 then V4(x, r, z, w)
      else if i == 2 then V4(x, y, r, w) else V4(x, y, z, r)
    }
  }

  const ZERO := V4(0.0, 0.0, 0.0, 0.0)

  // The scalar functions both languages share and this model does not interpret; float is the
  // number that 32 bits stand for.
  datatype Math = Math(div: (real, real) -> real, rsqrt: real -> real, exp2: real -> real,
                       log2: real -> real, pow: (real, real) -> real, sin: real -> real, cos: real -> real,
                       float: u32 -> real)

  function AbsR(r: real): real { if r < 0.0 then -r else r }
  function MinR(a: real, b: real): real { if b < a then b else a }
  function MaxR(a: real, b: real): real { if a < b then b else a }
  function Fract(r: real): real { r - r.Floor as real }
  function Sign(r: real): real { if r < 0.0 then -1.0 else if r > 0.0 then 1.0 else 0.0 }
  function Saturate(r: real): real { MinR(MaxR(r, 0.0), 1.0) }

  // Conversion of a float to int: truncation toward zero.
  function Truncate(r: real): int { if r < 0.0 then -((-r).Floor) else r.Floor }

  // Where a register lives. An output register declared as POSITION 0 is the position.
  datatype Loc =
    | Temp(n: nat) | Input(n: nat) | TexCoord(n: nat) | Constant(n: nat) | IntConst(n: nat) | BoolConst(n: nat)
    | Position | Attribute(n: nat) | Out(n: nat) | Color(n: nat)

  type Regs = map<Loc, V4>

  function Get(regs: Regs, l: Loc): V4 {
    if l in regs then regs[l] else ZERO
  }

  function FindOutputDcl(dcls: seq<DclEntry>, number: nat): Option<DclEntry> {
    if dcls == [] then None
    else if dcls[0].kind == OUTPUT && dcls[0].number == number then Some(dcls[0])
    else FindOutputDcl(dcls[1..], number)
  }

  predicate IsPositionOutput(p: Program, number: nat) {
    var d := FindOutputDcl(p.dcls, number);
    p.vertex && p.major >= 3 && d.Some? && d.value.usage == USAGE_POSITION && d.value.usageIndex == 0
  }

  // The location of a register that the model covers.
  function LocOf(p: Program, r: Register): Option<Loc> {
    if r.kind == TEMP then Some(Temp(r.number))
    else if r.kind == INPUT then Some(Input(r.number))
    else if r.kind == ADDR && !p.vertex then Some(TexCoord(r.number))
    else if r.kind == CONST && !r.relative then Some(Constant(r.number))
    else if r.kind == CONSTINT then Some(IntConst(r.number))
    else if r.kind == CONSTBOOL then Some(BoolConst(r.number))
    else if r.kind == RASTOUT && r.number == 0 then Some(Position)
    else if r.kind == ATTROUT then Some(Attribute(r.number))
    else if r.kind == OUTPUT then Some(if IsPositionOutput(p, r.number) then Position else Out(r.number))
    else if r.kind == COLOROUT then Some(Color(r.number))
    else None
  }

  predicate Writable(l: Loc) {
    l.Temp? || l.Position? || l.Attribute? || l.Out? || l.Color?
  }

  // ---------------------------------------------------------------- arithmetic

  // Source modifiers, as Direct3D 9 defines them.
  function Modify(m: Math, mod: Nibble, r: real, base: V4): real {
    match mod
    case 1 => -r
    case 2 => r - 0.5
    case 3 => -(r - 0.5)
    case 4 => 2.0 * (r - 0.5)
    case 5 => -(2.0 * (r - 0.5))
    case 6 => 1.0 - r
    case 7 => 2.0 * r
    case 8 => -(2.0 * r)
    case 9 => m.div(r, base.z)
    case 10 => m.div(r, base.w)
    case 11 => AbsR(r)
    case 12 => -AbsR(r)
    case 13 => 1.0 - r
    case _ => r
  }

  // What channel c of a source operand supplies.
  function Source(m: Math, p: Program, regs: Regs, r: Register, c: Lane): real
    requires LocOf(p, r).Some?
  {
    var base := Get(regs, LocOf(p, r).value);
    Modify(m, r.srcMod, base.At(r.swizzle.At(c)), base)
  }

  predicate Covered(op: Op) {
    op.Mov? || op.Add? || op.Sub? || op.Mul? || op.Mad? || op.Dp3? || op.Dp4? || op.Rcp? || op.Rsq? || op.Min?
    || op.Max? || op.Slt? || op.Sge? || op.Exp? || op.Log? || op.Frc? || op.Abs? || op.Lrp? || op.Cmp? || op.Pow?
    || op.SinCos? || op.Dp2Add? || op.Sgn?
  }

  predicate SourcesExist(p: Program, i: Instruction) {
    |i.src| == SourceCount(i.op) && forall k :: 0 <= k < |i.src| ==> LocOf(p, i.src[k]).Some?
  }

  // Operations whose result in a channel depends on that channel of their sources.
  predicate Pointwise(op: Op) {
    Covered(op) && !op.Dp3? && !op.Dp4? && !op.Dp2Add? && !op.SinCos?
  }

  function Combine(m: Math, op: Op, x: real, y: real, z: real): real
    requires Pointwise(op)
  {
    match op
    case Mov => x
    case Add => x + y
    case Sub => x - y
    case Mul => x * y
    case Mad => x * y + z
    case Rcp => m.div(1.0, x)
    case Rsq => m.rsqrt(AbsR(x))
    case Min => MinR(x, y)
    case Max => MaxR(x, y)
    case Slt => if x < y then 1.0 else 0.0
    case Sge => if x >= y then 1.0 else 0.0
    case Exp => m.exp2(x)
    case Log => m.log2(AbsR(x))
    case Frc => Fract(x)
    case Abs => AbsR(x)
    case Lrp => x * (y - z) + z
    case Cmp => if x >= 0.0 then y else z
    case Pow => m.pow(AbsR(x), y)
    case Sgn => Sign(x)
  }

  function SourceChannel(m: Math, p: Program, regs: Regs, i: Instruction, k: nat, c: Lane): real
    requires SourcesExist(p, i)
  {
    if k < |i.src| then Source(m, p, regs, i.src[k], c) else 0.0
  }

  // The value an instruction computes for channel c.
  function Channel(m: Math, p: Program, regs: Regs, i: Instruction, c: Lane): real
    requires Covered(i.op) && SourcesExist(p, i)
  {
    var s := (k: nat, lane: Lane) => SourceChannel(m, p, regs, i, k, lane);
    if i.op.Dp3? then s(0, 0) * s(1, 0) + s(0, 1) * s(1, 1) + s(0, 2) * s(1, 2)
    else if i.op.Dp4? then s(0, 0) * s(1, 0) + s(0, 1) * s(1, 1) + s(0, 2) * s(1, 2) + s(0, 3) * s(1, 3)
    else if i.op.Dp2Add? then s(0, 0) * s(1, 0) + s(0, 1) * s(1, 1) + s(2, c)
    else if i.op.SinCos? then if c == 0 then m.cos(s(0, c)) else m.sin(s(0, c))
    else Combine(m, i.op, s(0, c), s(1, c), s(2, c))
  }

  predicate Selected(mask: Nibble, c: Lane) {
    (if c == 0 then mask else if c == 1 then mask / 2 else if c == 2 then mask / 4 else mask / 8) % 2 == 1
  }

  predicate Saturates(r: Register) {
    r.resultMod % 2 == 1
  }

  // Channels outside the write mask keep their value.
  function Masked(mask: Nibble, was: V4, x: real, y: real, z: real, w: real): V4 {
    V4(if Selected(mask, 0) then x else was.x, if Selected(mask, 1) then y else was.y,
       if Selected(mask, 2) then z else was.z, if Selected(mask, 3) then w else was.w)
  }

  predicate Executable(p: Program, i: Instruction) {
    Covered(i.op) && SourcesExist(p, i) && LocOf(p, i.dst).Some?
  }

  function Execute(m: Math, p: Program, regs: Regs, i: Instruction): Regs
    requires Executable(p, i)
  {
    var out := (c: Lane) => var r := Channel(m, p, regs, i, c); if Saturates(i.dst) then Saturate(r) else r;
    var l := LocOf(p, i.dst).value;
    regs[l := Masked(i.dst.writeMask, Get(regs, l), out(0), out(1), out(2), out(3))]
  }

  function Compare(cmp: nat, a: real, b: real): bool {
    match cmp
    case 1 => a > b
    case 2 => a == b
    case 3 => a >= b
    case 4 => a < b
    case 6 => a <= b
    case _ => a != b
  }

  // ---------------------------------------------------------------- the flat machine

  datatype Loop = Loop(start: nat, remaining: int)
  datatype Machine = Machine(pc: nat, regs: Regs, loops: seq<Loop>)

  // The index after the ENDIF or ENDREP that closes the block at pc, or after its ELSE.
  function Skip(code: seq<Instruction>, pc: nat, depth: nat, stopAtElse: bool): nat
    decreases |code| - pc
  {
    if pc >= |code| then pc
    else if code[pc].op.If? || code[pc].op.Ifc? || code[pc].op.Rep? then Skip(code, pc + 1, depth + 1, stopAtElse)
    else if code[pc].op.EndIf? || code[pc].op.EndRep? then
      if depth == 0 then pc + 1 else Skip(code, pc + 1, depth - 1, stopAtElse)
    else if code[pc].op.Else? && depth == 0 && stopAtElse then pc + 1
    else Skip(code, pc + 1, depth, stopAtElse)
  }

  // The index after the ENDREP of the loop around pc.
  function SkipLoop(code: seq<Instruction>, pc: nat, depth: nat): nat
    decreases |code| - pc
  {
    if pc >= |code| then pc
    else if code[pc].op.Rep? then SkipLoop(code, pc + 1, depth + 1)
    else if code[pc].op.EndRep? then if depth == 0 then pc + 1 else SkipLoop(code, pc + 1, depth - 1)
    else SkipLoop(code, pc + 1, depth)
  }

  function Scalar(m: Math, p: Program, regs: Regs, i: Instruction, k: nat): real {
    if k < |i.src| && LocOf(p, i.src[k]).Some? then Source(m, p, regs, i.src[k], 0) else 0.0
  }

  predicate Condition(m: Math, p: Program, regs: Regs, i: Instruction) {
    if i.op.If? then Scalar(m, p, regs, i, 0) != 0.0
    else Compare(i.comparison, Scalar(m, p, regs, i, 0), Scalar(m, p, regs, i, 1))
  }

  function StepMachine(m: Math, p: Program, code: seq<Instruction>, s: Machine): Machine
    requires s.pc < |code|
  {
    var i := code[s.pc];
    var next := s.(pc := s.pc + 1);
    match i.op
    case If | Ifc => if Condition(m, p, s.regs, i) then next else s.(pc := Skip(code, s.pc + 1, 0, true))
    case Else => s.(pc := Skip(code, s.pc + 1, 0, false))
    case Rep =>
      var n := Truncate(Scalar(m, p, s.regs, i, 0));
      if n <= 0 then s.(pc := Skip(code, s.pc + 1, 0, false))
      else next.(loops := s.loops + [Loop(s.pc + 1, n)])
    case EndRep =>
      if s.loops == [] then next
      else
        var l := s.loops[|s.loops| - 1];
        var outer := s.loops[..|s.loops| - 1];
        if l.remaining <= 1 then next.(loops := outer)
        else s.(pc := l.start, loops := outer + [Loop(l.start, l.remaining - 1)])
    case Break => Leave(code, s)
    case BreakC => if Condition(m, p, s.regs, i) then Leave(code, s) else next
    case _ => if Executable(p, i) then next.(regs := Execute(m, p, s.regs, i)) else next
  }

  // Out of the innermost loop.
  function Leave(code: seq<Instruction>, s: Machine): Machine
    requires s.pc < |code|
  {
    Machine(SkipLoop(code, s.pc + 1, 0), s.regs, if s.loops == [] then [] else s.loops[..|s.loops| - 1])
  }

  // n steps, fewer if the end of the code is reached.
  function Run(m: Math, p: Program, code: seq<Instruction>, s: Machine, n: nat): Machine
    decreases n
  {
    if n == 0 || s.pc >= |code| then s else Run(m, p, code, StepMachine(m, p, code, s), n - 1)
  }

  lemma {:induction false} RunSteps(m: Math, p: Program, code: seq<Instruction>, s: Machine, a: nat, b: nat)
    ensures Run(m, p, code, s, a + b) == Run(m, p, code, Run(m, p, code, s, a), b)
    decreases a
  {
    if a > 0 && s.pc < |code| {
      RunSteps(m, p, code, StepMachine(m, p, code, s), a - 1, b);
    }
  }
}
