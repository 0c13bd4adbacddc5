/**
  The shader program that the bytecode parser builds and the Metal emitter reads.
 */
module ShaderIr {
  import opened Options
  import opened Words

  type Lane = x: int | 0 <= x < 4
  type Nibble = x: int | 0 <= x < 16
  type RegKind = x: int | 0 <= x < 32
  type RegNumber = x: int | 0 <= x < 0x800

  const TEMP: RegKind := 0
  const INPUT: RegKind := 1
  const CONST: RegKind := 2
  const ADDR: RegKind := 3
  const RASTOUT: RegKind := 4
  const ATTROUT: RegKind := 5
  const OUTPUT: RegKind := 6
  const CONSTINT: RegKind := 7
  const COLOROUT: RegKind := 8
  const DEPTHOUT: RegKind := 9
  const SAMPLER: RegKind := 10
  const CONSTBOOL: RegKind := 14

  const USAGE_POSITION := 0

  datatype Swizzle = Swizzle(x: Lane, y: Lane, z: Lane, w: Lane) {
    function At(i: Lane): Lane {
      if i == 0 then x else if i == 1 then y else if i == 2 then z else w
    }
  }

  const IDENTITY := Swizzle(0, 1, 2, 3)

  datatype Register = Register(
    kind: RegKind, number: RegNumber, swizzle: Swizzle, writeMask: Nibble,
    srcMod: Nibble, resultMod: Nibble, relative: bool, relativeComponent: Lane)

  // What memset leaves in an operand that an instruction does not have.
  const NO_REGISTER := Register(0, 0, Swizzle(0, 0, 0, 0), 0, 0, 0, false, 0)

  datatype Op =
    | Nop | Mov | Add | Sub | Mad | Mul | Rcp | Rsq | Dp3 | Dp4 | Min | Max | Slt | Sge
    | Exp | Log | Lit | Dst | Lrp | Frc | M4x4 | M4x3 | M3x4 | M3x3 | M3x2 | Pow | Crs
    | Sgn | Abs | Nrm | SinCos | Mova | TexKill | TexLd | TexLdl | Cmp | Dp2Add
    | Rep | EndRep | If | Ifc | Else | EndIf | Break | BreakC

  datatype Instruction = Instruction(op: Op, comparison: nat, dst: Register, src: seq<Register>)

  datatype DclEntry = DclEntry(usage: nat, usageIndex: Nibble, kind: RegKind, writeMask: Nibble,
                               number: RegNumber, samplerType: Nibble)

  // The immediate dwords of a definition: four for def and defi, one for defb.
  datatype DefEntry = DefEntry(kind: RegKind, number: RegNumber, values: seq<u32>)

  // The register-usage summary; a bit mask over register numbers is the set of its bits.
  datatype Usage = Usage(
    maxTemp: nat, maxConst: nat, samplers: set<nat>, inputs: set<nat>, outputs: set<nat>,
    attributes: set<nat>, writesPosition: bool, writesFog: bool, writesDepth: bool,
    colorOutputs: nat)

  const NO_USAGE := Usage(0, 0, {}, {}, {}, {}, false, false, false, 0)

  datatype Program = Program(
    vertex: bool, major: byte, minor: byte,
    instructions: seq<Instruction>, dcls: seq<DclEntry>, defs: seq<DefEntry>, usage: Usage)

  const MAX_INSTRUCTIONS := 512
  const MAX_DCL := 48
  const MAX_DEF := 64

  function Code(op: Op): u16 {
    match op
    case Nop => 0 case Mov => 1 case Add => 2 case Sub => 3 case Mad => 4 case Mul => 5
    case Rcp => 6 case Rsq => 7 case Dp3 => 8 case Dp4 => 9 case Min => 10 case Max => 11
    case Slt => 12 case Sge => 13 case Exp => 14 case Log => 15 case Lit => 16 case Dst => 17
    case Lrp => 18 case Frc => 19 case M4x4 => 20 case M4x3 => 21 case M3x4 => 22
    case M3x3 => 23 case M3x2 => 24 case Pow => 32 case Crs => 33 case Sgn => 34
    case Abs => 35 case Nrm => 36 case SinCos => 37 case Rep => 38 case EndRep => 39
    case If => 40 case Ifc => 41 case Else => 42 case EndIf => 43 case Break => 44
    case BreakC => 45 case Mova => 46 case TexKill => 65 case TexLd => 66 case TexLdl => 67
    case Cmp => 88 case Dp2Add => 90
  }

  function DecodeOp(code: u16): Option<Op> {
    match code
    case 0 => Some(Nop) case 1 => Some(Mov) case 2 => Some(Add) case 3 => Some(Sub)
    case 4 => Some(Mad) case 5 => Some(Mul) case 6 => Some(Rcp) case 7 => Some(Rsq)
    case 8 => Some(Dp3) case 9 => Some(Dp4) case 10 => Some(Min) case 11 => Some(Max)
    case 12 => Some(Slt) case 13 => Some(Sge) case 14 => Some(Exp) case 15 => Some(Log)
    case 16 => Some(Lit) case 17 => Some(Dst) case 18 => Some(Lrp) case 19 => Some(Frc)
    case 20 => Some(M4x4) case 21 => Some(M4x3) case 22 => Some(M3x4) case 23 => Some(M3x3)
    case 24 => Some(M3x2) case 32 => Some(Pow) case 33 => Some(Crs) case 34 => Some(Sgn)
    case 35 => Some(Abs) case 36 => Some(Nrm) case 37 => Some(SinCos) case 38 => Some(Rep)
    case 39 => Some(EndRep) case 40 => Some(If) case 41 => Some(Ifc) case 42 => Some(Else)
    case 43 => Some(EndIf) case 44 => Some(Break) case 45 => Some(BreakC) case 46 => Some(Mova)
    case 65 => Some(TexKill) case 66 => Some(TexLd) case 67 => Some(TexLdl)
    case 88 => Some(Cmp) case 90 => Some(Dp2Add)
    case _ => None
  }

  predicate IsFlow(op: Op) {
    op.Rep? || op.EndRep? || op.If? || op.Ifc? || op.Else? || op.EndIf? || op.Break? || op.BreakC?
  }

  function SourceCount(op: Op): nat {
    match op
    case Nop | TexKill | EndRep | Else | EndIf | Break => 0
    case Mov | Rcp | Rsq | Exp | Log | Lit | Frc | Abs | Nrm | SinCos | Mova | Rep | If => 1
    case Mad | Lrp | Sgn | Cmp | Dp2Add => 3
    case _ => 2
  }

  predicate HasDst(op: Op) {
    !op.Nop? && !IsFlow(op)
  }
}
