/**
  The bytecode parser: a cursor over the dwords that fills in a program.
 */
module ShaderParser {
  import opened Options
  import opened Words
  import opened ShaderIr
  import opened ShaderTokens

  // Parsing ends with a program, with an error, or, when relative addresses use up operand
  // dwords that the operand-count check did not ask for, with a read past the end.
  datatype Outcome = Parsed(program: Program) | Rejected | ReadPastEnd

  // ---------------------------------------------------------------- one entry at a time

  function Max(a: nat, b: nat): nat {
    if a < b then b else a
  }

  function Track(u: Usage, r: Register, isDst: bool): Option<Usage> {
    if r.kind == TEMP then
      if r.number > 255 then None else Some(u.(maxTemp := Max(u.maxTemp, r.number)))
    else if r.kind == CONST then
      if r.number > 255 then None else Some(u.(maxConst := Max(u.maxConst, r.number)))
    else if r.kind == INPUT then
      if r.number >= 32 then None else Some(u.(inputs := u.inputs + {r.number}))
    else if r.kind == OUTPUT then
      if r.number >= 32 then None else Some(u.(outputs := u.outputs + {r.number}))
    else if r.kind == SAMPLER then
      if r.number >= 32 then None else Some(u.(samplers := u.samplers + {r.number}))
    else if r.kind == RASTOUT then
      if r.number > 2 then None
      else if isDst && r.number == 0 then Some(u.(writesPosition := true))
      else if isDst && r.number == 1 then Some(u.(writesFog := true))
      else Some(u)
    else if r.kind == ATTROUT then
      if r.number >= 32 then None
      else if isDst then Some(u.(attributes := u.attributes + {r.number})) else Some(u)
    else if r.kind == COLOROUT then
      if r.number >= 32 then None
      else if isDst then Some(u.(colorOutputs := r.number + 1)) else Some(u)
    else if r.kind == DEPTHOUT then
      if isDst then Some(u.(writesDepth := true)) else Some(u)
    else Some(u)
  }

  function TrackAll(u: Usage, src: seq<Register>): Option<Usage>
    decreases |src|
  {
    if src == [] then Some(u)
    else match Track(u, src[0], false)
      case None => None
      case Some(v) => TrackAll(v, src[1..])
  }

  function AddDcl(p: Program, d: DclEntry): Option<Program> {
    var u0 := if d.kind == SAMPLER then p.usage.(samplers := p.usage.samplers + {d.number}) else p.usage;
    if |p.dcls| >= MAX_DCL then None
    else if d.kind == INPUT then
      if d.number >= 32 then None
      else Some(p.(dcls := p.dcls + [d], usage := u0.(inputs := u0.inputs + {d.number})))
    else if d.kind == OUTPUT then
      if d.number >= 32 then None
      else Some(p.(dcls := p.dcls + [d],
                   usage := u0.(outputs := u0.outputs + {d.number},
                                writesPosition := u0.writesPosition || (d.usage == USAGE_POSITION && d.usageIndex == 0))))
    else Some(p.(dcls := p.dcls + [d], usage := u0))
  }

  predicate SameSlot(d: DefEntry, e: DefEntry) {
    d.kind == e.kind && d.number == e.number
  }

  // The first entry for the same register is overwritten, otherwise the table grows.
  function Upsert(defs: seq<DefEntry>, e: DefEntry): seq<DefEntry>
    decreases |defs|
  {
    if defs == [] then [e]
    else if SameSlot(defs[0], e) then [e] + defs[1..]
    else [defs[0]] + Upsert(defs[1..], e)
  }

  function AddDef(p: Program, e: DefEntry): Option<Program> {
    var defs := Upsert(p.defs, e);
    if |defs| > MAX_DEF then None else Some(p.(defs := defs))
  }

  function AddInstruction(p: Program, i: Instruction, u: Usage): Option<Program> {
    if |p.instructions| >= MAX_INSTRUCTIONS then None
    else Some(p.(instructions := p.instructions + [i], usage := u))
  }

  // ---------------------------------------------------------------- reading operands

  datatype Operands = Operands(pos: nat, regs: seq<Register>, usage: Usage) | BadOperand | PastEnd

  // One operand and, when it is relatively addressed, the token after it.
  function ReadOperand(b: seq<u32>, pos: nat, u: Usage, isDst: bool): (o: Operands)
    ensures o.Operands? ==> o.pos > pos && |o.regs| == 1
    ensures o.PastEnd? <==> pos >= |b|
  {
    if pos >= |b| then PastEnd
    else
      var r := if isDst then DecodeDst(b[pos]) else DecodeSrc(b[pos]);
      if !RelativeBit(b[pos]) then
        match Track(u, r, isDst)
        case None => BadOperand
        case Some(v) => Operands(pos + 1, [r], v)
      else if pos + 1 >= |b| then BadOperand
      else
        var r1 := r.(relative := true, relativeComponent := RelativeLane(b[pos + 1]));
        match Track(u, r1, isDst)
        case None => BadOperand
        case Some(v) => Operands(pos + 2, [r1], v)
  }

  function ReadSources(b: seq<u32>, pos: nat, n: nat, u: Usage): (o: Operands)
    ensures o.Operands? ==> o.pos >= pos && |o.regs| == n
    decreases n
  {
    if n == 0 then Operands(pos, [], u)
    else match ReadOperand(b, pos, u, false)
      case Operands(next, first, v) =>
        (match ReadSources(b, next, n - 1, v)
         case Operands(end, rest, w) => Operands(end, first + rest, w)
         case bad => bad)
      case bad => bad
  }

  // ---------------------------------------------------------------- one step of the cursor

  datatype Step = Continue(pos: nat, program: Program) | End | Reject | Overrun

  function Stepped(pos: nat, p: Option<Program>): Step {
    if p.None? then Reject else Continue(pos, p.value)
  }

  function WithSources(p: Program, op: Op, dst: Register, o: Operands): Step {
    match o
    case Operands(end, src, u) =>
      Continue(end, p.(instructions := p.instructions + [Instruction(op, 0, dst, src)], usage := u))
    case BadOperand => Reject
    case PastEnd => Overrun
  }

  function StepRegular(b: seq<u32>, pos: nat, p: Program, op: Op): (s: Step)
    ensures !s.End? && (s.Continue? ==> s.pos > pos)
  {
    var needed := (if HasDst(op) then 1 else 0) + SourceCount(op);
    if pos + 1 + needed > |b| || |p.instructions| >= MAX_INSTRUCTIONS then Reject
    else if !HasDst(op) then
      WithSources(p, op, NO_REGISTER, ReadSources(b, pos + 1, SourceCount(op), p.usage))
    else
      match ReadOperand(b, pos + 1, p.usage, true)
      case Operands(next, dst, u) => WithSources(p, op, dst[0], ReadSources(b, next, SourceCount(op), u))
      case BadOperand => Reject
      case PastEnd => Overrun
  }

  // The operands of a flow-control instruction, which have no relative-address tokens.
  function DecodeSources(b: seq<u32>, at: nat, n: nat): (src: seq<Register>)
    requires at + n <= |b|
    ensures |src| == n && forall k :: 0 <= k < n ==> src[k] == DecodeSrc(b[at + k])
  {
    seq(n, k requires 0 <= k < n => DecodeSrc(b[at + k]))
  }

  function StepFlow(b: seq<u32>, pos: nat, p: Program, op: Op): Step {
    var n := SourceCount(op);
    if pos + 1 + n > |b| then Reject
    else
      var src := DecodeSources(b, pos + 1, n);
      var comparison := if op.Ifc? || op.BreakC? then b[pos] / 0x4_0000 % 8 else 0;
      Stepped(pos + 1 + n, AddInstruction(p, Instruction(op, comparison, NO_REGISTER, src), p.usage))
  }

  function StepDef(b: seq<u32>, pos: nat, p: Program, kind: RegKind, n: nat): Step {
    if pos + 2 + n > |b| then Reject
    else Stepped(pos + 2 + n, AddDef(p, DefEntry(kind, DecodeNumber(b[pos + 1]), b[pos + 2..pos + 2 + n])))
  }

  function StepAt(b: seq<u32>, pos: nat, p: Program): (s: Step)
    requires pos < |b|
    ensures s.Continue? ==> s.pos > pos
  {
    var code := b[pos] % 0x1_0000;
    if code == OP_END then End
    else if code == OP_COMMENT then
      var length := b[pos] / 0x1_0000 % 0x8000;
      if pos + 1 + length > |b| then Reject else Continue(pos + 1 + length, p)
    else if code == OP_DCL then
      if pos + 3 > |b| then Reject else Stepped(pos + 3, AddDcl(p, DecodeDcl(b[pos + 1], b[pos + 2])))
    else if code == OP_DEF then StepDef(b, pos, p, CONST, 4)
    else if code == OP_DEFI then StepDef(b, pos, p, CONSTINT, 4)
    else if code == OP_DEFB then StepDef(b, pos, p, CONSTBOOL, 1)
    else match DecodeOp(code)
      case None => Reject
      case Some(op) =>
        if IsFlow(op) then StepFlow(b, pos, p, op) else StepRegular(b, pos, p, op)
  }

  function Finish(p: Program): Program {
    if !p.vertex && p.usage.colorOutputs == 0 then p.(usage := p.usage.(colorOutputs := 1)) else p
  }

  function ParseFrom(b: seq<u32>, pos: nat, p: Program): Outcome
    decreases |b| - pos
  {
    if pos >= |b| then Rejected
    else match StepAt(b, pos, p)
      case Continue(next, q) => ParseFrom(b, next, q)
      case End => Parsed(Finish(p))
      case Reject => Rejected
      case Overrun => ReadPastEnd
  }

  function Start(version: u32): Option<Program> {
    var stage := version / 0x1_0000;
    if stage != 0xFFFE && stage != 0xFFFF then None
    else Some(Program(stage == 0xFFFE, version / 0x100 % 0x100, version % 0x100, [], [], [], NO_USAGE))
  }

  function ParseSpec(b: seq<u32>): Outcome {
    if |b| < 2 || Start(b[0]).None? then Rejected else ParseFrom(b, 1, Start(b[0]).value)
  }

  // ---------------------------------------------------------------- the parser itself

  /** The parser as it runs: it fills in the program's fields while the cursor advances. */
  class Parser {
    var vertex: bool
    var major: byte
    var minor: byte
    var instructions: seq<Instruction>
    var dcls: seq<DclEntry>
    var defs: seq<DefEntry>
    var usage: Usage

    function Value(): Program
      reads this
    {
      Program(vertex, major, minor, instructions, dcls, defs, usage)
    }

    constructor ()
      ensures instructions == [] && dcls == [] && defs == [] && usage == NO_USAGE
    {
      vertex, major, minor := false, 0, 0;
      instructions, dcls, defs, usage := [], [], [], NO_USAGE;
    }

    method TrackUsage(r: Register, isDst: bool) returns (ok: bool)
      modifies `usage
      ensures ok == Track(old(usage), r, isDst).Some?
      ensures usage == if ok then Track(old(usage), r, isDst).value else old(usage)
    {
      ok := true;
      if r.kind == TEMP {
        if r.number > 255 { return false; }
        if r.number > usage.maxTemp { usage := usage.(maxTemp := r.number); }
      } else if r.kind == CONST {
        if r.number > 255 { return false; }
        if r.number > usage.maxConst { usage := usage.(maxConst := r.number); }
      } else if r.kind == INPUT {
        if r.number >= 32 { return false; }
        usage := usage.(inputs := usage.inputs + {r.number});
      } else if r.kind == OUTPUT {
        if r.number >= 32 { return false; }
        usage := usage.(outputs := usage.outputs + {r.number});
      } else if r.kind == SAMPLER {
        if r.number >= 32 { return false; }
        usage := usage.(samplers := usage.samplers + {r.number});
      } else if r.kind == RASTOUT {
        if r.number > 2 { return false; }
        if isDst && r.number == 0 { usage := usage.(writesPosition := true); }
        if isDst && r.number == 1 { usage := usage.(writesFog := true); }
      } else if r.kind == ATTROUT {
        if r.number >= 32 { return false; }
        if isDst { usage := usage.(attributes := usage.attributes + {r.number}); }
      } else if r.kind == COLOROUT {
        if r.number >= 32 { return false; }
        if isDst { usage := usage.(colorOutputs := r.number + 1); }
      } else if r.kind == DEPTHOUT {
        if isDst { usage := usage.(writesDepth := true); }
      }
    }

    method FindOrAllocDef(e: DefEntry) returns (ok: bool)
      requires |defs| <= MAX_DEF
      modifies `defs
      ensures ok == (|Upsert(old(defs), e)| <= MAX_DEF)
      ensures defs == if ok then Upsert(old(defs), e) else old(defs)
    {
      for i := 0 to |defs|
        invariant forall k :: 0 <= k < i ==> !SameSlot(defs[k], e)
        invariant defs == old(defs)
      {
        if SameSlot(defs[i], e) {
          UpsertAt(defs, e, i);
          defs := defs[i := e];
          return true;
        }
      }
      UpsertNew(defs, e);
      if |defs| >= MAX_DEF { return false; }
      defs := defs + [e];
      ok := true;
    }

    method Parse(b: seq<u32>) returns (r: Outcome)
      requires instructions == [] && dcls == [] && defs == [] && usage == NO_USAGE
      modifies this
      ensures r == ParseSpec(b)
    {
      hide StepAt;
      if |b| < 2 { return Rejected; }
      minor := b[0] % 0x100;
      major := b[0] / 0x100 % 0x100;
      if b[0] / 0x1_0000 == 0xFFFE {
        vertex := true;
      } else if b[0] / 0x1_0000 == 0xFFFF {
        vertex := false;
      } else {
        return Rejected;
      }
      var pos := 1;
      var sawEnd := false;
      assert Start(b[0]) == Some(Value());
      while pos < |b|
        invariant |defs| <= MAX_DEF
        invariant ParseFrom(b, pos, Value()) == ParseSpec(b)
        decreases |b| - pos
      {
        if b[pos] % 0x1_0000 == OP_END {
          EndStops(b, pos, Value());
          sawEnd := true;
          break;
        }
        var step := ParseEntry(b, pos);
        match step
        case Continue(next, _) => pos := next;
        case Overrun => return ReadPastEnd;
        case _ => return Rejected;
      }
      if !vertex && usage.colorOutputs == 0 {
        usage := usage.(colorOutputs := 1);
      }
      r := if sawEnd then Parsed(Value()) else Rejected;
    }

    method Declare(d: DclEntry) returns (ok: bool)
      modifies `dcls, `usage
      ensures ok == AddDcl(old(Value()), d).Some?
      ensures ok ==> Value() == AddDcl(old(Value()), d).value
    {
      if |dcls| >= MAX_DCL { return false; }
      dcls := dcls + [d];
      if d.kind == SAMPLER { usage := usage.(samplers := usage.samplers + {d.number}); }
      if d.kind == INPUT {
        if d.number >= 32 { return false; }
        usage := usage.(inputs := usage.inputs + {d.number});
      }
      if d.kind == OUTPUT {
        if d.number >= 32 { return false; }
        usage := usage.(outputs := usage.outputs + {d.number});
        if d.usage == USAGE_POSITION && d.usageIndex == 0 { usage := usage.(writesPosition := true); }
      }
      ok := true;
    }

    // One pass of the loop for an entry that is not END.
    method ParseEntry(b: seq<u32>, pos: nat) returns (s: Step)
      requires pos < |b| && b[pos] % 0x1_0000 != OP_END
      requires |defs| <= MAX_DEF
      modifies this
      ensures s == StepAt(b, pos, old(Value())) && !s.End?
      ensures s.Continue? ==> s.program == Value() && |defs| <= MAX_DEF
    {
      hide DecodeDcl, AddDcl, DecodeOp, StepRegular, Upsert, DecodeNumber, IsFlow, SourceCount;
      var code := b[pos] % 0x1_0000;
      if code == OP_COMMENT {
        var length := b[pos] / 0x1_0000 % 0x8000;
        return if pos + 1 + length > |b| then Reject else Continue(pos + 1 + length, Value());
      }
      if code == OP_DCL {
        if pos + 3 > |b| { return Reject; }
        var ok := Declare(DecodeDcl(b[pos + 1], b[pos + 2]));
        return if ok then Continue(pos + 3, Value()) else Reject;
      }
      if code == OP_DEF || code == OP_DEFI || code == OP_DEFB {
        var n := if code == OP_DEFB then 1 else 4;
        var kind := if code == OP_DEF then CONST else if code == OP_DEFI then CONSTINT else CONSTBOOL;
        if pos + 2 + n > |b| { return Reject; }
        var ok := FindOrAllocDef(DefEntry(kind, DecodeNumber(b[pos + 1]), b[pos + 2..pos + 2 + n]));
        return if ok then Continue(pos + 2 + n, Value()) else Reject;
      }
      var op := DecodeOp(code);
      if op.None? { return Reject; }
      if IsFlow(op.value) {
        var n := SourceCount(op.value);
        if pos + 1 + n > |b| || |instructions| >= MAX_INSTRUCTIONS { return Reject; }
        var comparison := if op.value.Ifc? || op.value.BreakC? then b[pos] / 0x4_0000 % 8 else 0;
        var src := DecodeSources(b, pos + 1, n);
        instructions := instructions + [Instruction(op.value, comparison, NO_REGISTER, src)];
        return Continue(pos + 1 + n, Value());
      }
      s := ParseRegular(b, pos, op.value);
    }

    // One operand token, the relative-address token after it, and its usage tracking.
    method ParseOperand(b: seq<u32>, pos: nat, isDst: bool) returns (o: Operands)
      modifies `usage
      ensures o == ReadOperand(b, pos, old(usage), isDst)
      ensures o.Operands? ==> usage == o.usage && |o.regs| == 1
    {
      if pos >= |b| { return PastEnd; }
      var operand := if isDst then DecodeDst(b[pos]) else DecodeSrc(b[pos]);
      var cursor := pos + 1;
      if RelativeBit(b[pos]) {
        if cursor >= |b| { return BadOperand; }
        operand := operand.(relative := true, relativeComponent := RelativeLane(b[cursor]));
        cursor := cursor + 1;
      }
      var ok := TrackUsage(operand, isDst);
      o := if ok then Operands(cursor, [operand], usage) else BadOperand;
    }

    // The source operands of an instruction.
    method ParseSources(b: seq<u32>, pos: nat, n: nat) returns (o: Operands)
      modifies `usage
      ensures o == ReadSources(b, pos, n, old(usage))
      ensures o.Operands? ==> usage == o.usage
    {
      var cursor: nat := pos;
      var src := [];
      for i := 0 to n
        invariant ReadSources(b, pos, n, old(usage)) == Resume(src, ReadSources(b, cursor, n - i, usage))
      {
        o := ParseOperand(b, cursor, false);
        match o
        case PastEnd => return;
        case BadOperand => return;
        case Operands(next, operand, _) =>
          ResumeAgain(src, operand, ReadSources(b, next, n - i - 1, usage));
          cursor, src := next, src + operand;
      }
      o := Operands(cursor, src, usage);
    }

    // The sources of an instruction, and the instruction itself.
    method ParseRest(b: seq<u32>, pos: nat, op: Op, dst: Register) returns (s: Step)
      modifies `instructions, `usage
      ensures s == WithSources(old(Value()), op, dst, ReadSources(b, pos, SourceCount(op), old(usage)))
      ensures s.Continue? ==> s.program == Value()
    {
      hide ReadSources, SourceCount;
      var o := ParseSources(b, pos, SourceCount(op));
      match o
      case PastEnd => return Overrun;
      case BadOperand => return Reject;
      case Operands(end, src, _) =>
        instructions := instructions + [Instruction(op, 0, dst, src)];
        s := Continue(end, Value());
    }

    // An arithmetic or texture instruction.
    method ParseRegular(b: seq<u32>, pos: nat, op: Op) returns (s: Step)
      requires pos < |b|
      modifies `instructions, `usage
      ensures s == StepRegular(b, pos, old(Value()), op)
      ensures s.Continue? ==> s.program == Value()
    {
      hide ReadOperand, ReadSources, SourceCount, WithSources;
      var needed := (if HasDst(op) then 1 else 0) + SourceCount(op);
      if pos + 1 + needed > |b| || |instructions| >= MAX_INSTRUCTIONS { return Reject; }
      if !HasDst(op) {
        s := ParseRest(b, pos + 1, op, NO_REGISTER);
        return;
      }
      var d := ParseOperand(b, pos + 1, true);
      if !d.Operands? { return Reject; }
      SourcesReplaceUsage(old(Value()), op, d.regs[0], ReadSources(b, d.pos, SourceCount(op), d.usage), usage);
      s := ParseRest(b, d.pos, op, d.regs[0]);
    }
  }

  lemma {:induction false} SourcesReplaceUsage(p: Program, op: Op, dst: Register, o: Operands, u: Usage)
    ensures WithSources(p.(usage := u), op, dst, o) == WithSources(p, op, dst, o)
  {
  }

  lemma {:induction false} EndStops(b: seq<u32>, pos: nat, p: Program)
    requires pos < |b| && b[pos] % 0x1_0000 == OP_END
    ensures StepAt(b, pos, p) == End
  {
    hide DecodeOp, StepFlow, StepRegular, StepDef, AddDcl, DecodeDcl;
  }

  // Operands already read, followed by the outcome of reading the others.
  ghost function Resume(done: seq<Register>, rest: Operands): Operands {
    match rest
    case Operands(pos, regs, u) => Operands(pos, done + regs, u)
    case bad => bad
  }

  lemma {:induction false} ResumeAgain(done: seq<Register>, next: seq<Register>, rest: Operands)
    ensures Resume(done, Resume(next, rest)) == Resume(done + next, rest)
  {
    if rest.Operands? {
      assert done + (next + rest.regs) == (done + next) + rest.regs;
    }
  }

  lemma {:induction false} UpsertAt(defs: seq<DefEntry>, e: DefEntry, i: nat)
    requires i < |defs| && SameSlot(defs[i], e)
    requires forall k :: 0 <= k < i ==> !SameSlot(defs[k], e)
    ensures Upsert(defs, e) == defs[i := e]
    decreases i
  {
    if i > 0 {
      UpsertAt(defs[1..], e, i - 1);
      assert defs[i := e] == [defs[0]] + defs[1..][i - 1 := e];
    }
  }

  lemma {:induction false} UpsertNew(defs: seq<DefEntry>, e: DefEntry)
    requires forall k :: 0 <= k < |defs| ==> !SameSlot(defs[k], e)
    ensures Upsert(defs, e) == defs + [e]
    decreases |defs|
  {
    if defs != [] {
      UpsertNew(defs[1..], e);
      assert defs + [e] == [defs[0]] + (defs[1..] + [e]);
    }
  }
}
