/**
  The bytecode format as a relation between dwords and items, an encoder that keeps to it, and
  what the parser makes of bytecode: it accepts exactly what is written in the format.
 */
module ShaderFormat {
  import opened Options
  import opened Words
  import opened ShaderIr
  import opened ShaderTokens
  import opened ShaderParser

  datatype Item =
    | Comment(words: seq<u32>)
    | Declaration(dcl: DclEntry)
    | Definition(def: DefEntry)
    | Instr(instruction: Instruction)

  predicate ValidInstruction(i: Instruction) {
    && |i.src| == SourceCount(i.op)
    && (forall k :: 0 <= k < |i.src| ==> ValidSrc(i.src[k]))
    && (if HasDst(i.op) then ValidDst(i.dst) else i.dst == NO_REGISTER)
    && (if i.op.Ifc? || i.op.BreakC? then i.comparison < 8 else i.comparison == 0)
    // Flow-control operands have no relative-address token.
    && (IsFlow(i.op) ==> forall k :: 0 <= k < |i.src| ==> i.src[k].relativeComponent == 0)
  }

  predicate ValidDef(e: DefEntry) {
    (e.kind == CONST && |e.values| == 4) || (e.kind == CONSTINT && |e.values| == 4) || (e.kind == CONSTBOOL && |e.values| == 1)
  }

  predicate ValidItem(item: Item) {
    match item
    case Comment(words) => |words| < 0x8000
    case Declaration(d) => ValidDcl(d)
    case Definition(e) => ValidDef(e)
    case Instr(i) => ValidInstruction(i)
  }

  predicate AllValid(items: seq<Item>) {
    forall k :: 0 <= k < |items| ==> ValidItem(items[k])
  }

  // ---------------------------------------------------------------- the format

  function OperandLength(r: Register): nat {
    if r.relative then 2 else 1
  }

  function SourcesLength(src: seq<Register>): nat {
    if src == [] then 0 else OperandLength(src[0]) + SourcesLength(src[1..])
  }

  function OperandsLength(i: Instruction): nat {
    if IsFlow(i.op) then |i.src| else (if HasDst(i.op) then OperandLength(i.dst) else 0) + SourcesLength(i.src)
  }

  function Length(item: Item): (n: nat)
    ensures n > 0
  {
    match item
    case Comment(words) => 1 + |words|
    case Declaration(_) => 3
    case Definition(e) => 2 + |e.values|
    case Instr(i) => 1 + OperandsLength(i)
  }

  function TotalLength(items: seq<Item>): nat {
    if items == [] then 0 else Length(items[0]) + TotalLength(items[1..])
  }

  // An operand token, and the lane in bits 16 and 17 of the token after a relative one.
  predicate OperandWritten(b: seq<u32>, pos: nat, r: Register, isDst: bool) {
    && pos + OperandLength(r) <= |b|
    && (if isDst then DstFields(b[pos], r) else SrcFields(b[pos], r))
    && (r.relative ==> RelativeLane(b[pos + 1]) == r.relativeComponent)
  }

  predicate SourcesWritten(b: seq<u32>, pos: nat, src: seq<Register>)
    decreases |src|
  {
    if src == [] then pos <= |b|
    else OperandWritten(b, pos, src[0], false) && SourcesWritten(b, pos + OperandLength(src[0]), src[1..])
  }

  // Flow-control operands are single tokens, relative or not.
  predicate FlowSourcesWritten(b: seq<u32>, pos: nat, src: seq<Register>) {
    pos + |src| <= |b| && forall k :: 0 <= k < |src| ==> SrcFields(b[pos + k], src[k])
  }

  predicate OperandsWritten(b: seq<u32>, pos: nat, i: Instruction) {
    if IsFlow(i.op) then FlowSourcesWritten(b, pos, i.src)
    else if HasDst(i.op) then
      OperandWritten(b, pos, i.dst, true) && SourcesWritten(b, pos + OperandLength(i.dst), i.src)
    else SourcesWritten(b, pos, i.src)
  }

  predicate HasComparison(op: Op) {
    op.Ifc? || op.BreakC?
  }

  function DefOpcode(kind: RegKind): u32 {
    if kind == CONST then OP_DEF else if kind == CONSTINT then OP_DEFI else OP_DEFB
  }

  // An item stands at a position: opcodes are in bits 0 to 15, a comment's length in bits 16 to
  // 30, a comparison in bits 18 to 20. Every bit not mentioned here or for the operand tokens,
  // such as an instruction's length and the marker in bit 31, may be anything.
  predicate Written(b: seq<u32>, pos: nat, item: Item) {
    && pos + Length(item) <= |b|
    && match item
       case Comment(words) =>
         b[pos] % 0x1_0000 == OP_COMMENT && b[pos] / 0x1_0000 % 0x8000 == |words| && b[pos + 1..pos + 1 + |words|] == words
       case Declaration(d) => b[pos] % 0x1_0000 == OP_DCL && DclFields(b[pos + 1], b[pos + 2], d)
       case Definition(e) =>
         && b[pos] % 0x1_0000 == DefOpcode(e.kind) && b[pos + 1] % 0x800 == e.number
         && b[pos + 2..pos + 2 + |e.values|] == e.values
       case Instr(i) =>
         && b[pos] % 0x1_0000 == Code(i.op) && (HasComparison(i.op) ==> b[pos] / 0x4_0000 % 8 == i.comparison)
         && OperandsWritten(b, pos + 1, i)
  }

  predicate AllWritten(b: seq<u32>, pos: nat, items: seq<Item>)
    decreases |items|
  {
    items == [] || (Written(b, pos, items[0]) && AllWritten(b, pos + Length(items[0]), items[1..]))
  }

  predicate EndsAt(b: seq<u32>, pos: nat) {
    pos < |b| && b[pos] % 0x1_0000 == OP_END
  }

  // The dwords are a version, the items, an END dword, and anything after it.
  predicate Bytecode(b: seq<u32>, items: seq<Item>) {
    && |b| >= 2 && Start(b[0]).Some? && AllValid(items)
    && AllWritten(b, 1, items) && EndsAt(b, 1 + TotalLength(items))
  }

  // ---------------------------------------------------------------- what an item means

  function Absorb(p: Program, item: Item): Option<Program> {
    match item
    case Comment(_) => Some(p)
    case Declaration(d) => AddDcl(p, d)
    case Definition(e) => AddDef(p, e)
    case Instr(i) =>
      var u := if HasDst(i.op) then Track(p.usage, i.dst, true) else Some(p.usage);
      var v := if IsFlow(i.op) || u.None? then u else TrackAll(u.value, i.src);
      if v.None? then None else AddInstruction(p, i, v.value)
  }

  function AbsorbAll(p: Program, items: seq<Item>): Option<Program>
    decreases |items|
  {
    if items == [] then Some(p)
    else match Absorb(p, items[0])
      case None => None
      case Some(q) => AbsorbAll(q, items[1..])
  }

  // ---------------------------------------------------------------- the parser reads what is written

  lemma {:induction false} OperandReads(b: seq<u32>, pos: nat, r: Register, isDst: bool, u: Usage)
    requires (if isDst then ValidDst(r) else ValidSrc(r)) && OperandWritten(b, pos, r, isDst)
    ensures ReadOperand(b, pos, u, isDst)
         == match Track(u, r, isDst) case None => BadOperand case Some(v) => Operands(pos + OperandLength(r), [r], v)
  {
    if isDst { DstRoundTrip(b[pos], r); } else { SrcRoundTrip(b[pos], r); SourceBit(b[pos]); }
    hide DstFields, SrcFields, DecodeDst, DecodeSrc, RelativeBit, Track, RelativeLane;
  }

  lemma {:induction false} SourceBit(t: u32)
    ensures DecodeSrc(t).relative == RelativeBit(t) && DecodeSrc(t).relativeComponent == 0
  {
  }

  lemma {:induction false} SourcesRead(b: seq<u32>, pos: nat, src: seq<Register>, u: Usage)
    requires (forall k :: 0 <= k < |src| ==> ValidSrc(src[k])) && SourcesWritten(b, pos, src)
    ensures ReadSources(b, pos, |src|, u)
         == match TrackAll(u, src) case None => BadOperand case Some(v) => Operands(pos + SourcesLength(src), src, v)
    decreases |src|
  {
    hide OperandWritten, ReadOperand, Track;
    if src != [] {
      OperandReads(b, pos, src[0], false, u);
      match Track(u, src[0], false)
      case None =>
      case Some(v) =>
        SourcesRead(b, pos + OperandLength(src[0]), src[1..], v);
        assert [src[0]] + src[1..] == src;
    }
  }

  lemma {:induction false} OpReadsBack(op: Op)
    ensures DecodeOp(Code(op)) == Some(op)
    ensures Code(op) !in {OP_END, OP_COMMENT, OP_DCL, OP_DEF, OP_DEFI, OP_DEFB}
  {
    hide DecodeOp;
    CodeIsRegular(op);
    if Code(op) < 20 { LowCode(op); } else if Code(op) < 40 { MiddleCode(op); } else { HighCode(op); }
  }

  lemma {:induction false} LowCode(op: Op)
    requires Code(op) < 20
    ensures DecodeOp(Code(op)) == Some(op)
  {
  }

  lemma {:induction false} MiddleCode(op: Op)
    requires 20 <= Code(op) < 40
    ensures DecodeOp(Code(op)) == Some(op)
  {
  }

  lemma {:induction false} HighCode(op: Op)
    requires 40 <= Code(op)
    ensures DecodeOp(Code(op)) == Some(op)
  {
  }

  lemma {:induction false} CodeIsRegular(op: Op)
    ensures Code(op) !in {OP_END, OP_COMMENT, OP_DCL, OP_DEF, OP_DEFI, OP_DEFB}
  {
    hide DecodeOp;
    assert Code(op) <= 90;
    assert Code(op) != OP_DCL && Code(op) != OP_DEF && Code(op) != OP_DEFI && Code(op) != OP_DEFB;
  }

  // What one step of the cursor does with an item.
  ghost predicate StepsOver(b: seq<u32>, pos: nat, p: Program, item: Item)
    requires pos < |b|
  {
    StepAt(b, pos, p) == match Absorb(p, item) case None => Reject case Some(q) => Continue(pos + Length(item), q)
  }

  lemma {:induction false} InstructionStep(b: seq<u32>, pos: nat, p: Program, i: Instruction)
    requires ValidInstruction(i) && Written(b, pos, Instr(i))
    ensures StepsOver(b, pos, p, Instr(i))
  {
    OpReadsBack(i.op);
    hide DecodeOp, Code, StepFlow, StepRegular, AddInstruction, Track, TrackAll, SourcesWritten, OperandWritten;
    if IsFlow(i.op) {
      FlowStep(b, pos, p, i);
    } else {
      RegularStep(b, pos, p, i);
    }
  }

  lemma {:induction false} FlowStep(b: seq<u32>, pos: nat, p: Program, i: Instruction)
    requires ValidInstruction(i) && IsFlow(i.op) && pos < |b| && FlowSourcesWritten(b, pos + 1, i.src)
    requires HasComparison(i.op) ==> b[pos] / 0x4_0000 % 8 == i.comparison
    ensures StepFlow(b, pos, p, i.op) == Stepped(pos + 1 + |i.src|, AddInstruction(p, i, p.usage))
  {
    var src := DecodeSources(b, pos + 1, |i.src|);
    forall k | 0 <= k < |i.src| ensures src[k] == i.src[k] {
      SrcRoundTrip(b[pos + 1 + k], i.src[k]);
      hide SrcFields, DecodeSrc;
      assert SrcFields(b[pos + 1 + k], i.src[k]);
    }
    hide DecodeSrc, AddInstruction;
    assert src == i.src;
  }

  lemma {:induction false} RegularStep(b: seq<u32>, pos: nat, p: Program, i: Instruction)
    requires ValidInstruction(i) && !IsFlow(i.op) && OperandsWritten(b, pos + 1, i)
    ensures StepRegular(b, pos, p, i.op)
         == match Absorb(p, Instr(i)) case None => Reject case Some(q) => Continue(pos + Length(Instr(i)), q)
  {
    hide OperandWritten, ReadOperand, ReadSources, SourcesLength, SourcesWritten, Track, TrackAll;
    var at := pos + 1 + if HasDst(i.op) then OperandLength(i.dst) else 0;
    SourcesFit(b, at, i.src);
    if HasDst(i.op) {
      OperandReads(b, pos + 1, i.dst, true, p.usage);
      match Track(p.usage, i.dst, true)
      case None =>
      case Some(u) => SourcesRead(b, at, i.src, u);
    } else {
      SourcesRead(b, at, i.src, p.usage);
    }
  }

  lemma {:induction false} SourcesFit(b: seq<u32>, pos: nat, src: seq<Register>)
    requires SourcesWritten(b, pos, src)
    ensures |src| <= SourcesLength(src) && pos + SourcesLength(src) <= |b|
    decreases |src|
  {
    if src != [] { SourcesFit(b, pos + OperandLength(src[0]), src[1..]); }
  }

  lemma {:induction false} ItemStep(b: seq<u32>, pos: nat, p: Program, item: Item)
    requires ValidItem(item) && Written(b, pos, item)
    ensures StepsOver(b, pos, p, item)
  {
    hide DecodeOp, StepFlow, StepRegular, AddDcl, AddDef, DecodeDcl, DclFields, Code, OperandsWritten;
    match item
    case Comment(words) =>
    case Declaration(d) => DclRoundTrip(b[pos + 1], b[pos + 2], d);
    case Definition(e) =>
    case Instr(i) => hide StepsOver; InstructionStep(b, pos, p, i);
  }

  lemma {:induction false} ItemsRead(b: seq<u32>, pos: nat, p: Program, items: seq<Item>)
    requires AllValid(items) && AllWritten(b, pos, items) && EndsAt(b, pos + TotalLength(items))
    ensures ParseFrom(b, pos, p)
         == match AbsorbAll(p, items) case None => Rejected case Some(q) => Parsed(Finish(q))
    decreases |items|
  {
    hide Written, Absorb, StepAt, Length;
    if items == [] {
      EndStops(b, pos, p);
    } else {
      assert ValidItem(items[0]);
      LengthFits(b, pos, items[0]);
      ItemStep(b, pos, p, items[0]);
      match Absorb(p, items[0])
      case None =>
      case Some(q) => ItemsRead(b, pos + Length(items[0]), q, items[1..]);
    }
  }

  lemma {:induction false} LengthFits(b: seq<u32>, pos: nat, item: Item)
    requires Written(b, pos, item)
    ensures pos < pos + Length(item) <= |b|
  {
  }

  /** Parsing dwords in which items are written, whatever the bits that the format leaves open,
      gives what the items mean. In particular the parser never reads past their end. */
  lemma {:induction false} ParseWritten(b: seq<u32>, items: seq<Item>)
    requires Bytecode(b, items)
    ensures ParseSpec(b)
         == match AbsorbAll(Start(b[0]).value, items) case None => Rejected case Some(q) => Parsed(Finish(q))
  {
    hide AbsorbAll, ParseFrom, Start, AllWritten;
    ItemsRead(b, 1, Start(b[0]).value, items);
  }

  // ---------------------------------------------------------------- what parses is written

  lemma {:induction false} ReadIsWritten(b: seq<u32>, pos: nat, u: Usage, isDst: bool)
    requires ReadOperand(b, pos, u, isDst).Operands?
    ensures var o := ReadOperand(b, pos, u, isDst);
      var r := o.regs[0];
      && |o.regs| == 1 && (if isDst then ValidDst(r) else ValidSrc(r)) && OperandWritten(b, pos, r, isDst)
      && o.pos == pos + OperandLength(r) && Track(u, r, isDst) == Some(o.usage)
  {
    var r := ReadOperand(b, pos, u, isDst).regs[0];
    if isDst { DstRoundTrip(b[pos], r); } else { SrcRoundTrip(b[pos], r); SourceBit(b[pos]); }
    hide DstFields, SrcFields, RelativeBit, RelativeLane, Track;
  }

  lemma {:induction false} SourcesAreWritten(b: seq<u32>, pos: nat, n: nat, u: Usage)
    requires ReadSources(b, pos, n, u).Operands? && pos <= |b|
    ensures var o := ReadSources(b, pos, n, u);
      && |o.regs| == n && (forall k :: 0 <= k < n ==> ValidSrc(o.regs[k])) && SourcesWritten(b, pos, o.regs)
      && o.pos == pos + SourcesLength(o.regs) && TrackAll(u, o.regs) == Some(o.usage)
    decreases n
  {
    hide ReadOperand, Track, OperandWritten;
    if n > 0 {
      ReadIsWritten(b, pos, u, false);
      var first := ReadOperand(b, pos, u, false);
      OperandFits(b, pos, first.regs[0], false);
      SourcesAreWritten(b, first.pos, n - 1, first.usage);
      var rest := ReadSources(b, first.pos, n - 1, first.usage);
      var o := ReadSources(b, pos, n, u);
      assert o.regs == [first.regs[0]] + rest.regs && o.regs[1..] == rest.regs;
    }
  }

  lemma {:induction false} OperandFits(b: seq<u32>, pos: nat, r: Register, isDst: bool)
    requires OperandWritten(b, pos, r, isDst)
    ensures pos + OperandLength(r) <= |b|
  {
  }

  lemma {:induction false} RegularIsWritten(b: seq<u32>, pos: nat, p: Program, op: Op) returns (i: Instruction)
    requires pos < |b| && !IsFlow(op) && StepRegular(b, pos, p, op).Continue?
    ensures ValidInstruction(i) && i.op == op && OperandsWritten(b, pos + 1, i)
    ensures Absorb(p, Instr(i)).Some? && pos + Length(Instr(i)) <= |b|
    ensures StepRegular(b, pos, p, op) == Stepped(pos + Length(Instr(i)), Absorb(p, Instr(i)))
  {
    hide OperandWritten, ReadOperand, ReadSources, Track, TrackAll, SourcesWritten, SourcesLength;
    var dst, at, u := NO_REGISTER, pos + 1, p.usage;
    if HasDst(op) {
      ReadIsWritten(b, pos + 1, p.usage, true);
      var d := ReadOperand(b, pos + 1, p.usage, true);
      OperandFits(b, pos + 1, d.regs[0], true);
      dst, at, u := d.regs[0], d.pos, d.usage;
    }
    SourcesAreWritten(b, at, SourceCount(op), u);
    var o := ReadSources(b, at, SourceCount(op), u);
    SourcesFit(b, at, o.regs);
    i := Instruction(op, 0, dst, o.regs);
  }

  lemma {:induction false} FlowIsWritten(b: seq<u32>, pos: nat, p: Program, op: Op) returns (i: Instruction)
    requires pos < |b| && IsFlow(op) && StepFlow(b, pos, p, op).Continue?
    ensures ValidInstruction(i) && i.op == op && OperandsWritten(b, pos + 1, i)
    ensures HasComparison(op) ==> b[pos] / 0x4_0000 % 8 == i.comparison
    ensures Absorb(p, Instr(i)).Some? && pos + Length(Instr(i)) <= |b|
    ensures StepFlow(b, pos, p, op) == Stepped(pos + Length(Instr(i)), Absorb(p, Instr(i)))
  {
    hide FlowSourcesWritten, ValidInstruction, SourceCount, AddInstruction, DecodeSources, Track, TrackAll;
    var n := SourceCount(op);
    i := Instruction(op, if HasComparison(op) then b[pos] / 0x4_0000 % 8 else 0, NO_REGISTER, DecodeSources(b, pos + 1, n));
    FlowOperands(b, pos, i);
  }

  lemma {:induction false} FlowOperands(b: seq<u32>, pos: nat, i: Instruction)
    requires IsFlow(i.op) && i.dst == NO_REGISTER && pos + 1 + SourceCount(i.op) <= |b|
    requires i.src == DecodeSources(b, pos + 1, SourceCount(i.op))
    requires if HasComparison(i.op) then i.comparison < 8 else i.comparison == 0
    ensures ValidInstruction(i) && |i.src| == SourceCount(i.op) && FlowSourcesWritten(b, pos + 1, i.src)
  {
    hide SrcFields, DecodeSrc, ValidSrc, SourceCount;
    var n, src := SourceCount(i.op), i.src;
    forall k | 0 <= k < n ensures SrcFields(b[pos + 1 + k], src[k]) && ValidSrc(src[k]) && src[k].relativeComponent == 0 {
      FlowSource(b[pos + 1 + k]);
    }
  }

  lemma {:induction false} FlowSource(t: u32)
    ensures SrcFields(t, DecodeSrc(t)) && ValidSrc(DecodeSrc(t)) && DecodeSrc(t).relativeComponent == 0
  {
    SourceBit(t);
    SrcRoundTrip(t, DecodeSrc(t));
    hide SrcFields;
  }

  lemma {:induction false} OpCode(code: u32)
    requires code < 0x1_0000 && DecodeOp(code).Some?
    ensures Code(DecodeOp(code).value) == code
  {
    if code < 16 { LowOpCode(code); } else if code < 40 { MiddleOpCode(code); }
    else if code < 60 { FlowOpCode(code); } else { HighOpCode(code); }
    hide Code, DecodeOp;
  }

  lemma {:induction false} LowOpCode(code: u32)
    requires code < 16
    ensures DecodeOp(code).Some? ==> Code(DecodeOp(code).value) == code
  {
  }

  lemma {:induction false} MiddleOpCode(code: u32)
    requires 16 <= code < 40
    ensures DecodeOp(code).Some? ==> Code(DecodeOp(code).value) == code
  {
  }

  lemma {:induction false} FlowOpCode(code: u32)
    requires 40 <= code < 60
    ensures DecodeOp(code).Some? ==> Code(DecodeOp(code).value) == code
  {
  }

  lemma {:induction false} HighOpCode(code: u32)
    requires 60 <= code < 0x1_0000
    ensures DecodeOp(code).Some? ==> Code(DecodeOp(code).value) == code
  {
  }

  // A step that goes on has read an item.
  lemma {:induction false} StepIsItem(b: seq<u32>, pos: nat, p: Program) returns (item: Item)
    requires pos < |b| && StepAt(b, pos, p).Continue?
    ensures ValidItem(item) && Written(b, pos, item)
    ensures Absorb(p, item).Some? && StepAt(b, pos, p) == Stepped(pos + Length(item), Absorb(p, item))
  {
    hide DecodeOp, StepFlow, StepRegular, AddDcl, AddDef, DecodeDcl, DclFields, Code, OperandsWritten, Track, TrackAll,
      ValidInstruction;
    var code := b[pos] % 0x1_0000;
    if code == OP_COMMENT {
      item := Comment(b[pos + 1..pos + 1 + b[pos] / 0x1_0000 % 0x8000]);
    } else if code == OP_DCL {
      var d := DecodeDcl(b[pos + 1], b[pos + 2]);
      DecodedDcl(b[pos + 1], b[pos + 2]);
      DclRoundTrip(b[pos + 1], b[pos + 2], d);
      item := Declaration(d);
    } else if code == OP_DEF || code == OP_DEFI || code == OP_DEFB {
      var n := if code == OP_DEFB then 1 else 4;
      var kind := if code == OP_DEF then CONST else if code == OP_DEFI then CONSTINT else CONSTBOOL;
      item := Definition(DefEntry(kind, DecodeNumber(b[pos + 1]), b[pos + 2..pos + 2 + n]));
    } else {
      OpCode(code);
      var op := DecodeOp(code).value;
      var i: Instruction;
      if IsFlow(op) {
        i := FlowIsWritten(b, pos, p, op);
      } else {
        i := RegularIsWritten(b, pos, p, op);
        assert !HasComparison(op);
      }
      item := Instr(i);
      hide Absorb;
    }
  }

  lemma {:induction false} DecodedDcl(semantic: u32, reg: u32)
    ensures ValidDcl(DecodeDcl(semantic, reg))
  {
  }

  lemma {:induction false} ParsedItems(b: seq<u32>, pos: nat, p: Program) returns (items: seq<Item>, q: Program)
    requires ParseFrom(b, pos, p).Parsed?
    ensures AllValid(items) && AllWritten(b, pos, items) && EndsAt(b, pos + TotalLength(items))
    ensures AbsorbAll(p, items) == Some(q) && ParseFrom(b, pos, p) == Parsed(Finish(q))
    decreases |b| - pos
  {
    hide StepAt, Written, Absorb, Length, Finish;
    var s := StepAt(b, pos, p);
    if s.End? {
      EndsOnly(b, pos, p);
      items, q := [], p;
    } else {
      var item := StepIsItem(b, pos, p);
      var rest, end := ParsedItems(b, s.pos, s.program);
      items, q := [item] + rest, end;
      assert items[1..] == rest;
    }
  }

  lemma {:induction false} EndsOnly(b: seq<u32>, pos: nat, p: Program)
    requires pos < |b| && StepAt(b, pos, p).End?
    ensures EndsAt(b, pos)
  {
    hide DecodeOp, AddDef, AddInstruction, StepRegular, AddDcl, DecodeDcl;
  }

  /** The parser accepts exactly the bytecode of the format: a parse succeeds if and only if some
      items are written in the dwords and their meaning fits the program's tables, and then the
      program is that meaning. */
  lemma {:induction false} ParsesExactlyTheFormat(b: seq<u32>)
    ensures ParseSpec(b).Parsed? <==> exists items :: Bytecode(b, items) && AbsorbAll(Start(b[0]).value, items).Some?
    ensures forall items :: Bytecode(b, items) && AbsorbAll(Start(b[0]).value, items).Some? ==>
      ParseSpec(b) == Parsed(Finish(AbsorbAll(Start(b[0]).value, items).value))
  {
    hide AbsorbAll, AllWritten, ParseFrom, Start, Finish;
    if ParseSpec(b).Parsed? {
      var items, q := ParsedItems(b, 1, Start(b[0]).value);
      assert Bytecode(b, items);
    }
    forall items | Bytecode(b, items) && AbsorbAll(Start(b[0]).value, items).Some?
      ensures ParseSpec(b) == Parsed(Finish(AbsorbAll(Start(b[0]).value, items).value))
    {
      ParseWritten(b, items);
    }
  }

  // The items of bytecode that parses.
  lemma {:induction false} ItemsOf(b: seq<u32>, p: Program) returns (items: seq<Item>, q: Program)
    requires ParseSpec(b) == Parsed(p)
    ensures Bytecode(b, items) && AbsorbAll(Start(b[0]).value, items) == Some(q) && p == Finish(q)
  {
    hide AbsorbAll, AllWritten, ParseFrom, Start, Finish;
    items, q := ParsedItems(b, 1, Start(b[0]).value);
  }

  // ---------------------------------------------------------------- comments

  function NotComments(items: seq<Item>): (r: seq<Item>)
    ensures AllValid(items) ==> AllValid(r)
  {
    if items == [] then [] else (if items[0].Comment? then [] else [items[0]]) + NotComments(items[1..])
  }

  lemma {:induction false} CommentsMeanNothing(p: Program, items: seq<Item>)
    ensures AbsorbAll(p, items) == AbsorbAll(p, NotComments(items))
    decreases |items|
  {
    assert items != [] && items[0].Comment? ==> Absorb(p, items[0]) == Some(p);
    hide Absorb;
    if items != [] {
      if !items[0].Comment? {
        assert NotComments(items)[0] == items[0];
      }
      match Absorb(p, items[0])
      case None =>
      case Some(q) =>
        CommentsMeanNothing(q, items[1..]);
        if items[0].Comment? {
          assert NotComments(items) == NotComments(items[1..]);
        } else {
          assert NotComments(items) == [items[0]] + NotComments(items[1..]);
          assert NotComments(items)[1..] == NotComments(items[1..]);
        }
    }
  }

  /** Comment blocks between instructions, dwords after END and the bits that the format leaves
      open never change the result. */
  lemma {:induction false} CommentsAndTailIgnored(b: seq<u32>, items: seq<Item>, other: seq<u32>, others: seq<Item>)
    requires Bytecode(b, items) && Bytecode(other, others) && b[0] == other[0]
    requires NotComments(items) == NotComments(others)
    ensures ParseSpec(b) == ParseSpec(other)
  {
    hide AbsorbAll, AllWritten, Start, NotComments;
    ParseWritten(b, items);
    ParseWritten(other, others);
    CommentsMeanNothing(Start(b[0]).value, items);
    CommentsMeanNothing(Start(b[0]).value, others);
  }

  // ---------------------------------------------------------------- what the program holds

  function Instructions(items: seq<Item>): seq<Instruction> {
    if items == [] then []
    else (if items[0].Instr? then [items[0].instruction] else []) + Instructions(items[1..])
  }

  function Dcls(items: seq<Item>): seq<DclEntry> {
    if items == [] then []
    else (if items[0].Declaration? then [items[0].dcl] else []) + Dcls(items[1..])
  }

  function Key(e: DefEntry): (nat, nat) {
    (e.kind, e.number)
  }

  function Keys(defs: seq<DefEntry>): seq<(nat, nat)> {
    seq(|defs|, i requires 0 <= i < |defs| => Key(defs[i]))
  }

  ghost function OneWrite(m: map<(nat, nat), seq<u32>>, item: Item): map<(nat, nat), seq<u32>> {
    if item.Definition? then m[Key(item.def) := item.def.values] else m
  }

  // The value that the last definition of each register gives it.
  ghost function LastWrites(m: map<(nat, nat), seq<u32>>, items: seq<Item>): map<(nat, nat), seq<u32>>
    decreases |items|
  {
    if items == [] then m else LastWrites(OneWrite(m, items[0]), items[1..])
  }

  // The definition table as a map, when no register has two entries.
  ghost predicate TableIs(defs: seq<DefEntry>, m: map<(nat, nat), seq<u32>>) {
    && (forall i, j :: 0 <= i < j < |defs| ==> Keys(defs)[i] != Keys(defs)[j])
    && (forall i :: 0 <= i < |defs| ==> Keys(defs)[i] in m && m[Keys(defs)[i]] == defs[i].values)
    && (forall k :: k in m ==> k in Keys(defs))
  }

  lemma {:induction false} UpsertKeepsTable(defs: seq<DefEntry>, m: map<(nat, nat), seq<u32>>, e: DefEntry)
    requires TableIs(defs, m)
    ensures TableIs(Upsert(defs, e), m[Key(e) := e.values])
  {
    if i :| 0 <= i < |defs| && SameSlot(defs[i], e) {
      forall k | 0 <= k < |defs| && k != i ensures !SameSlot(defs[k], e) {
        assert Keys(defs)[i] == Key(e);
        assert Keys(defs)[k] == Key(defs[k]);
      }
      UpsertAt(defs, e, i);
      ReplaceKeepsTable(defs, m, e, i);
    } else {
      UpsertNew(defs, e);
      AppendKeepsTable(defs, m, e);
    }
  }

  lemma {:induction false} ReplaceKeepsTable(defs: seq<DefEntry>, m: map<(nat, nat), seq<u32>>, e: DefEntry, i: nat)
    requires TableIs(defs, m)
    requires i < |defs| && Key(defs[i]) == Key(e)
    ensures TableIs(defs[i := e], m[Key(e) := e.values])
  {
    hide Key;
    var after := defs[i := e];
    assert Keys(after) == Keys(defs);
    assert Keys(defs)[i] == Key(e);
  }

  lemma {:induction false} AppendKeepsTable(defs: seq<DefEntry>, m: map<(nat, nat), seq<u32>>, e: DefEntry)
    requires TableIs(defs, m)
    requires forall k :: 0 <= k < |defs| ==> !SameSlot(defs[k], e)
    ensures TableIs(defs + [e], m[Key(e) := e.values])
  {
    forall k | 0 <= k < |defs| ensures Keys(defs)[k] != Key(e) {
      assert !SameSlot(defs[k], e);
    }
    hide Key, SameSlot;
    assert Keys(defs + [e]) == Keys(defs) + [Key(e)];
  }

  lemma {:induction false} AbsorbHolds(p: Program, item: Item, m: map<(nat, nat), seq<u32>>, q: Program)
    requires Absorb(p, item) == Some(q) && TableIs(p.defs, m)
    ensures q.instructions == p.instructions + if item.Instr? then [item.instruction] else []
    ensures q.dcls == p.dcls + if item.Declaration? then [item.dcl] else []
    ensures TableIs(q.defs, OneWrite(m, item))
    ensures (q.vertex, q.major, q.minor) == (p.vertex, p.major, p.minor)
  {
    hide Track, TrackAll, TableIs, Upsert;
    if item.Definition? {
      UpsertKeepsTable(p.defs, m, item.def);
    }
  }

  lemma {:induction false} AbsorbAllHolds(p: Program, items: seq<Item>, m: map<(nat, nat), seq<u32>>, q: Program)
    requires AbsorbAll(p, items) == Some(q) && TableIs(p.defs, m)
    ensures q.instructions == p.instructions + Instructions(items)
    ensures q.dcls == p.dcls + Dcls(items)
    ensures TableIs(q.defs, LastWrites(m, items))
    ensures (q.vertex, q.major, q.minor) == (p.vertex, p.major, p.minor)
    decreases |items|
  {
    hide Absorb, TableIs;
    if items != [] {
      var p1 := Absorb(p, items[0]).value;
      AbsorbHolds(p, items[0], m, p1);
      AbsorbAllHolds(p1, items[1..], OneWrite(m, items[0]), q);
    }
  }

  /** A successful parse returns the instructions and declarations that are written in the dwords,
      in order, and a definition table with distinct keys holding each register's last value. */
  lemma {:induction false} ParseReturnsProgram(b: seq<u32>, p: Program, items: seq<Item>)
    requires ParseSpec(b) == Parsed(p) && Bytecode(b, items)
    ensures p.instructions == Instructions(items) && p.dcls == Dcls(items)
    ensures TableIs(p.defs, LastWrites(map[], items))
    ensures p.vertex == (b[0] / 0x1_0000 == 0xFFFE) && p.major == b[0] / 0x100 % 0x100 && p.minor == b[0] % 0x100
  {
    ParseWritten(b, items);
    hide AllWritten, TableIs, ParseFrom;
    var start := Start(b[0]).value;
    AbsorbAllHolds(start, items, map[], AbsorbAll(start, items).value);
  }
}
