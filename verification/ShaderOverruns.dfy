/**
  When the parser reads past the end of its dwords: the operand count it checks does not include
  the tokens of relative addresses.
 */
module ShaderOverruns {
  import opened Options
  import opened Words
  import opened ShaderIr
  import opened ShaderTokens
  import opened ShaderParser
  import opened ShaderFormat
  import ShaderEncoding

  predicate AllSources(src: seq<Register>) {
    forall k :: 0 <= k < |src| ==> ValidSrc(src[k])
  }

  // Fewer than n source operands fill the dwords from pos to the end.
  ghost predicate SourcesFill(b: seq<u32>, pos: nat, n: nat, u: Usage, src: seq<Register>) {
    && |src| < n && AllSources(src) && SourcesWritten(b, pos, src)
    && TrackAll(u, src).Some? && pos + SourcesLength(src) == |b|
  }

  function Needed(op: Op): nat {
    (if HasDst(op) then 1 else 0) + SourceCount(op)
  }

  // An arithmetic or texture instruction at pos has room for one dword per operand, but the
  // operands before its last one, with the tokens of their relative addresses, fill it up.
  ghost predicate FilledBy(b: seq<u32>, pos: nat, p: Program, op: Op, dst: Register, src: seq<Register>) {
    && pos < |b| && b[pos] % 0x1_0000 == Code(op) && !IsFlow(op)
    && pos + 1 + Needed(op) <= |b| && |p.instructions| < MAX_INSTRUCTIONS
    && if HasDst(op) then
         && ValidDst(dst) && OperandWritten(b, pos + 1, dst, true) && Track(p.usage, dst, true).Some?
         && SourcesFill(b, pos + 1 + OperandLength(dst), SourceCount(op), Track(p.usage, dst, true).value, src)
       else SourcesFill(b, pos + 1, SourceCount(op), p.usage, src)
  }

  ghost predicate RunsOut(b: seq<u32>, pos: nat, p: Program) {
    exists op, dst, src :: FilledBy(b, pos, p, op, dst, src)
  }

  lemma {:induction false} SourcesRunOut(b: seq<u32>, pos: nat, n: nat, u: Usage) returns (src: seq<Register>)
    requires ReadSources(b, pos, n, u).PastEnd? && pos <= |b|
    ensures SourcesFill(b, pos, n, u, src)
    decreases n
  {
    hide Track, ReadOperand, OperandWritten;
    src := [];
    if pos < |b| {
      var first := ReadOperand(b, pos, u, false);
      assert first.PastEnd? <==> pos >= |b|;
      ReadIsWritten(b, pos, u, false);
      OperandFits(b, pos, first.regs[0], false);
      var rest := SourcesRunOut(b, first.pos, n - 1, first.usage);
      src := [first.regs[0]] + rest;
      assert src[1..] == rest;
    }
  }

  lemma {:induction false} FilledSourcesRunOut(b: seq<u32>, pos: nat, n: nat, u: Usage, src: seq<Register>)
    requires SourcesFill(b, pos, n, u, src)
    ensures ReadSources(b, pos, n, u).PastEnd?
    decreases n
  {
    hide Track, OperandWritten;
    if src == [] {
      assert ReadOperand(b, pos, u, false).PastEnd?;
    } else {
      OperandReads(b, pos, src[0], false, u);
      FilledSourcesRunOut(b, pos + OperandLength(src[0]), n - 1, Track(u, src[0], false).value, src[1..]);
    }
  }

  lemma {:induction false} RegularRunsOut(b: seq<u32>, pos: nat, p: Program, op: Op)
    requires pos < |b| && b[pos] % 0x1_0000 == Code(op) && !IsFlow(op)
    ensures StepRegular(b, pos, p, op).Overrun? <==> exists dst, src :: FilledBy(b, pos, p, op, dst, src)
  {
    if StepRegular(b, pos, p, op).Overrun? {
      var dst, src := RegularFilled(b, pos, p, op);
      assert FilledBy(b, pos, p, op, dst, src);
    }
    if dst, src :| FilledBy(b, pos, p, op, dst, src) {
      FilledRegular(b, pos, p, op, dst, src);
    }
  }

  lemma {:induction false} RegularFilled(b: seq<u32>, pos: nat, p: Program, op: Op) returns (dst: Register, src: seq<Register>)
    requires pos < |b| && b[pos] % 0x1_0000 == Code(op) && !IsFlow(op) && StepRegular(b, pos, p, op).Overrun?
    ensures FilledBy(b, pos, p, op, dst, src)
  {
    hide Code, ReadOperand, ReadSources, Track, SourcesFill, OperandWritten, SourceCount, IsFlow;
    dst := NO_REGISTER;
    if HasDst(op) {
      var d := ReadOperand(b, pos + 1, p.usage, true);
      assert d.PastEnd? <==> pos + 1 >= |b|;
      ReadIsWritten(b, pos + 1, p.usage, true);
      OperandFits(b, pos + 1, d.regs[0], true);
      dst := d.regs[0];
      src := SourcesRunOut(b, d.pos, SourceCount(op), d.usage);
    } else {
      src := SourcesRunOut(b, pos + 1, SourceCount(op), p.usage);
    }
  }

  lemma {:induction false} FilledRegular(b: seq<u32>, pos: nat, p: Program, op: Op, dst: Register, src: seq<Register>)
    requires FilledBy(b, pos, p, op, dst, src)
    ensures StepRegular(b, pos, p, op).Overrun?
  {
    hide Code, ReadOperand, ReadSources, Track, SourcesFill, OperandWritten, SourceCount, IsFlow;
    if HasDst(op) {
      OperandReads(b, pos + 1, dst, true, p.usage);
      FilledSourcesRunOut(b, pos + 1 + OperandLength(dst), SourceCount(op), Track(p.usage, dst, true).value, src);
    } else {
      FilledSourcesRunOut(b, pos + 1, SourceCount(op), p.usage, src);
    }
  }

  lemma {:induction false} StepRunsOut(b: seq<u32>, pos: nat, p: Program)
    requires pos < |b|
    ensures StepAt(b, pos, p).Overrun? <==> RunsOut(b, pos, p)
  {
    if StepAt(b, pos, p).Overrun? {
      var op := OverrunOp(b, pos, p);
      RegularRunsOut(b, pos, p, op);
    }
    if RunsOut(b, pos, p) {
      var op, dst, src :| FilledBy(b, pos, p, op, dst, src);
      OpReadsBack(op);
      FilledRegular(b, pos, p, op, dst, src);
      hide Code, DecodeOp, StepRegular, FilledBy, SourceCount;
      assert b[pos] % 0x1_0000 == Code(op) && !IsFlow(op) by { FilledOp(b, pos, p, op, dst, src); }
    }
  }

  lemma {:induction false} FilledOp(b: seq<u32>, pos: nat, p: Program, op: Op, dst: Register, src: seq<Register>)
    requires FilledBy(b, pos, p, op, dst, src)
    ensures pos < |b| && b[pos] % 0x1_0000 == Code(op) && !IsFlow(op)
  {
  }

  lemma {:induction false} OverrunOp(b: seq<u32>, pos: nat, p: Program) returns (op: Op)
    requires pos < |b| && StepAt(b, pos, p).Overrun?
    ensures b[pos] % 0x1_0000 == Code(op) && !IsFlow(op) && StepRegular(b, pos, p, op).Overrun?
  {
    hide Code, DecodeOp, StepRegular, AddDcl, AddDef, AddInstruction, DecodeDcl;
    OpCode(b[pos] % 0x1_0000);
    op := DecodeOp(b[pos] % 0x1_0000).value;
  }

  // The items before the instruction that runs out.
  ghost predicate Reaches(b: seq<u32>, pos: nat, p: Program, items: seq<Item>, q: Program) {
    && AllValid(items) && AllWritten(b, pos, items) && AbsorbAll(p, items) == Some(q)
    && RunsOut(b, pos + TotalLength(items), q)
  }

  lemma {:induction false} OverrunReached(b: seq<u32>, pos: nat, p: Program) returns (items: seq<Item>, q: Program)
    requires ParseFrom(b, pos, p).ReadPastEnd?
    ensures Reaches(b, pos, p, items, q)
    decreases |b| - pos
  {
    hide StepAt, Written, Absorb, Length, RunsOut;
    var s := StepAt(b, pos, p);
    if s.Overrun? {
      StepRunsOut(b, pos, p);
      items, q := [], p;
    } else {
      var item := StepIsItem(b, pos, p);
      var rest, end := OverrunReached(b, s.pos, s.program);
      items, q := [item] + rest, end;
      assert items[1..] == rest;
    }
  }

  lemma {:induction false} ReachedOverruns(b: seq<u32>, pos: nat, p: Program, items: seq<Item>, q: Program)
    requires Reaches(b, pos, p, items, q)
    ensures ParseFrom(b, pos, p).ReadPastEnd?
    decreases |items|
  {
    hide Written, Absorb, StepAt, Length;
    if items == [] {
      RunsOutInside(b, pos, q);
      StepRunsOut(b, pos, p);
    } else {
      hide RunsOut;
      assert ValidItem(items[0]);
      LengthFits(b, pos, items[0]);
      ItemStep(b, pos, p, items[0]);
      ReachedOverruns(b, pos + Length(items[0]), Absorb(p, items[0]).value, items[1..], q);
    }
  }

  lemma {:induction false} RunsOutInside(b: seq<u32>, pos: nat, p: Program)
    requires RunsOut(b, pos, p)
    ensures pos < |b|
  {
  }

  /** The parser reads past the end exactly when, after some items, an instruction has room for
      its operands as they are counted but runs out of dwords before the last of them. */
  lemma {:induction false} OverrunsExactly(b: seq<u32>)
    ensures ParseSpec(b).ReadPastEnd? <==>
      |b| >= 2 && Start(b[0]).Some? && exists items, q :: Reaches(b, 1, Start(b[0]).value, items, q)
  {
    hide ParseFrom, Start, Reaches;
    if ParseSpec(b).ReadPastEnd? {
      var items, q := OverrunReached(b, 1, Start(b[0]).value);
    }
    if |b| >= 2 && Start(b[0]).Some? {
      if items, q :| Reaches(b, 1, Start(b[0]).value, items, q) {
        ReachedOverruns(b, 1, Start(b[0]).value, items, q);
      }
    }
  }

  // ---------------------------------------------------------------- what a caller can look for

  lemma {:induction false} RelativeSource(b: seq<u32>, pos: nat, src: seq<Register>) returns (k: nat)
    requires SourcesWritten(b, pos, src) && SourcesLength(src) > |src|
    ensures pos <= k < |b| && RelativeBit(b[k])
    decreases |src|
  {
    hide KindFields;
    if src[0].relative {
      k := pos;
    } else {
      k := RelativeSource(b, pos + 1, src[1..]);
    }
  }

  lemma {:induction false} RelativeOperand(b: seq<u32>, pos: nat, p: Program, op: Op, dst: Register, src: seq<Register>) returns (k: nat)
    requires FilledBy(b, pos, p, op, dst, src)
    ensures pos < k < |b| && RelativeBit(b[k])
  {
    hide Code, Track, TrackAll, KindFields, SourceCount, IsFlow, SourcesWritten, SourcesLength, AllSources;
    if HasDst(op) && dst.relative {
      k := pos + 1;
    } else {
      var at := pos + 1 + if HasDst(op) then 1 else 0;
      k := RelativeSource(b, at, src);
    }
  }

  /** Without a dword after the version whose bit 13 is set, no parse reads past the end. */
  lemma {:induction false} NoRelativeNoOverrun(b: seq<u32>)
    requires forall k :: 2 <= k < |b| ==> !RelativeBit(b[k])
    ensures !ParseSpec(b).ReadPastEnd?
  {
    hide ParseFrom, Start, RelativeBit, ParseSpec, AllWritten, AbsorbAll;
    OverrunsExactly(b);
    if ParseSpec(b).ReadPastEnd? {
      var items, q :| Reaches(b, 1, Start(b[0]).value, items, q);
      var pos := 1 + TotalLength(items);
      var op, dst, src :| FilledBy(b, pos, q, op, dst, src);
      var k := RelativeOperand(b, pos, q, op, dst, src);
      assert false;
    }
  }

  // add r0, c0[a0.x], and the END dword where the second source should be.
  const OVERRUN: seq<u32> := [0xFFFE_0300, 2, 0x800F_0000, 0xA0E4_2000, OP_END]
  const OVERRUN_DST := Register(TEMP, 0, IDENTITY, 15, 0, 0, false, 0)
  const OVERRUN_SOURCE := Register(CONST, 0, IDENTITY, 15, 0, 0, true, 0)

  lemma {:induction false} OverrunOperands()
    ensures OperandWritten(OVERRUN, 2, OVERRUN_DST, true) && OperandWritten(OVERRUN, 3, OVERRUN_SOURCE, false)
  {
  }

  lemma {:induction false} OverrunFilled(p: Program)
    requires p.instructions == []
    ensures FilledBy(OVERRUN, 1, p, Add, OVERRUN_DST, [OVERRUN_SOURCE])
  {
    OverrunOperands();
    hide OperandWritten;
    var src := [OVERRUN_SOURCE];
    assert src[1..] == [];
    assert SourcesWritten(OVERRUN, 5, src[1..]);
    assert SourcesLength(src) == 2 + SourcesLength(src[1..]);
    var u := Track(p.usage, OVERRUN_DST, true).value;
    assert TrackAll(u, src) == TrackAll(Track(u, OVERRUN_SOURCE, false).value, src[1..]);
  }

  /** A blob that the length scan delivers whole and that the parser runs out of: its END dword
      is taken for the token of the relative address. */
  lemma {:induction false} ScannedBlobOverruns()
    ensures ParseSpec(OVERRUN).ReadPastEnd? && ShaderEncoding.ScanGives(OVERRUN, |OVERRUN|)
  {
    var p := Start(OVERRUN[0]).value;
    OverrunFilled(p);
    hide FilledBy, ParseFrom, ParseSpec;
    assert RunsOut(OVERRUN, 1, p);
    assert AllWritten(OVERRUN, 1, []) && AbsorbAll(p, []) == Some(p);
    assert Reaches(OVERRUN, 1, p, [], p);
    hide Reaches, RunsOut;
    OverrunsExactly(OVERRUN);
  }
}
