/**
  An encoder that keeps to the bytecode format, the round trip with the parser, and the
  frontend's scan for the length of a shader.
 */
module ShaderEncoding {
  import opened Options
  import opened Sequences
  import opened Words
  import opened ShaderIr
  import opened ShaderTokens
  import opened ShaderParser
  import opened ShaderFormat

  function EncodeOperand(r: Register, isDst: bool): seq<u32> {
    [if isDst then EncodeDst(r) else EncodeSrc(r)] + if r.relative then [EncodeRelative(r.relativeComponent)] else []
  }

  function EncodeSources(src: seq<Register>): seq<u32> {
    if src == [] then [] else EncodeOperand(src[0], false) + EncodeSources(src[1..])
  }

  // An instruction token: opcode, comparison and operand-token count.
  function InstructionToken(op: Op, comparison: nat, operands: nat): u32
    requires comparison < 8
  {
    Code(op) + 0x4_0000 * comparison + 0x100_0000 * (operands % 16)
  }

  function EncodeInstruction(i: Instruction): seq<u32>
    requires ValidInstruction(i)
  {
    var operands :=
      if IsFlow(i.op) then seq(|i.src|, k requires 0 <= k < |i.src| => EncodeSrc(i.src[k]))
      else (if HasDst(i.op) then EncodeOperand(i.dst, true) else []) + EncodeSources(i.src);
    [InstructionToken(i.op, i.comparison, |operands|)] + operands
  }

  function EncodeItem(item: Item): (e: seq<u32>)
    requires ValidItem(item)
  {
    match item
    case Comment(words) => [OP_COMMENT + 0x1_0000 * |words|] + words
    case Declaration(d) => [OP_DCL + 0x200_0000, EncodeDclSemantic(d), EncodeDclRegister(d)]
    case Definition(e) =>
      [DefOpcode(e.kind) + 0x100_0000 * (1 + |e.values|), PackRegister(CONST, e.number, false, 15)] + e.values
    case Instr(i) => EncodeInstruction(i)
  }

  function Encode(items: seq<Item>): seq<u32>
    requires AllValid(items)
  {
    if items == [] then [] else EncodeItem(items[0]) + Encode(items[1..])
  }

  // ---------------------------------------------------------------- encodings are bytecode

  lemma {:induction false} OperandEncoded(b: seq<u32>, pos: nat, r: Register, isDst: bool)
    requires Stands(b, pos, EncodeOperand(r, isDst))
    ensures OperandWritten(b, pos, r, isDst) && |EncodeOperand(r, isDst)| == OperandLength(r)
  {
    hide EncodeDst, EncodeSrc, EncodeRelative, RelativeLane, DstFields, SrcFields;
    StandsAt(b, pos, EncodeOperand(r, isDst), 0);
    if isDst { DstEncoded(r); } else { SrcEncoded(r); }
    if r.relative {
      StandsAt(b, pos, EncodeOperand(r, isDst), 1);
      RelativeRoundTrip(r.relativeComponent);
    }
  }

  lemma {:induction false} SourcesEncoded(b: seq<u32>, pos: nat, src: seq<Register>)
    requires Stands(b, pos, EncodeSources(src)) && pos <= |b|
    ensures SourcesWritten(b, pos, src) && |EncodeSources(src)| == SourcesLength(src)
    decreases |src|
  {
    hide EncodeOperand, OperandWritten;
    if src != [] {
      var e := EncodeOperand(src[0], false);
      StandsParts(b, pos, e, EncodeSources(src[1..]));
      OperandEncoded(b, pos, src[0], false);
      OperandFits(b, pos, src[0], false);
      SourcesEncoded(b, pos + |e|, src[1..]);
    }
  }

  lemma {:induction false} TokenReadsBack(op: Op, comparison: nat, operands: nat)
    requires comparison < 8
    ensures var t := InstructionToken(op, comparison, operands);
      t % 0x1_0000 == Code(op) && t / 0x4_0000 % 8 == comparison
  {
    var t := InstructionToken(op, comparison, operands);
    DivMod(t, 0x1_0000, 4 * comparison + 256 * (operands % 16), Code(op));
    DivMod(t, 0x4_0000, comparison + 64 * (operands % 16), Code(op));
    DivMod(comparison + 64 * (operands % 16), 8, 8 * (operands % 16), comparison);
  }

  lemma {:induction false} InstructionEncoded(b: seq<u32>, pos: nat, i: Instruction)
    requires ValidInstruction(i) && Stands(b, pos, EncodeInstruction(i))
    ensures Written(b, pos, Instr(i)) && |EncodeInstruction(i)| == Length(Instr(i))
  {
    hide OperandWritten, EncodeSources, EncodeOperand, EncodeSrc, InstructionToken, SourcesWritten, SrcFields;
    var e := EncodeInstruction(i);
    StandsAt(b, pos, e, 0);
    assert [e[0]] + e[1..] == e;
    StandsParts(b, pos, [e[0]], e[1..]);
    TokenReadsBack(i.op, i.comparison, |e| - 1);
    hide Code;
    if IsFlow(i.op) {
      forall k | 0 <= k < |i.src| ensures SrcFields(b[pos + 1 + k], i.src[k]) {
        StandsAt(b, pos, e, k + 1);
        SrcEncoded(i.src[k]);
        assert b[pos + 1 + k] == e[k + 1] == EncodeSrc(i.src[k]);
      }
    } else {
      var d := if HasDst(i.op) then EncodeOperand(i.dst, true) else [];
      assert e[1..] == d + EncodeSources(i.src);
      StandsParts(b, pos + 1, d, EncodeSources(i.src));
      if HasDst(i.op) {
        OperandEncoded(b, pos + 1, i.dst, true);
        OperandFits(b, pos + 1, i.dst, true);
      }
      SourcesEncoded(b, pos + 1 + |d|, i.src);
    }
  }

  lemma {:induction false} CommentEncoded(b: seq<u32>, pos: nat, words: seq<u32>)
    requires |words| < 0x8000 && Stands(b, pos, EncodeItem(Comment(words)))
    ensures Written(b, pos, Comment(words))
  {
    var e := EncodeItem(Comment(words));
    StandsAt(b, pos, e, 0);
    DivMod(e[0], 0x1_0000, |words|, OP_COMMENT);
    StandsParts(b, pos, [e[0]], words);
  }

  lemma {:induction false} DeclarationEncoded(b: seq<u32>, pos: nat, d: DclEntry)
    requires ValidDcl(d) && Stands(b, pos, EncodeItem(Declaration(d)))
    ensures Written(b, pos, Declaration(d))
  {
    hide EncodeDclSemantic, EncodeDclRegister, DclFields;
    var e := EncodeItem(Declaration(d));
    StandsAt(b, pos, e, 0);
    StandsAt(b, pos, e, 1);
    StandsAt(b, pos, e, 2);
    DivMod(e[0], 0x1_0000, 0x200, OP_DCL);
    DclEncoded(d);
  }

  lemma {:induction false} DefinitionEncoded(b: seq<u32>, pos: nat, f: DefEntry)
    requires ValidDef(f) && Stands(b, pos, EncodeItem(Definition(f)))
    ensures Written(b, pos, Definition(f))
  {
    hide PackRegister;
    var e := EncodeItem(Definition(f));
    StandsAt(b, pos, e, 0);
    StandsAt(b, pos, e, 1);
    DivMod(e[0], 0x1_0000, 0x100 * (1 + |f.values|), DefOpcode(f.kind));
    UnpackKind(CONST, f.number, false, 15);
    assert e == [e[0], e[1]] + f.values;
    StandsParts(b, pos, [e[0], e[1]], f.values);
  }

  lemma {:induction false} ItemEncoded(b: seq<u32>, pos: nat, item: Item)
    requires ValidItem(item) && Stands(b, pos, EncodeItem(item))
    ensures Written(b, pos, item) && |EncodeItem(item)| == Length(item)
  {
    hide Written, EncodeInstruction;
    match item
    case Comment(words) => CommentEncoded(b, pos, words);
    case Declaration(d) => DeclarationEncoded(b, pos, d);
    case Definition(f) => DefinitionEncoded(b, pos, f);
    case Instr(i) => InstructionEncoded(b, pos, i);
  }

  lemma {:induction false} ItemsEncoded(b: seq<u32>, pos: nat, items: seq<Item>)
    requires AllValid(items) && Stands(b, pos, Encode(items))
    ensures AllWritten(b, pos, items) && |Encode(items)| == TotalLength(items)
    decreases |items|
  {
    hide EncodeItem, Written, Length;
    if items != [] {
      var e, rest := EncodeItem(items[0]), Encode(items[1..]);
      StandsParts(b, pos, e, rest);
      ItemEncoded(b, pos, items[0]);
      ItemsEncoded(b, pos + |e|, items[1..]);
    }
  }

  /** An encoding, with anything after END, is bytecode in which the encoded items are written. */
  lemma {:induction false} EncodingIsBytecode(version: u32, items: seq<Item>, after: seq<u32>)
    requires AllValid(items) && Start(version).Some?
    ensures Bytecode([version] + Encode(items) + [OP_END] + after, items)
    ensures |Encode(items)| == TotalLength(items)
  {
    var b, e := [version] + Encode(items) + [OP_END] + after, Encode(items);
    hide Encode, AllWritten, Start;
    StandsInside([version], e, [OP_END], after);
    StandsParts(b, 1, e, [OP_END]);
    ItemsEncoded(b, 1, items);
    StandsAt(b, 1 + |e|, [OP_END], 0);
  }

  /** Round trip: an encoding parses to what its items mean. */
  lemma {:induction false} ParseEncoding(version: u32, items: seq<Item>, after: seq<u32>)
    requires AllValid(items) && Start(version).Some?
    ensures ParseSpec([version] + Encode(items) + [OP_END] + after)
         == match AbsorbAll(Start(version).value, items) case None => Rejected case Some(q) => Parsed(Finish(q))
  {
    EncodingIsBytecode(version, items, after);
    hide Encode, AbsorbAll, Start, Bytecode;
    var b := [version] + Encode(items) + [OP_END] + after;
    assert b[0] == version;
    ParseWritten(b, items);
  }

  // The bytecode of a list of items whose meaning fits the tables.
  lemma {:induction false} EncodedProgram(version: u32, items: seq<Item>) returns (b: seq<u32>, p: Program)
    requires AllValid(items) && Start(version).Some? && AbsorbAll(Start(version).value, items).Some?
    ensures |b| > 0 && b[0] == version && Bytecode(b, items) && ParseSpec(b) == Parsed(p)
    ensures p.instructions == Instructions(items) && p.vertex == (version / 0x1_0000 == 0xFFFE)
  {
    b := [version] + Encode(items) + [OP_END] + [];
    EncodingIsBytecode(version, items, []);
    assert b[0] == version;
    hide Encode, Bytecode, AbsorbAll, ParseSpec, AllValid, Start;
    ParseWritten(b, items);
    p := Finish(AbsorbAll(Start(version).value, items).value);
    ParseReturnsProgram(b, p, items);
  }

  // ---------------------------------------------------------------- the frontend's length scan

  const MAX_SCAN := 0x1_0000

  predicate ShaderVersion(version: u32) {
    version / 0x1_0000 == 0xFFFE || version / 0x1_0000 == 0xFFFF
  }

  // n is the number of dwords up to and including the first END dword that lies within the
  // scan limit, and 0 when the version is no shader version or there is no such dword.
  ghost predicate ScanGives(b: seq<u32>, n: nat)
    requires |b| > 0
  {
    if n == 0 then !ShaderVersion(b[0]) || forall k :: 1 <= k < |b| && k < MAX_SCAN ==> b[k] != OP_END
    else
      && ShaderVersion(b[0]) && 2 <= n <= |b| && n <= MAX_SCAN
      && b[n - 1] == OP_END && forall k :: 1 <= k < n - 1 ==> b[k] != OP_END
  }

  /** The scan for the END dword that sizes a shader blob before it is copied. The caller
      hands over a pointer: either an END dword or the scan limit lies inside the memory. */
  method ShaderDwordCount(b: seq<u32>) returns (n: nat)
    requires |b| > 0 && (|b| >= MAX_SCAN || OP_END in b[1..])
    ensures ScanGives(b, n)
  {
    if !ShaderVersion(b[0]) {
      return 0;
    }
    var i := 1;
    while i < MAX_SCAN
      invariant 1 <= i <= MAX_SCAN && i <= |b|
      invariant forall k :: 1 <= k < i ==> b[k] != OP_END
    {
      assert i < |b| by {
        if |b| < MAX_SCAN {
          var k :| 0 <= k < |b[1..]| && b[1..][k] == OP_END;
          assert b[k + 1] == OP_END;
        }
      }
      if b[i] == OP_END {
        return i + 1;
      }
      i := i + 1;
    }
    n := 0;
  }

  /** The scan finds the length of bytecode, up to the END that the parser stops at, exactly when
      no dword before that END equals the plain END dword, END itself is plain, and the shader
      fits the scan limit. */
  lemma {:induction false} ScanAgreesWithParser(b: seq<u32>, items: seq<Item>, n: nat)
    requires Bytecode(b, items) && ScanGives(b, n)
    ensures var end := 1 + TotalLength(items);
      n == end + 1 <==> (forall k :: 1 <= k < end ==> b[k] != OP_END) && b[end] == OP_END && end < MAX_SCAN
  {
    hide AllWritten, AllValid;
  }

  // A pixel shader whose DEFI has a component of 65535, padded to where its END stands.
  const SHORT_SCAN: seq<u32> := [0xFFFF_0300, 0x0500_0052, 0xF00F_0000, OP_END, 0, 0, 0, OP_END]

  /** The scan cuts that shader to its first four dwords; the parser accepts the whole, of eight
      dwords, and rejects what the scan leaves. */
  lemma {:induction false} ScanStopsEarly()
    ensures var e := DefEntry(CONSTINT, 0, [OP_END, 0, 0, 0]);
      Bytecode(SHORT_SCAN, [Definition(e)]) && TotalLength([Definition(e)]) + 2 == |SHORT_SCAN| == 8
    ensures ParseSpec(SHORT_SCAN).Parsed? && ParseSpec(SHORT_SCAN[..4]) == Rejected
    ensures forall n :: ScanGives(SHORT_SCAN, n) <==> n == 4
  {
    var e := DefEntry(CONSTINT, 0, [OP_END, 0, 0, 0]);
    var items := [Definition(e)];
    assert items[1..] == [];
    assert SHORT_SCAN[3..7] == e.values;
    assert Written(SHORT_SCAN, 1, items[0]);
    assert TotalLength(items) == 6 + TotalLength([]);
    assert AllWritten(SHORT_SCAN, 7, []);
    assert Bytecode(SHORT_SCAN, items);
    ParseWritten(SHORT_SCAN, items);
    var p := Start(SHORT_SCAN[0]).value;
    assert Upsert([], e) == [e];
    assert AbsorbAll(p, items).Some? by { assert Absorb(p, items[0]).Some?; assert AbsorbAll(Absorb(p, items[0]).value, []).Some?; }
    assert StepAt(SHORT_SCAN[..4], 1, p) == Reject;
    hide ParseFrom, AllWritten, Written, AbsorbAll;
    assert SHORT_SCAN[1] != OP_END && SHORT_SCAN[2] != OP_END && SHORT_SCAN[3] == OP_END;
  }
}
