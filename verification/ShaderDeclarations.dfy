/**
  The variables the emitted function declares against the variables its instructions name,
  for every bytecode the parser accepts.
 */
module ShaderDeclarations {
  import opened Options
  import opened Words
  import opened ShaderIr
  import opened ShaderTokens
  import opened ShaderParser
  import opened ShaderFormat
  import opened ShaderEncoding
  import opened ShaderSemantics
  import opened Msl
  import opened MslEmitter

  function Larger(a: nat, b: nat): nat { if a < b then b else a }

  function Max1(n: nat): nat { if n < 1 then 1 else n }

  function Temps(n: nat): seq<Name> {
    if n == 0 then [] else Temps(n - 1) + [R(n - 1)]
  }

  function Colors(n: nat): seq<Name> {
    if n == 0 then [] else Colors(n - 1) + [OC(n - 1)]
  }

  function DefNames(defs: seq<DefEntry>): seq<Name> {
    if defs == [] then []
    else DefNames(defs[..|defs| - 1]) + NameOfDef(defs[|defs| - 1])
  }

  function NameOfDef(d: DefEntry): seq<Name> {
    if d.kind == CONST then [CDef(d.number)]
    else if d.kind == CONSTINT then [I(d.number)]
    else if d.kind == CONSTBOOL then [B(d.number)] else []
  }

  // An instruction that makes the vertex function declare its address register.
  predicate UsesAddress(i: Instruction) {
    i.dst.kind == ADDR || i.op.Mova?
  }

  predicate NeedsAddress(code: seq<Instruction>) {
    exists k :: 0 <= k < |code| && UsesAddress(code[k])
  }

  // The address register of a vertex shader, the color outputs and the depth of a pixel shader.
  function StageNames(p: Program): seq<Name> {
    if p.vertex then if NeedsAddress(p.instructions) then [A(0)] else []
    else Colors(Max1(p.usage.colorOutputs)) + if p.usage.writesDepth then [ODepth] else []
  }

  // The local variables declared at the top of the emitted function, in order.
  function Declared(p: Program): seq<Name> {
    Temps(p.usage.maxTemp + 1) + (StageNames(p) + DefNames(p.defs))
  }

  // A declared variable; an inline constant starts from the words of its definition.
  datatype Variable = Variable(name: Name, start: seq<u32>)

  function Names(lines: seq<Variable>): (names: seq<Name>)
    ensures |names| == |lines| && forall k :: 0 <= k < |lines| ==> names[k] == lines[k].name
  {
    seq(|lines|, k requires 0 <= k < |lines| => lines[k].name)
  }

  // The variables that definitions declare.
  predicate IsConstant(x: Name) {
    x.CDef? || x.I? || x.B?
  }

  function KindOf(x: Name): RegKind {
    if x.CDef? then CONST else if x.I? then CONSTINT else CONSTBOOL
  }

  predicate FromTable(defs: seq<DefEntry>, d: Variable) {
    IsConstant(d.name) ==> exists j :: 0 <= j < |defs| && IsDefinition(defs[j], d)
  }

  predicate IsDefinition(e: DefEntry, d: Variable) {
    NameOfDef(e) == [d.name] && e.values == d.start
  }

  method DeclareTemporaries(n: nat) returns (lines: seq<Variable>)
    ensures Names(lines) == Temps(n) && forall k :: 0 <= k < |lines| ==> !IsConstant(lines[k].name)
  {
    lines := [];
    for i := 0 to n
      invariant Names(lines) == Temps(i) && forall k :: 0 <= k < |lines| ==> !IsConstant(lines[k].name)
    {
      lines := lines + [Variable(R(i), [])];
    }
  }

  method DeclareColors(n: nat) returns (lines: seq<Variable>)
    ensures Names(lines) == Colors(n) && forall k :: 0 <= k < |lines| ==> !IsConstant(lines[k].name)
  {
    lines := [];
    for i := 0 to n
      invariant Names(lines) == Colors(i) && forall k :: 0 <= k < |lines| ==> !IsConstant(lines[k].name)
    {
      lines := lines + [Variable(OC(i), [])];
    }
  }

  method DeclareDefinitions(defs: seq<DefEntry>) returns (lines: seq<Variable>)
    ensures Names(lines) == DefNames(defs) && forall k :: 0 <= k < |lines| ==> FromTable(defs, lines[k])
  {
    lines := [];
    for i := 0 to |defs|
      invariant Names(lines) == DefNames(defs[..i]) && forall k :: 0 <= k < |lines| ==> FromTable(defs, lines[k])
    {
      assert defs[..i + 1][..i] == defs[..i];
      if NameOfDef(defs[i]) != [] {
        var line := Variable(NameOfDef(defs[i])[0], defs[i].values);
        assert IsDefinition(defs[i], line);
        lines := lines + [line];
      }
    }
    assert defs[..|defs|] == defs;
  }

  method DeclareAddress(code: seq<Instruction>) returns (lines: seq<Variable>)
    ensures Names(lines) == (if NeedsAddress(code) then [A(0)] else [])
    ensures forall k :: 0 <= k < |lines| ==> !IsConstant(lines[k].name)
  {
    for i := 0 to |code|
      invariant forall k :: 0 <= k < i ==> !UsesAddress(code[k])
    {
      if UsesAddress(code[i]) { return [Variable(A(0), [])]; }
    }
    lines := [];
  }

  method DeclareStage(p: Program) returns (lines: seq<Variable>)
    ensures Names(lines) == StageNames(p) && forall k :: 0 <= k < |lines| ==> !IsConstant(lines[k].name)
  {
    hide NeedsAddress, Colors;
    if p.vertex {
      lines := DeclareAddress(p.instructions);
    } else {
      lines := DeclareColors(Max1(p.usage.colorOutputs));
      if p.usage.writesDepth { lines := lines + [Variable(ODepth, [])]; }
    }
  }

  /** The declarations at the top of the emitted function: temporaries, the address register or
      the pixel shader's outputs, and the definition table. */
  method DeclareVariables(p: Program) returns (lines: seq<Variable>)
    ensures Names(lines) == Declared(p)
    ensures forall k :: 0 <= k < |lines| ==> FromTable(p.defs, lines[k])
  {
    hide Temps, StageNames, DefNames;
    lines := DeclareTemporaries(p.usage.maxTemp + 1);
    var stage := DeclareStage(p);
    lines := lines + stage;
    var constants := DeclareDefinitions(p.defs);
    lines := lines + constants;
  }

  // ---------------------------------------------------------------- what parsing keeps

  ghost predicate DistinctDefs(defs: seq<DefEntry>) {
    forall i, j :: 0 <= i < j < |defs| ==> !SameSlot(defs[i], defs[j])
  }

  // What the usage summary says of a register that an instruction reads or writes.
  predicate Tracked(u: Usage, r: Register, isDst: bool) {
    && (r.kind == TEMP ==> r.number <= u.maxTemp)
    && (r.kind == OUTPUT ==> r.number in u.outputs)
    && (r.kind == ATTROUT && isDst ==> r.number in u.attributes)
  }

  // Flow-control operands are not tracked.
  predicate InstructionTracked(u: Usage, i: Instruction) {
    IsFlow(i.op) || ((HasDst(i.op) ==> Tracked(u, i.dst, true)) && forall k :: 0 <= k < |i.src| ==> Tracked(u, i.src[k], false))
  }

  predicate UsageGrows(u: Usage, v: Usage) {
    u.maxTemp <= v.maxTemp && u.outputs <= v.outputs && u.attributes <= v.attributes
  }

  function TempOf(r: Register): nat {
    if r.kind == TEMP then r.number else 0
  }

  function SourceTemps(src: seq<Register>): nat {
    if src == [] then 0 else Larger(TempOf(src[0]), SourceTemps(src[1..]))
  }

  function InstructionTemps(i: Instruction): nat {
    if IsFlow(i.op) then 0 else Larger(if HasDst(i.op) then TempOf(i.dst) else 0, SourceTemps(i.src))
  }

  // The largest number of a temporary that an instruction other than flow control names.
  function LargestTemp(code: seq<Instruction>): nat {
    if code == [] then 0 else Larger(LargestTemp(code[..|code| - 1]), InstructionTemps(code[|code| - 1]))
  }

  // One more than the number of the color output written last.
  function LastColor(code: seq<Instruction>): nat {
    if code == [] then 0
    else
      var i := code[|code| - 1];
      if !IsFlow(i.op) && HasDst(i.op) && i.dst.kind == COLOROUT then i.dst.number + 1 else LastColor(code[..|code| - 1])
  }

  ghost predicate Kept(p: Program) {
    && (forall k :: 0 <= k < |p.instructions| ==> InstructionTracked(p.usage, p.instructions[k]))
    && p.usage.maxTemp == LargestTemp(p.instructions)
    && p.usage.colorOutputs == LastColor(p.instructions)
  }

  lemma {:induction false} TrackKeeps(u: Usage, r: Register, isDst: bool, v: Usage)
    requires Track(u, r, isDst) == Some(v)
    ensures UsageGrows(u, v) && Tracked(v, r, isDst) && v.maxTemp == Larger(u.maxTemp, TempOf(r))
    ensures v.colorOutputs == if isDst && r.kind == COLOROUT then r.number + 1 else u.colorOutputs
  {
  }

  lemma {:induction false} TrackAllKeeps(u: Usage, src: seq<Register>, v: Usage)
    requires TrackAll(u, src) == Some(v)
    ensures UsageGrows(u, v) && v.maxTemp == Larger(u.maxTemp, SourceTemps(src)) && v.colorOutputs == u.colorOutputs
    ensures forall k :: 0 <= k < |src| ==> Tracked(v, src[k], false)
    decreases |src|
  {
    hide Track;
    if src != [] {
      var w := Track(u, src[0], false).value;
      TrackKeeps(u, src[0], false, w);
      TrackAllKeeps(w, src[1..], v);
    }
  }

  lemma {:induction false} AppendKeeps(p: Program, i: Instruction, u: Usage)
    requires Kept(p) && InstructionTracked(u, i) && UsageGrows(p.usage, u)
    requires u.maxTemp == Larger(p.usage.maxTemp, InstructionTemps(i))
    requires u.colorOutputs == if !IsFlow(i.op) && HasDst(i.op) && i.dst.kind == COLOROUT then i.dst.number + 1 else p.usage.colorOutputs
    ensures Kept(p.(instructions := p.instructions + [i], usage := u))
  {
    var after := p.instructions + [i];
    assert after[..|after| - 1] == p.instructions;
    forall k | 0 <= k < |after| ensures InstructionTracked(u, after[k]) {
      if k < |p.instructions| { assert InstructionTracked(p.usage, p.instructions[k]); }
    }
  }

  lemma {:induction false} InstructionKeeps(p: Program, i: Instruction, q: Program)
    requires Kept(p) && Absorb(p, Instr(i)) == Some(q)
    ensures Kept(q)
  {
    var u := if HasDst(i.op) then Track(p.usage, i.dst, true) else Some(p.usage);
    if !IsFlow(i.op) {
      if HasDst(i.op) { TrackKeeps(p.usage, i.dst, true, u.value); }
      TrackAllKeeps(u.value, i.src, q.usage);
    }
    hide Kept, Track, TrackAll;
    AppendKeeps(p, i, q.usage);
  }

  lemma {:induction false} AbsorbKeeps(p: Program, item: Item, q: Program)
    requires Kept(p) && Absorb(p, item) == Some(q)
    ensures Kept(q)
  {
    if item.Instr? {
      InstructionKeeps(p, item.instruction, q);
    } else if item.Declaration? {
      hide LargestTemp, LastColor;
      assert q.instructions == p.instructions && UsageGrows(p.usage, q.usage);
      forall k | 0 <= k < |p.instructions| ensures InstructionTracked(q.usage, p.instructions[k]) {
        assert InstructionTracked(p.usage, p.instructions[k]);
      }
    }
  }

  lemma {:induction false} AbsorbAllKeeps(p: Program, items: seq<Item>, q: Program)
    requires Kept(p) && AbsorbAll(p, items) == Some(q)
    ensures Kept(q)
    decreases |items|
  {
    hide Kept, Absorb;
    if items != [] {
      var next := Absorb(p, items[0]).value;
      AbsorbKeeps(p, items[0], next);
      AbsorbAllKeeps(next, items[1..], q);
    }
  }

  // Everything a parse keeps, with the items that are written in the dwords.
  lemma {:induction false} ParsedKept(b: seq<u32>, p: Program) returns (items: seq<Item>, q: Program)
    requires ParseSpec(b) == Parsed(p)
    ensures Bytecode(b, items) && Kept(q) && p == Finish(q) && DistinctDefs(p.defs)
    ensures TableIs(p.defs, LastWrites(map[], items))
  {
    items, q := ItemsOf(b, p);
    ParseReturnsProgram(b, p, items);
    TableDistinct(p.defs, LastWrites(map[], items));
    hide ParseSpec, TableIs, Bytecode, AbsorbAll, LastWrites, Finish;
    StartKept(b[0]);
    AbsorbAllKeeps(Start(b[0]).value, items, q);
  }

  lemma {:induction false} StartKept(version: u32)
    ensures Start(version).Some? ==> Kept(Start(version).value)
  {
  }

  lemma {:induction false} TableDistinct(defs: seq<DefEntry>, m: map<(nat, nat), seq<u32>>)
    requires TableIs(defs, m)
    ensures DistinctDefs(defs)
  {
    forall i, j | 0 <= i < j < |defs| ensures !SameSlot(defs[i], defs[j]) {
      assert Keys(defs)[i] != Keys(defs)[j];
      assert Keys(defs)[i] == Key(defs[i]) && Keys(defs)[j] == Key(defs[j]);
    }
  }

  // ---------------------------------------------------------------- the declarations

  lemma {:induction false} TempsHold(n: nat, k: nat)
    ensures R(k) in Temps(n) <==> k < n
  {
    if n > 0 { TempsHold(n - 1, k); }
  }

  lemma {:induction false} ColorsHold(n: nat, k: nat)
    ensures OC(k) in Colors(n) <==> k < n
    ensures R(k) !in Colors(n) && CDef(k) !in Colors(n)
  {
    if n > 0 { ColorsHold(n - 1, k); }
  }

  lemma {:induction false} TempsOnly(n: nat, k: nat)
    ensures OC(k) !in Temps(n) && CDef(k) !in Temps(n)
  {
    if n > 0 { TempsOnly(n - 1, k); }
  }

  lemma {:induction false} OneDefName(d: DefEntry, k: nat)
    ensures CDef(k) in NameOfDef(d) <==> d.kind == CONST && d.number == k
    ensures R(k) !in NameOfDef(d) && OC(k) !in NameOfDef(d)
  {
  }

  lemma {:induction false} DefNamesHold(defs: seq<DefEntry>, k: nat)
    ensures CDef(k) in DefNames(defs) <==> Defined(defs, k)
    ensures R(k) !in DefNames(defs) && OC(k) !in DefNames(defs)
    decreases |defs|
  {
    if defs != [] {
      hide Defined, NameOfDef;
      var n := |defs| - 1;
      DefNamesHold(defs[..n], k);
      DefinedStep(defs, n);
      assert defs[..n + 1] == defs;
      OneDefName(defs[n], k);
    }
  }

  // A name occurs once.
  ghost predicate Once(s: seq<Name>, x: Name) {
    multiset(s)[x] == 1
  }

  lemma {:induction false} LastDefinition(defs: seq<DefEntry>, k: nat)
    requires DistinctDefs(defs) && defs != []
    ensures var n := |defs| - 1;
      && DistinctDefs(defs[..n])
      && (defs[n].kind == CONST && defs[n].number == k ==> !Defined(defs[..n], k))
      && (!(defs[n].kind == CONST && defs[n].number == k) ==> (Defined(defs[..n], k) <==> Defined(defs, k)))
  {
    var n := |defs| - 1;
    DefinedStep(defs, n);
    assert defs[..n + 1] == defs;
  }

  lemma {:induction false} DefNamesOnce(defs: seq<DefEntry>, k: nat)
    requires DistinctDefs(defs) && Defined(defs, k)
    ensures Once(DefNames(defs), CDef(k))
    decreases |defs|
  {
    var n := |defs| - 1;
    var before, last := defs[..n], defs[n];
    LastDefinition(defs, k);
    DefNamesHold(before, k);
    hide Defined, DistinctDefs;
    if last.kind == CONST && last.number == k {
      OnceAfter(DefNames(before), NameOfDef(last), CDef(k));
    } else {
      DefNamesOnce(before, k);
      OnceBefore(DefNames(before), NameOfDef(last), CDef(k));
    }
  }

  lemma {:induction false} OnceAfter(a: seq<Name>, b: seq<Name>, x: Name)
    requires x !in a && Once(b, x)
    ensures Once(a + b, x)
  {
    assert multiset(a + b) == multiset(a) + multiset(b);
  }

  lemma {:induction false} OnceBefore(a: seq<Name>, b: seq<Name>, x: Name)
    requires Once(a, x) && x !in b
    ensures Once(a + b, x)
  {
    assert multiset(a + b) == multiset(a) + multiset(b);
  }

  /** For every bytecode that parses: each temporary that an arithmetic or texture instruction
      names is declared, each inline constant that any operand names is declared exactly once. */
  lemma {:induction false} NamedVariablesAreDeclared(b: seq<u32>, p: Program, i: Instruction, r: Register)
    requires ParseSpec(b) == Parsed(p) && i in p.instructions
    requires (HasDst(i.op) && r == i.dst) || r in i.src
    ensures !IsFlow(i.op) && NameOf(p, r).R? ==> NameOf(p, r) in Declared(p)
    ensures NameOf(p, r).CDef? ==> Once(Declared(p), NameOf(p, r))
  {
    var items, q := ParsedKept(b, p);
    NameKinds(p, r);
    hide ParseSpec, Kept, NameOf, Declared, IsFlow, TableIs, Bytecode, LastWrites;
    var name := NameOf(p, r);
    if name.R? && !IsFlow(i.op) {
      KeptTemps(q, i, r);
      TemporaryDeclared(p, r.number);
    }
    if name.CDef? {
      ConstantDeclaredOnce(p, r.number);
    }
  }

  lemma {:induction false} NameKinds(p: Program, r: Register)
    ensures NameOf(p, r).R? ==> r.kind == TEMP && NameOf(p, r) == R(r.number)
    ensures NameOf(p, r).CDef? ==> Defined(p.defs, r.number) && NameOf(p, r) == CDef(r.number)
  {
    hide Defined, FindOutputDcl;
  }

  lemma {:induction false} TemporaryDeclared(p: Program, n: nat)
    requires n <= p.usage.maxTemp
    ensures R(n) in Declared(p)
  {
    TempsHold(p.usage.maxTemp + 1, n);
    hide Temps, StageNames, DefNames;
  }

  lemma {:induction false} KeptTemps(q: Program, i: Instruction, r: Register)
    requires Kept(q) && i in q.instructions && !IsFlow(i.op) && ((HasDst(i.op) && r == i.dst) || r in i.src)
    ensures r.kind == TEMP ==> r.number <= q.usage.maxTemp
  {
    var k :| 0 <= k < |q.instructions| && q.instructions[k] == i;
    assert InstructionTracked(q.usage, i);
    hide LargestTemp, LastColor;
  }

  lemma {:induction false} StageHolds(p: Program, n: nat)
    ensures CDef(n) !in StageNames(p) && R(n) !in StageNames(p)
    ensures OC(n) in StageNames(p) <==> !p.vertex && n < Max1(p.usage.colorOutputs)
  {
    ColorsHold(Max1(p.usage.colorOutputs), n);
    hide Colors, NeedsAddress;
  }

  lemma {:induction false} ConstantDeclaredOnce(p: Program, n: nat)
    requires DistinctDefs(p.defs) && Defined(p.defs, n)
    ensures Once(Declared(p), CDef(n))
  {
    TempsOnly(p.usage.maxTemp + 1, n);
    StageHolds(p, n);
    DefNamesOnce(p.defs, n);
    hide Temps, StageNames, DefNames, Once;
    OnceAfter(StageNames(p), DefNames(p.defs), CDef(n));
    OnceAfter(Temps(p.usage.maxTemp + 1), StageNames(p) + DefNames(p.defs), CDef(n));
  }

  /** For every bytecode that parses, the definition table is the last-write-wins map of the
      definitions written in it: keys are distinct, and each entry and each definition of a
      register are the register's last. */
  lemma {:induction false} TableIsLastWrites(b: seq<u32>, p: Program)
    requires ParseSpec(b) == Parsed(p)
    ensures DistinctDefs(p.defs) && exists items :: Bytecode(b, items)
    ensures forall items :: Bytecode(b, items) ==> TableIs(p.defs, LastWrites(map[], items))
  {
    var first, q := ParsedKept(b, p);
    hide Bytecode, TableIs, LastWrites, ParseSpec, DistinctDefs;
    forall items | Bytecode(b, items) ensures TableIs(p.defs, LastWrites(map[], items)) {
      ParseReturnsProgram(b, p, items);
    }
  }

  /** For every bytecode that parses, the declaration of a constant starts from the words of the
      last definition of its register. */
  lemma {:induction false} DeclaredWithLastValue(b: seq<u32>, p: Program, d: Variable, items: seq<Item>)
    requires ParseSpec(b) == Parsed(p) && Bytecode(b, items) && IsConstant(d.name) && FromTable(p.defs, d)
    ensures var key, writes := (KindOf(d.name), d.name.n), LastWrites(map[], items);
      key in writes && d.start == writes[key]
  {
    ParseReturnsProgram(b, p, items);
    hide ParseSpec, Bytecode, LastWrites;
    var j :| 0 <= j < |p.defs| && IsDefinition(p.defs[j], d);
    assert Keys(p.defs)[j] == Key(p.defs[j]);
  }

  /** A color output of a pixel shader is declared exactly when its number does not exceed
      that of the color output written last. */
  lemma {:induction false} ColorOutputDeclared(b: seq<u32>, p: Program, n: nat)
    requires ParseSpec(b) == Parsed(p) && !p.vertex
    ensures OC(n) in Declared(p) <==> n < Max1(LastColor(p.instructions))
  {
    var items, q := ParsedKept(b, p);
    hide ParseSpec, Bytecode, TableIs, LastWrites, LargestTemp;
    assert q.usage.colorOutputs == LastColor(q.instructions);
    hide Kept, LastColor;
    TempsOnly(p.usage.maxTemp + 1, n);
    StageHolds(p, n);
    DefNamesHold(p.defs, n);
    hide Temps, StageNames, DefNames;
  }

  function MoveToColor(n: RegNumber): Instruction {
    Instruction(Mov, 0, Register(COLOROUT, n, IDENTITY, 15, 0, 0, false, 0),
                [Register(TEMP, 0, IDENTITY, 15, 0, 0, false, 0)])
  }

  /** A pixel shader that writes oC1 and then oC0 parses, and its oC1 is never declared. */
  lemma {:induction false} ColorOutputOrderMatters() returns (b: seq<u32>, p: Program)
    ensures ParseSpec(b) == Parsed(p) && !p.vertex
    ensures p.instructions == [MoveToColor(1), MoveToColor(0)]
    ensures NameOf(p, p.instructions[0].dst) == OC(1) && OC(1) !in Declared(p)
  {
    hide AbsorbAll, Bytecode, Declared, LastColor, Instructions, ParseSpec;
    var first, second := MoveToColor(1), MoveToColor(0);
    var items := [Instr(first), Instr(second)];
    AbsorbBoth(Start(0xFFFF_0200).value, first, second);
    TwoInstructions(first, second);
    b, p := EncodedProgram(0xFFFF_0200, items);
    ColorOutputDeclared(b, p, 1);
  }

  lemma {:induction false} TwoInstructions(first: Instruction, second: Instruction)
    requires !IsFlow(second.op) && HasDst(second.op) && second.dst.kind == COLOROUT && second.dst.number == 0
    ensures Instructions([Instr(first), Instr(second)]) == [first, second]
    ensures LastColor([first, second]) == 1
  {
    var items := [Instr(first), Instr(second)];
    assert items[1..] == [Instr(second)] && items[1..][1..] == [];
    assert Instructions(items[1..]) == [second] + Instructions([]);
  }

  lemma {:induction false} AbsorbMove(p: Program, n: RegNumber)
    requires |p.instructions| < MAX_INSTRUCTIONS && n < 32
    ensures Absorb(p, Instr(MoveToColor(n))).Some?
    ensures |Absorb(p, Instr(MoveToColor(n))).value.instructions| == |p.instructions| + 1
  {
    var i := MoveToColor(n);
    var u := Track(p.usage, i.dst, true).value;
    var v := Track(u, i.src[0], false).value;
    assert i.src[1..] == [];
    assert TrackAll(v, []) == Some(v);
    assert TrackAll(u, i.src) == Some(v);
  }

  lemma {:induction false} AbsorbBoth(p: Program, first: Instruction, second: Instruction)
    requires p.instructions == [] && first == MoveToColor(1) && second == MoveToColor(0)
    ensures AbsorbAll(p, [Instr(first), Instr(second)]).Some?
  {
    hide Absorb;
    var items := [Instr(first), Instr(second)];
    AbsorbMove(p, 1);
    var q := Absorb(p, Instr(first)).value;
    AbsorbMove(q, 0);
    var r := Absorb(q, Instr(second)).value;
    assert items[1..] == [Instr(second)];
    assert items[1..][1..] == [];
    assert AbsorbAll(r, []) == Some(r);
    assert AbsorbAll(q, items[1..]) == AbsorbAll(r, items[1..][1..]);
  }
}
