/**
  Translation preserves meaning: the Metal lines emitted for a balanced program read back as
  one block, and running that block ends in the registers the flat machine ends in.
 */
module ShaderPreservation {
  import opened Options
  import opened Sequences
  import opened ShaderIr
  import opened ShaderSemantics
  import opened ShaderBlocks
  import opened Msl
  import opened MslEmitter
  import opened ShaderInterface
  import opened MslBlocks
  import opened ShaderOperands
  import opened ShaderInstructions
  import opened ShaderAssignments
  import opened ShaderParser
  import opened ShaderDeclarations
  import opened ShaderScope
  import opened Words

  // ---------------------------------------------------------------- the block of a tree

  function Lined(lines: seq<Line>, rest: Code): Code {
    if lines == [] then rest else Then(Simple(lines[0]), Lined(lines[1..], rest))
  }

  // Every instruction is modelled and has the opcode its place in the tree asks for.
  predicate ModelledBlock(b: Block) {
    match b
    case Nil => true
    case Cons(s, rest) => ModelledStmt(s) && ModelledBlock(rest)
  }

  predicate ModelledStmt(s: Stmt) {
    Modelled(s.i) && match s
    case Plain(i) => !IsFlow(i.op)
    case IfThen(i, thn, close) =>
      (i.op.If? || i.op.Ifc?) && ModelledBlock(thn) && Modelled(close) && close.op.EndIf?
    case IfElse(i, thn, other, els, close) =>
      (i.op.If? || i.op.Ifc?) && ModelledBlock(thn) && Modelled(other) && other.op.Else?
      && ModelledBlock(els) && Modelled(close) && close.op.EndIf?
    case Repeat(i, body, close) => i.op.Rep? && ModelledBlock(body) && Modelled(close) && close.op.EndRep?
    case Exit(i) => i.op.Break?
    case ExitIf(i) => i.op.BreakC?
  }

  function EmitBlock(p: Program, b: Block): Code
    requires ModelledBlock(b)
    decreases b, 2
  {
    match b
    case Nil => Empty
    case Cons(s, rest) => EmitStmt(p, s, EmitBlock(p, rest))
  }

  function EmitStmt(p: Program, s: Stmt, rest: Code): Code
    requires ModelledStmt(s)
    decreases s, 1
  {
    if s.Plain? then Lined(EmitOne(p, s.i), rest) else Then(EmitNode(p, s), rest)
  }

  function EmitNode(p: Program, s: Stmt): Node
    requires ModelledStmt(s) && !s.Plain?
    decreases s, 0
  {
    match s
    case IfThen(i, thn, _) => Node.If(EmitFlow(p, i), EmitBlock(p, thn))
    case IfElse(i, thn, _, els, _) => Node.IfElse(EmitFlow(p, i), EmitBlock(p, thn), EmitBlock(p, els))
    case Repeat(i, body, _) => For(EmitFlow(p, i), EmitBlock(p, body))
    case Exit(i) => Simple(EmitFlow(p, i))
    case ExitIf(i) => Simple(EmitFlow(p, i))
  }

  // ---------------------------------------------------------------- the lines are that block

  lemma {:induction false} ModelledFlattens(b: Block)
    requires Shaped(b, true) && AllModelled(Flatten(b))
    ensures ModelledBlock(b)
    decreases b
  {
    hide Modelled;
    match b
    case Nil =>
    case Cons(s, rest) =>
      PartsModelled(FlattenStmt(s), Flatten(rest));
      ModelledStmtFlattens(s);
      ModelledFlattens(rest);
  }

  lemma {:induction false} PartsModelled(a: seq<Instruction>, b: seq<Instruction>)
    requires AllModelled(a + b)
    ensures AllModelled(a) && AllModelled(b)
  {
    hide Modelled;
    forall k | 0 <= k < |a| ensures Modelled(a[k]) { assert (a + b)[k] == a[k]; }
    forall k | 0 <= k < |b| ensures Modelled(b[k]) { assert (a + b)[|a| + k] == b[k]; }
  }

  lemma {:induction false} ModelledStmtFlattens(s: Stmt)
    requires ShapedStmt(s, true) && AllModelled(FlattenStmt(s))
    ensures ModelledStmt(s)
    decreases s
  {
    hide Modelled;
    assert FlattenStmt(s)[0] == s.i;
    match s
    case Plain(_) =>
    case Exit(_) =>
    case ExitIf(_) =>
    case IfThen(i, thn, close) => PartsOf(i, Flatten(thn), close); ModelledFlattens(thn);
    case Repeat(i, body, close) => PartsOf(i, Flatten(body), close); ModelledFlattens(body);
    case IfElse(i, thn, other, els, close) =>
      PartsModelled([i] + Flatten(thn) + [other] + Flatten(els), [close]);
      PartsModelled([i] + Flatten(thn) + [other], Flatten(els));
      PartsOf(i, Flatten(thn), other);
      assert [close][0] == close;
      ModelledFlattens(thn);
      ModelledFlattens(els);
  }

  lemma {:induction false} PartsOf(x: Instruction, f: seq<Instruction>, y: Instruction)
    requires AllModelled([x] + f + [y])
    ensures Modelled(x) && AllModelled(f) && Modelled(y)
  {
    PartsModelled([x] + f, [y]);
    PartsModelled([x], f);
    assert [x][0] == x && [y][0] == y;
  }

  lemma {:induction false} LinedPrints(lines: seq<Line>, rest: Code)
    requires forall k :: 0 <= k < |lines| ==> IsSimple(lines[k])
    ensures Print(Lined(lines, rest)) == lines + Print(rest)
    ensures WellFormed(rest) ==> WellFormed(Lined(lines, rest))
  {
    if lines != [] {
      LinedPrints(lines[1..], rest);
      assert lines == [lines[0]] + lines[1..];
    }
  }

  lemma {:induction false} EmittedSimple(p: Program, i: Instruction)
    requires Modelled(i) && !IsFlow(i.op)
    ensures forall k :: 0 <= k < |EmitOne(p, i)| ==> IsSimple(EmitOne(p, i)[k])
  {
    hide NameOf, Operand, RhsOf, Fitted;
  }

  /** The lines emitted for the instructions of a tree are the tree's block written out. */
  lemma {:induction false} EmittedIsPrinted(p: Program, b: Block)
    requires ModelledBlock(b)
    ensures AllModelled(Flatten(b))
    ensures EmitAll(p, Flatten(b)) == Print(EmitBlock(p, b)) && WellFormed(EmitBlock(p, b))
    decreases b, 2
  {
    match b
    case Nil =>
    case Cons(s, rest) =>
      hide EmitStmt, EmitAll, FlattenStmt;
      EmittedIsPrinted(p, rest);
      EmittedStmtIsPrinted(p, s, EmitBlock(p, rest));
      EmitAllJoin(p, FlattenStmt(s), Flatten(rest));
  }

  lemma {:induction false} EmittedFlow(p: Program, i: Instruction)
    requires Modelled(i) && IsFlow(i.op)
    ensures EmitOne(p, i) == [EmitFlow(p, i)]
    ensures i.op.EndIf? || i.op.EndRep? ==> EmitFlow(p, i) == Close
    ensures i.op.Else? ==> EmitFlow(p, i) == ElseMid
    ensures i.op.If? || i.op.Ifc? ==> EmitFlow(p, i).IfOpen?
    ensures i.op.Rep? ==> EmitFlow(p, i).ForOpen?
    ensures i.op.Break? || i.op.BreakC? ==> IsSimple(EmitFlow(p, i))
  {
    hide Operand;
  }

  lemma {:induction false} Emit3(p: Program, x: Instruction, f: seq<Instruction>, y: Instruction)
    requires Modelled(x) && AllModelled(f) && Modelled(y) && IsFlow(x.op) && IsFlow(y.op)
    ensures AllModelled([x] + f + [y])
    ensures EmitAll(p, [x] + f + [y]) == [EmitFlow(p, x)] + EmitAll(p, f) + [EmitFlow(p, y)]
  {
    hide Modelled, EmitOne, EmitAll, EmitFlow;
    EmittedFlow(p, x);
    EmittedFlow(p, y);
    EmitAllOne(p, x);
    EmitAllOne(p, y);
    EmitAllJoin(p, [x], f);
    EmitAllJoin(p, [x] + f, [y]);
  }

  lemma {:induction false} EmittedStmtIsPrinted(p: Program, s: Stmt, rest: Code)
    requires ModelledStmt(s)
    ensures AllModelled(FlattenStmt(s))
    ensures Print(EmitStmt(p, s, rest)) == EmitAll(p, FlattenStmt(s)) + Print(rest)
    ensures WellFormed(rest) ==> WellFormed(EmitStmt(p, s, rest))
    decreases s, 1
  {
    if s.Plain? {
      EmitAllOne(p, s.i);
      EmittedSimple(p, s.i);
      LinedPrints(EmitOne(p, s.i), rest);
    } else {
      hide EmitNode, EmitAll, FlattenStmt, Modelled;
      EmittedNodeIsPrinted(p, s);
    }
  }

  lemma {:induction false} EmittedNodeIsPrinted(p: Program, s: Stmt)
    requires ModelledStmt(s) && !s.Plain?
    ensures AllModelled(FlattenStmt(s))
    ensures PrintNode(EmitNode(p, s)) == EmitAll(p, FlattenStmt(s)) && WellFormedNode(EmitNode(p, s))
    decreases s, 0
  {
    hide EmitFlow, EmitAll, Modelled, EmitOne, EmitBlock;
    EmittedFlow(p, s.i);
    match s
    case Exit(i) => EmitAllOne(p, i);
    case ExitIf(i) => EmitAllOne(p, i);
    case IfThen(i, thn, close) =>
      EmittedFlow(p, close);
      EmittedIsPrinted(p, thn);
      Emit3(p, i, Flatten(thn), close);
    case Repeat(i, body, close) =>
      EmittedFlow(p, close);
      EmittedIsPrinted(p, body);
      Emit3(p, i, Flatten(body), close);
    case IfElse(i, thn, other, els, close) =>
      EmittedFlow(p, other);
      EmittedFlow(p, close);
      EmittedIsPrinted(p, thn);
      EmittedIsPrinted(p, els);
      Emit3(p, i, Flatten(thn), other);
      EmitAllOne(p, close);
      EmitAllJoin(p, [i] + Flatten(thn) + [other], Flatten(els));
      EmitAllJoin(p, [i] + Flatten(thn) + [other] + Flatten(els), [close]);
  }

  // ---------------------------------------------------------------- running the block

  // The operands of a flow-control instruction can be named in Metal. A loop count is an
  // integer constant: Metal evaluates the bound before every pass.
  predicate FlowOk(p: Program, i: Instruction) {
    && (forall k :: 0 <= k < |i.src| ==> Plainly(p, i.src[k]) && ComponentTyped(p, i.src[k], 0))
    && (i.op.Rep? ==> |i.src| == 1 && i.src[0].kind == CONSTINT)
  }

  predicate Faithful(p: Program, i: Instruction) {
    Modelled(i) && if IsFlow(i.op) then FlowOk(p, i) else Translatable(p, i)
  }

  predicate AllFaithful(p: Program, code: seq<Instruction>) {
    forall k :: 0 <= k < |code| ==> Faithful(p, code[k])
  }

  ghost predicate Matches(p: Program, regs: Regs, env: Env) {
    Agrees(p, regs, env) && Narrow(p, regs)
  }

  ghost predicate IntsKept(regs: Regs, after: Regs) {
    forall n :: Get(after, IntConst(n)) == Get(regs, IntConst(n))
  }

  lemma {:induction false} PartsFaithful(p: Program, a: seq<Instruction>, b: seq<Instruction>)
    requires AllFaithful(p, a + b)
    ensures AllFaithful(p, a) && AllFaithful(p, b)
  {
    hide Faithful;
    forall k | 0 <= k < |a| ensures Faithful(p, a[k]) { assert (a + b)[k] == a[k]; }
    forall k | 0 <= k < |b| ensures Faithful(p, b[k]) { assert (a + b)[|a| + k] == b[k]; }
  }

  lemma {:induction false} Faithful3(p: Program, x: Instruction, f: seq<Instruction>, y: Instruction)
    requires AllFaithful(p, [x] + f + [y])
    ensures Faithful(p, x) && AllFaithful(p, f)
  {
    hide Faithful;
    PartsFaithful(p, [x] + f, [y]);
    PartsFaithful(p, [x], f);
    assert [x][0] == x;
  }

  lemma {:induction false} ScalarOperand(m: Math, p: Program, regs: Regs, env: Env, i: Instruction, k: nat)
    requires Matches(p, regs, env) && FlowOk(p, i) && k < |i.src|
    ensures Eval(m, env, Operand(p, i.src[k], 1)) == Some([Scalar(m, p, regs, i, k)])
  {
    ScalarMeans(m, p, regs, env, i.src[k], Neg);
  }

  lemma {:induction false} ConditionMeans(m: Math, p: Program, regs: Regs, env: Env, i: Instruction)
    requires Matches(p, regs, env) && Faithful(p, i) && (i.op.If? || i.op.Ifc? || i.op.BreakC?)
    ensures var l := EmitFlow(p, i);
      && (i.op.BreakC? ==> l.BreakIf?) && (!i.op.BreakC? ==> l.IfOpen?)
      && Test(m, env, l.cmp, l.a, l.b) == Some(Condition(m, p, regs, i))
  {
    ConditionOperands(p, i);
    hide Matches, Faithful, Modelled, FlowOk, Eval, Operand, Scalar, EmitFlow, Compare, CmpOf, Test;
    var x := Scalar(m, p, regs, i, 0);
    ScalarOperand(m, p, regs, env, i, 0);
    if i.op.If? {
      NumMeans(m, env, 0.0);
      TestMeans(m, env, Ne, Operand(p, i.src[0], 1), Num(0.0), x, 0.0);
    } else {
      ScalarOperand(m, p, regs, env, i, 1);
      var y := Scalar(m, p, regs, i, 1);
      TestMeans(m, env, CmpOf(i.comparison), Operand(p, i.src[0], 1), Operand(p, i.src[1], 1), x, y);
      ComparisonMeans(i.comparison, x, y);
    }
  }

  lemma {:induction false} ConditionOperands(p: Program, i: Instruction)
    requires Faithful(p, i) && (i.op.If? || i.op.Ifc? || i.op.BreakC?)
    ensures Modelled(i) && FlowOk(p, i) && |i.src| >= 1 && (!i.op.If? ==> |i.src| >= 2)
    ensures var a := Operand(p, i.src[0], 1);
      EmitFlow(p, i) == if i.op.If? then IfOpen(Ne, a, Num(0.0))
                        else if i.op.Ifc? then IfOpen(CmpOf(i.comparison), a, Operand(p, i.src[1], 1))
                        else BreakIf(CmpOf(i.comparison), a, Operand(p, i.src[1], 1))
  {
    hide FlowOk, Operand;
  }

  lemma {:induction false} TestMeans(m: Math, env: Env, cmp: Cmp, a: Expr, b: Expr, x: real, y: real)
    requires Eval(m, env, a) == Some([x]) && Eval(m, env, b) == Some([y])
    ensures Test(m, env, cmp, a, b) == Some(Holds(cmp, x, y))
  {
    hide Eval;
  }

  lemma {:induction false} ComparisonMeans(comparison: nat, x: real, y: real)
    ensures Holds(CmpOf(comparison), x, y) == Compare(comparison, x, y)
  {
  }

  lemma {:induction false} LinedRuns(m: Math, env: Env, lines: seq<Line>, rest: Code, fuel: nat)
    requires ExecLines(m, env, lines).Some?
    ensures Exec(m, env, Lined(lines, rest), fuel) == Exec(m, ExecLines(m, env, lines).value, rest, fuel)
    decreases |lines|
  {
    hide ExecAssign;
    if lines != [] {
      LinedRuns(m, ExecAssign(m, env, lines[0]).value, lines[1..], rest, fuel);
    }
  }

  lemma {:induction false} PlainKeepsInts(m: Math, p: Program, regs: Regs, i: Instruction)
    requires Translatable(p, i)
    ensures IntsKept(regs, StepRegs(m, p, regs, i))
  {
    hide Channel, LocOf, RhsTyped, ChannelsMatch, ComponentTyped;
  }

  lemma {:induction false} BlockRuns(m: Math, p: Program, regs: Regs, env: Env, b: Block) returns (after: Env, fuel: nat)
    requires ModelledBlock(b) && AllFaithful(p, Flatten(b)) && Matches(p, regs, env)
    ensures forall k: nat :: k >= fuel ==>
      Exec(m, env, EmitBlock(p, b), k) == Ended(after, ExecBlock(m, p, regs, b).broke)
    ensures Matches(p, ExecBlock(m, p, regs, b).regs, after)
    ensures IntsKept(regs, ExecBlock(m, p, regs, b).regs)
    decreases b, 3, 0
  {
    hide Matches, Faithful, EmitStmt, ExecStmt, FlattenStmt;
    match b
    case Nil => after, fuel := env, 0;
    case Cons(s, rest) =>
      PartsFaithful(p, FlattenStmt(s), Flatten(rest));
      var mid, f1 := StmtRuns(m, p, regs, env, s, EmitBlock(p, rest));
      var d := ExecStmt(m, p, regs, s);
      if d.broke {
        after, fuel := mid, f1;
      } else {
        var end, f2 := BlockRuns(m, p, d.regs, mid, rest);
        after, fuel := end, f1 + f2;
      }
  }

  // A statement's code, then the code that follows it.
  ghost predicate Continues(m: Math, env: Env, code: Code, fuel: nat, after: Env, broke: bool, rest: Code) {
    forall k: nat :: k >= fuel ==>
      Exec(m, env, code, k) == if broke then Ended(after, true) else Exec(m, after, rest, k)
  }

  lemma {:induction false} PlainRuns(m: Math, p: Program, regs: Regs, env: Env, s: Stmt, rest: Code) returns (after: Env)
    requires s.Plain? && ModelledStmt(s) && Faithful(p, s.i) && Matches(p, regs, env)
    ensures Continues(m, env, EmitStmt(p, s, rest), 0, after, false, rest)
    ensures Matches(p, StepRegs(m, p, regs, s.i), after) && IntsKept(regs, StepRegs(m, p, regs, s.i))
  {
    hide Translatable, Agrees, Narrow, EmitOne, FlowOk, StepRegs;
    PlainKeepsInts(m, p, regs, s.i);
    after := InstructionRuns(m, p, regs, env, s.i);
    forall k: nat ensures Exec(m, env, EmitStmt(p, s, rest), k) == Exec(m, after, rest, k) {
      LinedRuns(m, env, EmitOne(p, s.i), rest, k);
    }
  }

  lemma {:induction false} StmtRuns(m: Math, p: Program, regs: Regs, env: Env, s: Stmt, rest: Code)
    returns (after: Env, fuel: nat)
    requires ModelledStmt(s) && AllFaithful(p, FlattenStmt(s)) && Matches(p, regs, env)
    ensures Continues(m, env, EmitStmt(p, s, rest), fuel, after, ExecStmt(m, p, regs, s).broke, rest)
    ensures Matches(p, ExecStmt(m, p, regs, s).regs, after)
    ensures IntsKept(regs, ExecStmt(m, p, regs, s).regs)
    decreases s, 2, 0
  {
    hide Matches, Faithful, EmitNode, Executable, Execute, Condition;
    assert FlattenStmt(s)[0] == s.i;
    assert Faithful(p, s.i);
    if s.Plain? {
      after := PlainRuns(m, p, regs, env, s, rest);
      fuel := 0;
    } else {
      after, fuel := NodeRuns(m, p, regs, env, s);
      forall k: nat | k >= fuel
        ensures Exec(m, env, EmitStmt(p, s, rest), k)
          == if ExecStmt(m, p, regs, s).broke then Ended(after, true) else Exec(m, after, rest, k)
      {
        ThenRuns(m, env, EmitNode(p, s), rest, k);
      }
    }
  }

  lemma {:induction false} ThenRuns(m: Math, env: Env, node: Node, rest: Code, k: nat)
    ensures var r := ExecNode(m, env, node, k);
      Exec(m, env, Then(node, rest), k) == if r.Stuck? || r.broke then r else Exec(m, r.env, rest, k)
  {
  }

  // The code of a control statement.
  ghost predicate Finishes(m: Math, env: Env, node: Node, fuel: nat, after: Env, broke: bool) {
    forall k: nat :: k >= fuel ==> ExecNode(m, env, node, k) == Ended(after, broke)
  }

  lemma {:induction false} NodeRuns(m: Math, p: Program, regs: Regs, env: Env, s: Stmt) returns (after: Env, fuel: nat)
    requires ModelledStmt(s) && !s.Plain? && AllFaithful(p, FlattenStmt(s)) && Matches(p, regs, env)
    ensures Finishes(m, env, EmitNode(p, s), fuel, after, ExecStmt(m, p, regs, s).broke)
    ensures Matches(p, ExecStmt(m, p, regs, s).regs, after)
    ensures IntsKept(regs, ExecStmt(m, p, regs, s).regs)
    decreases s, 1, 0
  {
    hide Matches, Faithful, EmitFlow, Condition, Modelled, EmitBlock, Test, Scalar, Truncate;
    assert FlattenStmt(s)[0] == s.i;
    assert Faithful(p, s.i);
    if s.Exit? || s.ExitIf? {
      after, fuel := env, 0;
      forall k: nat ensures ExecNode(m, env, EmitNode(p, s), k) == Ended(env, ExecStmt(m, p, regs, s).broke) {
        ExitRuns(m, p, regs, env, s, k);
      }
    } else if s.Repeat? {
      Faithful3(p, s.i, Flatten(s.body), s.close);
      EmittedRepeat(p, s.i);
      after, fuel := LoopRuns(m, p, regs, env, s.i, s.body, 0);
      forall k: nat | k >= fuel ensures ExecNode(m, env, EmitNode(p, s), k) == Ended(after, false) {
        RepeatStep(m, p, env, s, k);
      }
    } else {
      after, fuel := BranchRuns(m, p, regs, env, s);
    }
  }

  lemma {:induction false} ExitRuns(m: Math, p: Program, regs: Regs, env: Env, s: Stmt, k: nat)
    requires ModelledStmt(s) && (s.Exit? || s.ExitIf?) && Faithful(p, s.i) && Matches(p, regs, env)
    ensures ExecNode(m, env, EmitNode(p, s), k) == Ended(env, ExecStmt(m, p, regs, s).broke)
    ensures ExecStmt(m, p, regs, s).regs == regs
  {
    hide Matches, Faithful, EmitFlow, Condition, Modelled, Test;
    if s.Exit? {
      EmittedExit(p, s.i);
    } else {
      ConditionMeans(m, p, regs, env, s.i);
    }
  }

  lemma {:induction false} RepeatStep(m: Math, p: Program, env: Env, s: Stmt, k: nat)
    requires s.Repeat? && ModelledStmt(s) && EmitFlow(p, s.i).ForOpen?
    ensures ExecNode(m, env, EmitNode(p, s), k) == ExecFor(m, env, EmitFlow(p, s.i).bound, EmitBlock(p, s.body), 0, k)
  {
    hide EmitFlow, ExecFor;
  }

  lemma {:induction false} BranchRuns(m: Math, p: Program, regs: Regs, env: Env, s: Stmt) returns (after: Env, fuel: nat)
    requires ModelledStmt(s) && (s.IfThen? || s.IfElse?) && AllFaithful(p, FlattenStmt(s)) && Matches(p, regs, env)
    ensures Finishes(m, env, EmitNode(p, s), fuel, after, ExecStmt(m, p, regs, s).broke)
    ensures Matches(p, ExecStmt(m, p, regs, s).regs, after)
    ensures IntsKept(regs, ExecStmt(m, p, regs, s).regs)
    decreases s, 0, 0
  {
    hide Matches, Faithful, EmitFlow, Condition, Modelled, EmitBlock, Test;
    BranchFaithful(p, s);
    ConditionMeans(m, p, regs, env, s.i);
    if Condition(m, p, regs, s.i) {
      after, fuel := BlockRuns(m, p, regs, env, s.thn);
    } else if s.IfElse? {
      after, fuel := BlockRuns(m, p, regs, env, s.els);
    } else {
      after, fuel := env, 0;
    }
    forall k: nat | k >= fuel
      ensures ExecNode(m, env, EmitNode(p, s), k) == Ended(after, ExecStmt(m, p, regs, s).broke)
    {
      BranchStep(m, p, regs, env, s, k);
    }
  }

  lemma {:induction false} BranchStep(m: Math, p: Program, regs: Regs, env: Env, s: Stmt, k: nat)
    requires ModelledStmt(s) && (s.IfThen? || s.IfElse?)
    requires var l := EmitFlow(p, s.i);
      l.IfOpen? && Test(m, env, l.cmp, l.a, l.b) == Some(Condition(m, p, regs, s.i))
    ensures ExecNode(m, env, EmitNode(p, s), k)
         == if Condition(m, p, regs, s.i) then Exec(m, env, EmitBlock(p, s.thn), k)
            else if s.IfElse? then Exec(m, env, EmitBlock(p, s.els), k) else Ended(env, false)
    ensures ExecStmt(m, p, regs, s)
         == if Condition(m, p, regs, s.i) then ExecBlock(m, p, regs, s.thn)
            else if s.IfElse? then ExecBlock(m, p, regs, s.els) else Done(regs, false)
  {
    hide EmitFlow, Test, Condition;
  }

  lemma {:induction false} BranchFaithful(p: Program, s: Stmt)
    requires (s.IfThen? || s.IfElse?) && AllFaithful(p, FlattenStmt(s))
    ensures Faithful(p, s.i) && AllFaithful(p, Flatten(s.thn)) && (s.IfElse? ==> AllFaithful(p, Flatten(s.els)))
  {
    hide Faithful, Flatten, AllFaithful;
    if s.IfThen? {
      Faithful3(p, s.i, Flatten(s.thn), s.close);
    } else {
      PartsFaithful(p, [s.i] + Flatten(s.thn) + [s.other] + Flatten(s.els), [s.close]);
      PartsFaithful(p, [s.i] + Flatten(s.thn) + [s.other], Flatten(s.els));
      Faithful3(p, s.i, Flatten(s.thn), s.other);
    }
  }

  lemma {:induction false} EmittedExit(p: Program, i: Instruction)
    requires i.op.Break? && Modelled(i)
    ensures EmitFlow(p, i) == BreakLine
  {
  }

  lemma {:induction false} EmittedRepeat(p: Program, i: Instruction)
    requires i.op.Rep? && Modelled(i)
    ensures |i.src| == 1 && EmitFlow(p, i) == ForOpen(Operand(p, i.src[0], 1))
  {
  }

  lemma {:induction false} CountKept(m: Math, p: Program, regs: Regs, after: Regs, i: Instruction)
    requires Faithful(p, i) && i.op.Rep? && IntsKept(regs, after)
    ensures Scalar(m, p, after, i, 0) == Scalar(m, p, regs, i, 0)
  {
    assert LocOf(p, i.src[0]) == Some(IntConst(i.src[0].number));
    assert Get(after, IntConst(i.src[0].number)) == Get(regs, IntConst(i.src[0].number));
  }

  // The loop from pass j on.
  lemma {:induction false} LoopBound(m: Math, p: Program, regs: Regs, env: Env, i: Instruction)
    requires Matches(p, regs, env) && Faithful(p, i) && i.op.Rep? && |i.src| == 1
    ensures Eval(m, env, Operand(p, i.src[0], 1)) == Some([Scalar(m, p, regs, i, 0)])
  {
    hide Matches, Eval, Operand, Scalar;
    ScalarOperand(m, p, regs, env, i, 0);
  }

  lemma {:induction false} LoopRuns(m: Math, p: Program, regs: Regs, env: Env, i: Instruction, body: Block, j: nat)
    returns (after: Env, fuel: nat)
    requires i.op.Rep? && Faithful(p, i) && |i.src| == 1
    requires ModelledBlock(body) && AllFaithful(p, Flatten(body)) && Matches(p, regs, env)
    ensures var left := Truncate(Scalar(m, p, regs, i, 0)) - j;
      && (forall k: nat :: k >= fuel ==>
            ExecFor(m, env, Operand(p, i.src[0], 1), EmitBlock(p, body), j, k) == Ended(after, false))
      && Matches(p, ExecLoop(m, p, regs, body, left), after)
      && IntsKept(regs, ExecLoop(m, p, regs, body, left))
    decreases body, 4, Truncate(Scalar(m, p, regs, i, 0)) - j
  {
    hide Matches, Faithful, EmitBlock, Operand, Eval, Scalar, Truncate, ExecBlock, Exec, Flatten, AllFaithful, ModelledBlock;
    LoopBound(m, p, regs, env, i);
    var left := Truncate(Scalar(m, p, regs, i, 0)) - j;
    if left <= 0 {
      after, fuel := env, 0;
    } else {
      var d := ExecBlock(m, p, regs, body);
      var mid, f1 := BlockRuns(m, p, regs, env, body);
      if d.broke {
        after, fuel := mid, f1 + 1;
      } else {
        CountKept(m, p, regs, d.regs, i);
        var end, f2 := LoopRuns(m, p, d.regs, mid, i, body, j + 1);
        after, fuel := end, f1 + f2 + 1;
      }
    }
  }

  // A function body as text: it runs only if it compiles, that is, if its lines read as a block,
  // every variable they name is declared, and nothing is declared twice.
  ghost function RunFunction(m: Math, p: Program, env: Env, lines: seq<Line>, fuel: nat): Result {
    match ReadAll(lines)
    case None => Stuck
    case Some(code) => if Compiles(p, lines) then Exec(m, env, code, fuel) else Stuck
  }

  // The block level: what the emitted lines do, given that their variables exist.
  lemma {:induction false} BlockPreservesMeaning(m: Math, p: Program, regs: Regs, env: Env)
    returns (code: Code, steps: nat, end: Regs, after: Env, fuel: nat)
    requires Balanced(p.instructions) && AllFaithful(p, p.instructions)
    requires Agrees(p, regs, env) && Narrow(p, regs)
    ensures AllModelled(p.instructions) && ReadAll(EmitAll(p, p.instructions)) == Some(code)
    ensures Run(m, p, p.instructions, Machine(0, regs, []), steps) == Machine(|p.instructions|, end, [])
    ensures forall k: nat :: k >= fuel ==> Exec(m, env, code, k) == Ended(after, false)
    ensures Agrees(p, end, after)
  {
    var tree := Tree(p.instructions);
    TreeFlattens(p.instructions);
    assert AllModelled(p.instructions);
    hide Agrees, Narrow, Faithful, Modelled, Flatten, Shaped, Balanced, Run;
    ShapedAnywhere(tree);
    ModelledFlattens(tree);
    EmittedIsPrinted(p, tree);
    code := EmitBlock(p, tree);
    PrintReads(code);
    steps := FlatMachineFollowsTree(m, p, p.instructions, regs);
    end := ExecBlock(m, p, regs, tree).regs;
    BreaksOnlyInLoops(m, p, regs, tree);
    after, fuel := BlockRuns(m, p, regs, env, tree);
  }

  /** The main result. For a balanced program whose instructions meet the channel and typing
      conditions and whose registers have variables, started in matching states: the emitted
      function compiles and runs with enough fuel to its end; the flat machine halts at the end
      of the program; and the Metal variables then hold what the machine's registers hold. */
  lemma {:induction false} TranslationPreservesMeaning(m: Math, p: Program, regs: Regs, env: Env)
    returns (steps: nat, end: Regs, after: Env, fuel: nat)
    requires Balanced(p.instructions) && AllFaithful(p, p.instructions) && Compilable(p)
    requires Agrees(p, regs, env) && Narrow(p, regs)
    ensures AllModelled(p.instructions)
    ensures Run(m, p, p.instructions, Machine(0, regs, []), steps) == Machine(|p.instructions|, end, [])
    ensures forall k: nat :: k >= fuel ==> RunFunction(m, p, env, EmitAll(p, p.instructions), k) == Ended(after, false)
    ensures Agrees(p, end, after)
  {
    hide Agrees, Narrow, Faithful, Balanced, Run, Compilable, Compiles, Exec, EmitAll;
    var code: Code;
    code, steps, end, after, fuel := BlockPreservesMeaning(m, p, regs, env);
    CompilesExactly(p);
  }

  /** The condition is exact: without it the emitted function never runs, whatever it starts from. */
  lemma {:induction false} UncompilableNeverRuns(m: Math, p: Program, env: Env, fuel: nat)
    requires AllModelled(p.instructions) && !Compilable(p)
    ensures RunFunction(m, p, env, EmitAll(p, p.instructions), fuel) == Stuck
  {
    CompilesExactly(p);
    hide Compilable, Compiles, Exec, EmitAll, ReadAll;
  }

  lemma {:induction false} FaithfulIsPlain(p: Program, i: Instruction)
    requires Faithful(p, i)
    ensures Modelled(i) && PlainRegisters(p, i)
  {
    forall r | NamesRegister(p, i, r) ensures Plainly(p, r) {
      hide LocOf, RhsTyped, ChannelsMatch, ComponentTyped, Mentions;
    }
  }

  /** For every bytecode that parses to a balanced program within the channel and typing
      conditions: its translation runs as the program does if no declaration repeats a field and
      every register named has a variable, and not at all otherwise. */
  lemma {:induction false} TranslatedBytecode(m: Math, b: seq<u32>, p: Program, regs: Regs, env: Env)
    returns (steps: nat, end: Regs, after: Env, fuel: nat)
    requires ParseSpec(b) == Parsed(p) && Balanced(p.instructions) && AllFaithful(p, p.instructions)
    requires Agrees(p, regs, env) && Narrow(p, regs)
    ensures AllModelled(p.instructions)
    ensures Run(m, p, p.instructions, Machine(0, regs, []), steps) == Machine(|p.instructions|, end, [])
    ensures Agrees(p, end, after)
    ensures forall k: nat :: k >= fuel ==>
      RunFunction(m, p, env, EmitAll(p, p.instructions), k) ==
      if NoRepeats(Fields(p, p.dcls)) && forall j :: 0 <= j < |p.instructions| ==> AllParsed(p, p.instructions[j])
      then Ended(after, false) else Stuck
  {
    forall k | 0 <= k < |p.instructions| ensures Modelled(p.instructions[k]) && PlainRegisters(p, p.instructions[k]) {
      FaithfulIsPlain(p, p.instructions[k]);
    }
    hide Agrees, Narrow, Faithful, Balanced, Run, Compilable, Compiles, Exec, EmitAll, ParseSpec, PlainRegisters, AllParsed,
      NoRepeats, Modelled, ReadAll;
    var code: Code;
    code, steps, end, after, fuel := BlockPreservesMeaning(m, p, regs, env);
    CompilesForParsed(b, p);
  }

  /** A parsed, balanced shader within the conditions whose translation does not compile: it
      writes oC1, then oC0, and oC1 is not declared. */
  lemma {:induction false} UndeclaredColor(m: Math, env: Env, fuel: nat) returns (b: seq<u32>, p: Program)
    ensures ParseSpec(b) == Parsed(p) && Balanced(p.instructions) && AllFaithful(p, p.instructions)
    ensures !Compilable(p) && AllModelled(p.instructions)
    ensures RunFunction(m, p, env, EmitAll(p, p.instructions), fuel) == Stuck
  {
    b, p := ColorOutputOrderMatters();
    MovesAreFaithful(p);
    UncompilableMoves(p);
    hide ParseSpec, Faithful, Compilable, RunFunction;
    UncompilableNeverRuns(m, p, env, fuel);
  }

  lemma {:induction false} MovesAreFaithful(p: Program)
    requires p.instructions == [MoveToColor(1), MoveToColor(0)]
    ensures Balanced(p.instructions) && AllFaithful(p, p.instructions) && AllModelled(p.instructions)
  {
    MoveIsFaithful(p, 1);
    MoveIsFaithful(p, 0);
    hide Faithful;
    TwoPlain(MoveToColor(1), MoveToColor(0));
  }

  lemma {:induction false} TwoPlain(i: Instruction, j: Instruction)
    requires !IsFlow(i.op) && !IsFlow(j.op)
    ensures Balanced([i, j])
  {
    var rest := Cons(Plain(j), Nil);
    var tree := Cons(Plain(i), rest);
    assert Flatten(rest) == FlattenStmt(Plain(j)) + Flatten(Nil) == [j];
    assert Flatten(tree) == FlattenStmt(Plain(i)) + Flatten(rest) == [i, j];
    assert Shaped(Nil, false) && ShapedStmt(Plain(i), false) && ShapedStmt(Plain(j), false);
    assert Shaped(rest, false);
    assert Shaped(tree, false);
    hide Flatten, FlattenStmt, Shaped, Balanced;
    BalancedIffTree([i, j]);
  }

  lemma {:induction false} MoveIsFaithful(p: Program, n: RegNumber)
    ensures Faithful(p, MoveToColor(n)) && Modelled(MoveToColor(n))
  {
  }

  lemma {:induction false} UncompilableMoves(p: Program)
    requires p.instructions == [MoveToColor(1), MoveToColor(0)] && OC(1) !in Declared(p)
    ensures !Compilable(p)
  {
    var i := p.instructions[0];
    assert NameOf(p, i.dst) == OC(1) && OC(1) in InstructionNames(p, i);
    FieldsHold(p, p.dcls, OC(1));
    FixedNames(p, OC(1));
    DeclarationKinds(p, OC(1));
    hide Declared, Fields, FixedFields, DeclaresField, InstructionNames, Modelled;
    assert !Visible(p, OC(1));
    assert !InstructionVisible(p, i);
  }

  lemma {:induction false} ShapedAnywhere(b: Block)
    requires Shaped(b, false)
    ensures Shaped(b, true)
    decreases b
  {
    match b
    case Nil =>
    case Cons(s, rest) => ShapedStmtAnywhere(s); ShapedAnywhere(rest);
  }

  lemma {:induction false} ShapedStmtAnywhere(s: Stmt)
    requires ShapedStmt(s, false)
    ensures ShapedStmt(s, true)
    decreases s
  {
    match s
    case IfThen(_, thn, _) => ShapedAnywhere(thn);
    case IfElse(_, thn, _, els, _) => ShapedAnywhere(thn); ShapedAnywhere(els);
    case _ =>
  }

  // ---------------------------------------------------------------- exactness

  // A translated instruction and the instruction agree from every pair of matching states.
  ghost predicate AlwaysAgree(m: Math, p: Program, i: Instruction)
    requires Modelled(i)
  {
    forall regs, env :: Matches(p, regs, env) ==> AgreeFrom(m, p, i, regs, env)
  }

  ghost predicate AgreeFrom(m: Math, p: Program, i: Instruction, regs: Regs, env: Env)
    requires Modelled(i)
  {
    var r := ExecLines(m, env, EmitOne(p, i));
    r.Some? && Agrees(p, StepRegs(m, p, regs, i), r.value)
  }

  // The operations on reals that this model interprets and that tell their operands apart.
  predicate TellsApart(op: Op) {
    op.Mov? || op.Abs? || op.Frc? || op.Add? || op.Sub? || op.Mul? || op.Min? || op.Max?
  }

  // Such an instruction without modifiers, on different four-component registers.
  predicate PlainArithmetic(p: Program, i: Instruction) {
    && TellsApart(i.op) && Arithmetic(p, i) && MaskCount(i.dst.writeMask) > 0 && !Saturates(i.dst)
    && (forall k :: 0 <= k < |i.src| ==> i.src[k].srcMod == 0 && AvailableWidth(p, i.src[k]) == 4)
    && (|i.src| == 2 ==> LocOf(p, i.src[0]) != LocOf(p, i.src[1]))
  }

  // An operand that lets the other one through.
  function Neutral(op: Op): real {
    match op
    case Mul => 1.0
    case Min => 4.0
    case Max => -1.0
    case _ => 0.0
  }

  const APART := V4(0.0, 0.25, 0.5, 0.75)

  // Four different numbers in the register of source s, neutral ones in the other.
  function Held(op: Op, s: nat, k: nat): V4 {
    if k == s then APART else V4(Neutral(op), Neutral(op), Neutral(op), Neutral(op))
  }

  function Telltale(p: Program, i: Instruction, s: nat): (Regs, Env)
    requires SourcesExist(p, i) && 1 <= |i.src| <= 2
  {
    var l0 := LocOf(p, i.src[0]).value;
    var v0 := Held(i.op, s, 0);
    var width := n => VariableWidth(p, n);
    if |i.src| == 1 then (map[l0 := v0], Env(map[LocName(p, l0) := v0], width))
    else
      var l1 := LocOf(p, i.src[1]).value;
      var v1 := Held(i.op, s, 1);
      (map[l0 := v0][l1 := v1], Env(map[LocName(p, l0) := v0][LocName(p, l1) := v1], width))
  }

  lemma {:induction false} TelltaleAgrees(p: Program, i: Instruction, s: nat, l: Loc)
    requires SourcesExist(p, i) && 1 <= |i.src| <= 2
    ensures var t := Telltale(p, i, s);
      Get(t.0, l) == Value(t.1, LocName(p, l))
  {
    NamesAreDistinct(p, LocOf(p, i.src[0]).value, l);
    if |i.src| == 2 {
      NamesAreDistinct(p, LocOf(p, i.src[1]).value, l);
      NamesAreDistinct(p, LocOf(p, i.src[0]).value, LocOf(p, i.src[1]).value);
    }
    hide LocName, LocOf, Held;
  }

  lemma {:induction false} InputIsSource(p: Program, r: Register, n: nat)
    ensures LocOf(p, r) == Some(Input(n)) ==> r.kind == INPUT && r.number == n
  {
    hide FindOutputDcl;
  }

  lemma {:induction false} TelltaleMatches(p: Program, i: Instruction, s: nat)
    requires PlainArithmetic(p, i) && 1 <= |i.src| <= 2
    ensures var t := Telltale(p, i, s);
      Matches(p, t.0, t.1)
  {
    var t := Telltale(p, i, s);
    forall l ensures Get(t.0, l) == Value(t.1, LocName(p, l)) { TelltaleAgrees(p, i, s, l); }
    forall k | 0 <= k < |i.src| && i.src[k].kind == INPUT ensures VariableWidth(p, i.src[k].number) == 4 {
      AvailableExactly(p, i.src[k]);
    }
    hide LocName, DeclaredWidth, VariableWidth, Held, LocOf;
    forall n: nat, lane: Lane ensures ZeroBeyond(p, t.0, n, lane) {
      InputIsSource(p, i.src[0], n);
      if |i.src| == 2 { InputIsSource(p, i.src[1], n); }
    }
  }

  // What the registers of a telltale state supply.
  lemma {:induction false} TelltaleChannel(m: Math, p: Program, i: Instruction, s: nat, c: Lane)
    requires PlainArithmetic(p, i) && 1 <= |i.src| <= 2 && s < |i.src|
    ensures var x := APART.At(i.src[s].swizzle.At(c));
      Channel(m, p, Telltale(p, i, s).0, i, c) == if i.op.Sub? && s == 1 then -x else x
  {
    var regs := Telltale(p, i, s).0;
    TelltaleSource(m, p, i, s, 0, c);
    if |i.src| == 2 { TelltaleSource(m, p, i, s, 1, c); }
    hide LocOf, Telltale, Held, Source, InputWidth;
    var n := Neutral(i.op);
    var x := APART.At(i.src[s].swizzle.At(c));
    assert 0.0 <= x < 1.0;
    CombineNeutral(m, i.op, x);
  }

  lemma {:induction false} TelltaleSource(m: Math, p: Program, i: Instruction, s: nat, k: nat, c: Lane)
    requires PlainArithmetic(p, i) && 1 <= |i.src| <= 2 && k < |i.src|
    ensures Source(m, p, Telltale(p, i, s).0, i.src[k], c) == if k == s then APART.At(i.src[k].swizzle.At(c)) else Neutral(i.op)
  {
    hide LocOf, LocName;
  }

  lemma {:induction false} CombineNeutral(m: Math, op: Op, x: real)
    requires TellsApart(op) && 0.0 <= x < 1.0
    ensures SourceCount(op) == 1 ==> Combine(m, op, x, 0.0, 0.0) == x
    ensures SourceCount(op) == 2 ==> Combine(m, op, x, Neutral(op), 0.0) == x
    ensures SourceCount(op) == 2 ==> Combine(m, op, Neutral(op), x, 0.0) == if op.Sub? then -x else x
  {
  }

  /** The channel condition is exact for moves, absolute values, fractions, sums, differences,
      products, minima and maxima: such an instruction means the same in Metal, from every state,
      if and only if every written channel's source components are the ones its rank picks. */
  lemma {:induction false} ArithmeticExact(m: Math, p: Program, i: Instruction)
    requires PlainArithmetic(p, i)
    ensures Modelled(i) && (AlwaysAgree(m, p, i) <==> ChannelsMatch(i))
  {
    PlainTyped(p, i);
    if ChannelsMatch(i) {
      forall regs, env | Matches(p, regs, env) ensures AgreeFrom(m, p, i, regs, env) {
        var after := InstructionRuns(m, p, regs, env, i);
      }
    } else {
      var c: Lane :| Selected(i.dst.writeMask, c) && !ChannelMatches(i, c);
      ChannelsDiffer(m, p, i, c);
    }
  }

  lemma {:induction false} PlainTyped(p: Program, i: Instruction)
    requires PlainArithmetic(p, i)
    ensures RhsTyped(p, i) && Modelled(i) && (ChannelsMatch(i) ==> Translatable(p, i)) && 1 <= |i.src| <= 2
    ensures Pointwise(i.op) && !IsScalarOp(i.op) && Arity(i.op) == |i.src|
  {
    hide LocOf, InputWidth, ChannelMatches;
  }

  // What lands in channel c on either side.
  lemma {:induction false} ChannelLands(m: Math, p: Program, regs: Regs, env: Env, i: Instruction, c: Lane)
    requires PlainArithmetic(p, i) && Modelled(i) && RhsTyped(p, i) && Matches(p, regs, env) && Selected(i.dst.writeMask, c)
    ensures var l, r := LocOf(p, i.dst).value, ExecLines(m, env, EmitOne(p, i));
      && r.Some? && Value(r.value, LocName(p, l)).At(c) == Channel(m, p, regs, i, Picked(i, Rank(i.dst.writeMask, c)))
      && Get(StepRegs(m, p, regs, i), l).At(c) == Channel(m, p, regs, i, c)
  {
    hide Matches, LocName, RhsTyped, EmitOne, ExecLines, Rank, Selected, MaskCount, Channel;
    MatchesMeans(p, regs, env);
    ArithmeticLine(m, p, regs, env, i);
    hide Agrees, Narrow, LocOf;
  }

  lemma {:induction false} MatchesMeans(p: Program, regs: Regs, env: Env)
    requires Matches(p, regs, env)
    ensures Agrees(p, regs, env) && Narrow(p, regs)
  {
  }

  lemma {:induction false} ChannelsDiffer(m: Math, p: Program, i: Instruction, c: Lane)
    requires PlainArithmetic(p, i) && Modelled(i) && Selected(i.dst.writeMask, c) && !ChannelMatches(i, c)
    ensures !AlwaysAgree(m, p, i)
  {
    PlainTyped(p, i);
    var k: Lane := Rank(i.dst.writeMask, c);
    var s :| 0 <= s < Arity(i.op) && i.src[s].swizzle.At(k) != i.src[s].swizzle.At(c);
    var t := Telltale(p, i, s);
    TelltaleMatches(p, i, s);
    TelltaleChannel(m, p, i, s, k);
    TelltaleChannel(m, p, i, s, c);
    hide AgreeFrom, LocName, LocOf, Matches, Rank, Selected, Telltale, RhsTyped, Channel, PlainArithmetic, Modelled;
    StateDisagrees(m, p, i, c, t.0, t.1);
  }

  lemma {:induction false} StateDisagrees(m: Math, p: Program, i: Instruction, c: Lane, regs: Regs, env: Env)
    requires PlainArithmetic(p, i) && Modelled(i) && Selected(i.dst.writeMask, c) && Matches(p, regs, env)
    requires Channel(m, p, regs, i, Rank(i.dst.writeMask, c)) != Channel(m, p, regs, i, c)
    ensures !AgreeFrom(m, p, i, regs, env)
  {
    PlainTyped(p, i);
    hide AgreeFrom, LocName, LocOf, EmitOne, ExecLines, RhsTyped, Matches, StepRegs, Rank, Selected, Channel;
    ChannelLands(m, p, regs, env, i, c);
    if AgreeFrom(m, p, i, regs, env) {
      AgreeAt(m, p, i, regs, env, LocOf(p, i.dst).value);
    }
  }

  lemma {:induction false} AgreeAt(m: Math, p: Program, i: Instruction, regs: Regs, env: Env, l: Loc)
    requires Modelled(i) && AgreeFrom(m, p, i, regs, env)
    ensures Value(ExecLines(m, env, EmitOne(p, i)).value, LocName(p, l)) == Get(StepRegs(m, p, regs, i), l)
  {
    hide EmitOne, ExecLines, StepRegs, LocName;
  }
}
