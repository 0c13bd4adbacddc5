/**
  Structured flow control: a balanced instruction list as a block tree, and the proof that
  the flat machine runs such a list exactly as its tree says.
 */
module ShaderBlocks {
  import opened Options
  import opened Sequences
  import opened ShaderIr
  import opened ShaderSemantics

  datatype Block = Nil | Cons(head: Stmt, tail: Block)

  datatype Stmt =
    | Plain(i: Instruction)
    | IfThen(i: Instruction, thn: Block, close: Instruction)
    | IfElse(i: Instruction, thn: Block, other: Instruction, els: Block, close: Instruction)
    | Repeat(i: Instruction, body: Block, close: Instruction)
    | Exit(i: Instruction)
    | ExitIf(i: Instruction)

  function Flatten(b: Block): seq<Instruction> {
    match b
    case Nil => []
    case Cons(s, rest) => FlattenStmt(s) + Flatten(rest)
  }

  function FlattenStmt(s: Stmt): seq<Instruction> {
    match s
    case Plain(i) => [i]
    case IfThen(i, thn, close) => [i] + Flatten(thn) + [close]
    case IfElse(i, thn, other, els, close) => [i] + Flatten(thn) + [other] + Flatten(els) + [close]
    case Repeat(i, body, close) => [i] + Flatten(body) + [close]
    case Exit(i) => [i]
    case ExitIf(i) => [i]
  }

  // The opcodes fit the tree, and breaks stand inside loops.
  predicate Shaped(b: Block, inLoop: bool) {
    match b
    case Nil => true
    case Cons(s, rest) => ShapedStmt(s, inLoop) && Shaped(rest, inLoop)
  }

  predicate ShapedStmt(s: Stmt, inLoop: bool) {
    match s
    case Plain(i) => !IsFlow(i.op)
    case IfThen(i, thn, close) => (i.op.If? || i.op.Ifc?) && Shaped(thn, inLoop) && close.op.EndIf?
    case IfElse(i, thn, other, els, close) =>
      (i.op.If? || i.op.Ifc?) && Shaped(thn, inLoop) && other.op.Else? && Shaped(els, inLoop) && close.op.EndIf?
    case Repeat(i, body, close) => i.op.Rep? && Shaped(body, true) && close.op.EndRep?
    case Exit(i) => i.op.Break? && inLoop
    case ExitIf(i) => i.op.BreakC? && inLoop
  }

  // ---------------------------------------------------------------- the tree's meaning

  datatype Done = Done(regs: Regs, broke: bool)

  function ExecBlock(m: Math, p: Program, regs: Regs, b: Block): Done
    decreases b, 0, 0
  {
    match b
    case Nil => Done(regs, false)
    case Cons(s, rest) =>
      var d := ExecStmt(m, p, regs, s);
      if d.broke then d else ExecBlock(m, p, d.regs, rest)
  }

  function ExecStmt(m: Math, p: Program, regs: Regs, s: Stmt): Done
    decreases s, 0, 0
  {
    match s
    case Plain(i) => Done(if Executable(p, i) then Execute(m, p, regs, i) else regs, false)
    case IfThen(i, thn, _) => if Condition(m, p, regs, i) then ExecBlock(m, p, regs, thn) else Done(regs, false)
    case IfElse(i, thn, _, els, _) =>
      if Condition(m, p, regs, i) then ExecBlock(m, p, regs, thn) else ExecBlock(m, p, regs, els)
    case Repeat(i, body, _) => Done(ExecLoop(m, p, regs, body, Truncate(Scalar(m, p, regs, i, 0))), false)
    case Exit(_) => Done(regs, true)
    case ExitIf(i) => Done(regs, Condition(m, p, regs, i))
  }

  function ExecLoop(m: Math, p: Program, regs: Regs, body: Block, n: int): Regs
    decreases body, 1, n
  {
    if n <= 0 then regs
    else
      var d := ExecBlock(m, p, regs, body);
      if d.broke then d.regs else ExecLoop(m, p, d.regs, body, n - 1)
  }

  // ---------------------------------------------------------------- finding the tree

  datatype Built = Built(b: Block, pos: nat) | BuiltStmt(s: Stmt, pos: nat) | Unbalanced

  function BuildBlock(code: seq<Instruction>, pos: nat, inLoop: bool): (r: Built)
    requires pos <= |code|
    ensures r.Built? || r.Unbalanced?
    ensures r.Built? ==> pos <= r.pos <= |code|
    decreases |code| - pos, 1
  {
    if pos == |code| || code[pos].op.Else? || code[pos].op.EndIf? || code[pos].op.EndRep? then Built(Nil, pos)
    else match BuildStmt(code, pos, inLoop)
      case BuiltStmt(s, next) =>
        (match BuildBlock(code, next, inLoop)
         case Built(rest, end) => Built(Cons(s, rest), end)
         case _ => Unbalanced)
      case _ => Unbalanced
  }

  function BuildStmt(code: seq<Instruction>, pos: nat, inLoop: bool): (r: Built)
    requires pos < |code|
    ensures r.BuiltStmt? || r.Unbalanced?
    ensures r.BuiltStmt? ==> pos < r.pos <= |code|
    decreases |code| - pos, 0
  {
    var i := code[pos];
    if i.op.If? || i.op.Ifc? then
      (match BuildBlock(code, pos + 1, inLoop)
       case Built(thn, q) =>
         if q < |code| && code[q].op.EndIf? then BuiltStmt(IfThen(i, thn, code[q]), q + 1)
         else if q < |code| && code[q].op.Else? then
           (match BuildBlock(code, q + 1, inLoop)
            case Built(els, r) =>
              if r < |code| && code[r].op.EndIf? then BuiltStmt(IfElse(i, thn, code[q], els, code[r]), r + 1)
              else Unbalanced
            case _ => Unbalanced)
         else Unbalanced
       case _ => Unbalanced)
    else if i.op.Rep? then
      (match BuildBlock(code, pos + 1, true)
       case Built(body, q) =>
         if q < |code| && code[q].op.EndRep? then BuiltStmt(Repeat(i, body, code[q]), q + 1) else Unbalanced
       case _ => Unbalanced)
    else if i.op.Break? then if inLoop then BuiltStmt(Exit(i), pos + 1) else Unbalanced
    else if i.op.BreakC? then if inLoop then BuiltStmt(ExitIf(i), pos + 1) else Unbalanced
    else if IsFlow(i.op) then Unbalanced
    else BuiltStmt(Plain(i), pos + 1)
  }

  predicate Balanced(code: seq<Instruction>) {
    var r := BuildBlock(code, 0, false);
    r.Built? && r.pos == |code|
  }

  function Tree(code: seq<Instruction>): Block
    requires Balanced(code)
  {
    BuildBlock(code, 0, false).b
  }

  lemma {:induction false} Standing1(code: seq<Instruction>, pos: nat)
    requires pos < |code|
    ensures Stands(code, pos, [code[pos]])
  {
  }

  lemma {:induction false} Together3(code: seq<Instruction>, pos: nat, f: seq<Instruction>)
    requires pos + 1 + |f| < |code| && Stands(code, pos + 1, f)
    ensures Stands(code, pos, [code[pos]] + f + [code[pos + 1 + |f|]])
  {
    hide Stands;
    Standing1(code, pos);
    Standing1(code, pos + 1 + |f|);
    StandsTogether(code, pos, [code[pos]], f);
    StandsTogether(code, pos, [code[pos]] + f, [code[pos + 1 + |f|]]);
  }

  lemma {:induction false} Together5(code: seq<Instruction>, pos: nat, f: seq<Instruction>, g: seq<Instruction>)
    requires pos + 2 + |f| + |g| < |code| && Stands(code, pos + 1, f) && Stands(code, pos + 2 + |f|, g)
    ensures Stands(code, pos, [code[pos]] + f + [code[pos + 1 + |f|]] + g + [code[pos + 2 + |f| + |g|]])
  {
    hide Stands;
    var e := [code[pos]] + f + [code[pos + 1 + |f|]];
    Together3(code, pos, f);
    Standing1(code, pos + 2 + |f| + |g|);
    StandsTogether(code, pos, e, g);
    StandsTogether(code, pos, e + g, [code[pos + 2 + |f| + |g|]]);
  }

  lemma {:induction false} StandsNothing(code: seq<Instruction>, pos: nat)
    requires pos <= |code|
    ensures Stands(code, pos, [])
  {
  }

  lemma {:induction false} BuildBlockSound(code: seq<Instruction>, pos: nat, inLoop: bool)
    requires pos <= |code|
    ensures var r := BuildBlock(code, pos, inLoop);
      r.Built? ==> Shaped(r.b, inLoop) && r.pos == pos + |Flatten(r.b)| && Stands(code, pos, Flatten(r.b))
    decreases |code| - pos, 1
  {
    hide BuildStmt, Stands, FlattenStmt, ShapedStmt;
    if pos == |code| || code[pos].op.Else? || code[pos].op.EndIf? || code[pos].op.EndRep? {
      StandsNothing(code, pos);
    } else {
      BuildStmtSound(code, pos, inLoop);
      match BuildStmt(code, pos, inLoop)
      case BuiltStmt(s, next) =>
        BuildBlockSound(code, next, inLoop);
        var r := BuildBlock(code, next, inLoop);
        if r.Built? {
          StandsTogether(code, pos, FlattenStmt(s), Flatten(r.b));
        }
      case _ =>
    }
  }

  lemma {:induction false} BuildStmtSound(code: seq<Instruction>, pos: nat, inLoop: bool)
    requires pos < |code|
    ensures var r := BuildStmt(code, pos, inLoop);
      r.BuiltStmt? ==>
        ShapedStmt(r.s, inLoop) && r.pos == pos + |FlattenStmt(r.s)| && Stands(code, pos, FlattenStmt(r.s))
    decreases |code| - pos, 0, 1
  {
    hide Stands, BuildBlock;
    var i := code[pos];
    if i.op.If? || i.op.Ifc? {
      BuildIfSound(code, pos, inLoop);
    } else if i.op.Rep? {
      BuildBlockSound(code, pos + 1, true);
      var body := BuildBlock(code, pos + 1, true);
      if body.Built? && body.pos < |code| {
        Together3(code, pos, Flatten(body.b));
      }
    } else {
      Standing1(code, pos);
    }
  }

  lemma {:induction false} BuildIfSound(code: seq<Instruction>, pos: nat, inLoop: bool)
    requires pos < |code| && (code[pos].op.If? || code[pos].op.Ifc?)
    ensures var r := BuildStmt(code, pos, inLoop);
      r.BuiltStmt? ==>
        ShapedStmt(r.s, inLoop) && r.pos == pos + |FlattenStmt(r.s)| && Stands(code, pos, FlattenStmt(r.s))
    decreases |code| - pos, 0, 0
  {
    hide Stands, BuildBlock;
    BuildBlockSound(code, pos + 1, inLoop);
    var thn := BuildBlock(code, pos + 1, inLoop);
    if thn.Built? && thn.pos < |code| {
      if code[thn.pos].op.EndIf? {
        Together3(code, pos, Flatten(thn.b));
      } else if code[thn.pos].op.Else? {
        BuildBlockSound(code, thn.pos + 1, inLoop);
        var els := BuildBlock(code, thn.pos + 1, inLoop);
        if els.Built? && els.pos < |code| {
          Together5(code, pos, Flatten(thn.b), Flatten(els.b));
        }
      }
    }
  }

  lemma {:induction false} TreeFlattens(code: seq<Instruction>)
    requires Balanced(code)
    ensures Flatten(Tree(code)) == code && Shaped(Tree(code), false)
  {
    BuildBlockSound(code, 0, false);
    assert code[0..|code|] == code;
  }

  // ---------------------------------------------------------------- scanning over a block

  // A block can end here.
  ghost predicate BlockEnd(code: seq<Instruction>, pos: nat) {
    pos == |code| || (pos < |code| && (code[pos].op.Else? || code[pos].op.EndIf? || code[pos].op.EndRep?))
  }

  lemma {:induction false} BuildBlockFinds(code: seq<Instruction>, pos: nat, b: Block, inLoop: bool)
    requires Shaped(b, inLoop) && Stands(code, pos, Flatten(b)) && BlockEnd(code, pos + |Flatten(b)|)
    ensures pos + |Flatten(b)| <= |code|
    ensures BuildBlock(code, pos, inLoop) == Built(b, pos + |Flatten(b)|)
    decreases b, 1
  {
    hide Stands, BuildStmt;
    match b
    case Nil =>
    case Cons(s, rest) =>
      StandsParts(code, pos, FlattenStmt(s), Flatten(rest));
      BuildStmtFinds(code, pos, s, inLoop);
      BuildBlockFinds(code, pos + |FlattenStmt(s)|, rest, inLoop);
  }

  lemma {:induction false} BuildStmtFinds(code: seq<Instruction>, pos: nat, s: Stmt, inLoop: bool)
    requires ShapedStmt(s, inLoop) && Stands(code, pos, FlattenStmt(s))
    ensures pos < |code| && !BlockEnd(code, pos) && pos + |FlattenStmt(s)| <= |code|
    ensures BuildStmt(code, pos, inLoop) == BuiltStmt(s, pos + |FlattenStmt(s)|)
    decreases s, 1
  {
    hide Stands, BuildBlock;
    match s
    case Plain(i) => Split1(code, pos, i);
    case Exit(i) => Split1(code, pos, i);
    case ExitIf(i) => Split1(code, pos, i);
    case IfThen(i, thn, close) =>
      Split3(code, pos, i, Flatten(thn), close);
      BuildBlockFinds(code, pos + 1, thn, inLoop);
    case Repeat(i, body, close) =>
      Split3(code, pos, i, Flatten(body), close);
      BuildBlockFinds(code, pos + 1, body, true);
    case IfElse(i, thn, other, els, close) => BuildIfElseFinds(code, pos, s, inLoop);
  }

  lemma {:induction false} BuildIfElseFinds(code: seq<Instruction>, pos: nat, s: Stmt, inLoop: bool)
    requires s.IfElse? && ShapedStmt(s, inLoop) && Stands(code, pos, FlattenStmt(s))
    ensures pos < |code| && !BlockEnd(code, pos) && pos + |FlattenStmt(s)| <= |code|
    ensures BuildStmt(code, pos, inLoop) == BuiltStmt(s, pos + |FlattenStmt(s)|)
    decreases s, 0
  {
    hide Stands, BuildBlock;
    Split5(code, pos, s.i, Flatten(s.thn), s.other, Flatten(s.els), s.close);
    BuildBlockFinds(code, pos + 1, s.thn, inLoop);
    BuildBlockFinds(code, pos + 2 + |Flatten(s.thn)|, s.els, inLoop);
  }

  /** An instruction list is balanced exactly when it is some block tree written out, and the
      tree is then unique. */
  lemma {:induction false} BalancedIffTree(code: seq<Instruction>)
    ensures Balanced(code) <==> exists b :: Shaped(b, false) && Flatten(b) == code
    ensures forall b :: Shaped(b, false) && Flatten(b) == code ==> Balanced(code) && b == Tree(code)
  {
    hide BuildBlock, Flatten, Shaped;
    if Balanced(code) {
      TreeFlattens(code);
    }
    assert code[0..|code|] == code;
    forall b | Shaped(b, false) && Flatten(b) == code ensures Balanced(code) && b == Tree(code) {
      BuildBlockFinds(code, 0, b, false);
    }
  }

  predicate Opens(op: Op) { op.If? || op.Ifc? || op.Rep? }
  predicate Closes(op: Op) { op.EndIf? || op.EndRep? }

  lemma {:induction false} SkipOne(code: seq<Instruction>, pos: nat, depth: nat, stop: bool)
    requires pos < |code|
    ensures var op := code[pos].op;
      && (Opens(op) ==> Skip(code, pos, depth, stop) == Skip(code, pos + 1, depth + 1, stop))
      && (Closes(op) && depth > 0 ==> Skip(code, pos, depth, stop) == Skip(code, pos + 1, depth - 1, stop))
      && (Closes(op) && depth == 0 ==> Skip(code, pos, depth, stop) == pos + 1)
      && (op.Else? && depth == 0 && stop ==> Skip(code, pos, depth, stop) == pos + 1)
      && (!Opens(op) && !Closes(op) && (!op.Else? || depth > 0 || !stop) ==>
            Skip(code, pos, depth, stop) == Skip(code, pos + 1, depth, stop))
  {
  }

  lemma {:induction false} SkipBlock(code: seq<Instruction>, pos: nat, b: Block, inLoop: bool, depth: nat, stop: bool)
    requires Shaped(b, inLoop) && Stands(code, pos, Flatten(b))
    ensures Skip(code, pos, depth, stop) == Skip(code, pos + |Flatten(b)|, depth, stop)
    decreases b, 2
  {
    hide Stands, Skip;
    match b
    case Nil =>
    case Cons(s, rest) =>
      StandsParts(code, pos, FlattenStmt(s), Flatten(rest));
      SkipStmt(code, pos, s, inLoop, depth, stop);
      SkipBlock(code, pos + |FlattenStmt(s)|, rest, inLoop, depth, stop);
  }

  lemma {:induction false} SkipStmt(code: seq<Instruction>, pos: nat, s: Stmt, inLoop: bool, depth: nat, stop: bool)
    requires ShapedStmt(s, inLoop) && Stands(code, pos, FlattenStmt(s))
    ensures Skip(code, pos, depth, stop) == Skip(code, pos + |FlattenStmt(s)|, depth, stop)
    decreases s, 1
  {
    hide Stands, Skip;
    match s
    case Plain(i) => Split1(code, pos, i); SkipOne(code, pos, depth, stop);
    case Exit(i) => Split1(code, pos, i); SkipOne(code, pos, depth, stop);
    case ExitIf(i) => Split1(code, pos, i); SkipOne(code, pos, depth, stop);
    case IfThen(i, thn, close) =>
      Split3(code, pos, i, Flatten(thn), close);
      SkipBlock(code, pos + 1, thn, inLoop, depth + 1, stop);
      SkipOne(code, pos, depth, stop);
      SkipOne(code, pos + 1 + |Flatten(thn)|, depth + 1, stop);
    case Repeat(i, body, close) =>
      Split3(code, pos, i, Flatten(body), close);
      SkipBlock(code, pos + 1, body, true, depth + 1, stop);
      SkipOne(code, pos, depth, stop);
      SkipOne(code, pos + 1 + |Flatten(body)|, depth + 1, stop);
    case IfElse(i, thn, other, els, close) => SkipIfElse(code, pos, s, inLoop, depth, stop);
  }

  lemma {:induction false} SkipIfElse(code: seq<Instruction>, pos: nat, s: Stmt, inLoop: bool, depth: nat, stop: bool)
    requires s.IfElse? && ShapedStmt(s, inLoop) && Stands(code, pos, FlattenStmt(s))
    ensures Skip(code, pos, depth, stop) == Skip(code, pos + |FlattenStmt(s)|, depth, stop)
    decreases s, 0
  {
    hide Stands, Skip;
    var mid := pos + 1 + |Flatten(s.thn)|;
    Split5(code, pos, s.i, Flatten(s.thn), s.other, Flatten(s.els), s.close);
    SkipBlock(code, pos + 1, s.thn, inLoop, depth + 1, stop);
    SkipBlock(code, mid + 1, s.els, inLoop, depth + 1, stop);
    SkipOne(code, pos, depth, stop);
    SkipOne(code, mid, depth + 1, stop);
    SkipOne(code, mid + 1 + |Flatten(s.els)|, depth + 1, stop);
  }

  lemma {:induction false} SkipLoopOne(code: seq<Instruction>, pos: nat, depth: nat)
    requires pos < |code|
    ensures var op := code[pos].op;
      && (op.Rep? ==> SkipLoop(code, pos, depth) == SkipLoop(code, pos + 1, depth + 1))
      && (op.EndRep? && depth > 0 ==> SkipLoop(code, pos, depth) == SkipLoop(code, pos + 1, depth - 1))
      && (op.EndRep? && depth == 0 ==> SkipLoop(code, pos, depth) == pos + 1)
      && (!op.Rep? && !op.EndRep? ==> SkipLoop(code, pos, depth) == SkipLoop(code, pos + 1, depth))
  {
  }

  lemma {:induction false} SkipLoopBlock(code: seq<Instruction>, pos: nat, b: Block, inLoop: bool, depth: nat)
    requires Shaped(b, inLoop) && Stands(code, pos, Flatten(b))
    ensures SkipLoop(code, pos, depth) == SkipLoop(code, pos + |Flatten(b)|, depth)
    decreases b, 2
  {
    hide Stands, SkipLoop;
    match b
    case Nil =>
    case Cons(s, rest) =>
      StandsParts(code, pos, FlattenStmt(s), Flatten(rest));
      SkipLoopStmt(code, pos, s, inLoop, depth);
      SkipLoopBlock(code, pos + |FlattenStmt(s)|, rest, inLoop, depth);
  }

  lemma {:induction false} SkipLoopStmt(code: seq<Instruction>, pos: nat, s: Stmt, inLoop: bool, depth: nat)
    requires ShapedStmt(s, inLoop) && Stands(code, pos, FlattenStmt(s))
    ensures SkipLoop(code, pos, depth) == SkipLoop(code, pos + |FlattenStmt(s)|, depth)
    decreases s, 1
  {
    hide Stands, SkipLoop;
    match s
    case Plain(i) => Split1(code, pos, i); SkipLoopOne(code, pos, depth);
    case Exit(i) => Split1(code, pos, i); SkipLoopOne(code, pos, depth);
    case ExitIf(i) => Split1(code, pos, i); SkipLoopOne(code, pos, depth);
    case IfThen(i, thn, close) =>
      Split3(code, pos, i, Flatten(thn), close);
      SkipLoopBlock(code, pos + 1, thn, inLoop, depth);
      SkipLoopOne(code, pos, depth);
      SkipLoopOne(code, pos + 1 + |Flatten(thn)|, depth);
    case Repeat(i, body, close) =>
      Split3(code, pos, i, Flatten(body), close);
      SkipLoopBlock(code, pos + 1, body, true, depth + 1);
      SkipLoopOne(code, pos, depth);
      SkipLoopOne(code, pos + 1 + |Flatten(body)|, depth + 1);
    case IfElse(i, thn, other, els, close) => SkipLoopIfElse(code, pos, s, inLoop, depth);
  }

  lemma {:induction false} SkipLoopIfElse(code: seq<Instruction>, pos: nat, s: Stmt, inLoop: bool, depth: nat)
    requires s.IfElse? && ShapedStmt(s, inLoop) && Stands(code, pos, FlattenStmt(s))
    ensures SkipLoop(code, pos, depth) == SkipLoop(code, pos + |FlattenStmt(s)|, depth)
    decreases s, 0
  {
    hide Stands, SkipLoop;
    var mid := pos + 1 + |Flatten(s.thn)|;
    Split5(code, pos, s.i, Flatten(s.thn), s.other, Flatten(s.els), s.close);
    SkipLoopBlock(code, pos + 1, s.thn, inLoop, depth);
    SkipLoopBlock(code, mid + 1, s.els, inLoop, depth);
    SkipLoopOne(code, pos, depth);
    SkipLoopOne(code, mid, depth);
    SkipLoopOne(code, mid + 1 + |Flatten(s.els)|, depth);
  }

  // ---------------------------------------------------------------- running a block

  // Where the machine is after the piece of code that ends at end.
  function After(code: seq<Instruction>, end: nat, d: Done, loops: seq<Loop>): Machine
    requires d.broke ==> loops != []
  {
    if d.broke then Machine(SkipLoop(code, end, 0), d.regs, loops[..|loops| - 1])
    else Machine(end, d.regs, loops)
  }

  lemma {:induction false} BreaksOnlyInLoops(m: Math, p: Program, regs: Regs, b: Block)
    requires Shaped(b, false)
    ensures !ExecBlock(m, p, regs, b).broke
    decreases b
  {
    match b
    case Nil =>
    case Cons(s, rest) =>
      BreakStmtOnlyInLoops(m, p, regs, s);
      BreaksOnlyInLoops(m, p, ExecStmt(m, p, regs, s).regs, rest);
  }

  lemma {:induction false} BreakStmtOnlyInLoops(m: Math, p: Program, regs: Regs, s: Stmt)
    requires ShapedStmt(s, false)
    ensures !ExecStmt(m, p, regs, s).broke
    decreases s
  {
    match s
    case IfThen(_, thn, _) => BreaksOnlyInLoops(m, p, regs, thn);
    case IfElse(_, thn, _, els, _) =>
      BreaksOnlyInLoops(m, p, regs, thn);
      BreaksOnlyInLoops(m, p, regs, els);
    case _ =>
  }

  lemma {:induction false} OneStep(m: Math, p: Program, code: seq<Instruction>, s: Machine, n: nat)
    requires s.pc < |code|
    ensures Run(m, p, code, s, 1) == StepMachine(m, p, code, s)
    ensures Run(m, p, code, s, n + 1) == Run(m, p, code, StepMachine(m, p, code, s), n)
  {
    hide StepMachine;
    var t := StepMachine(m, p, code, s);
    assert Run(m, p, code, t, 0) == t;
  }

  lemma {:induction false} NoSteps(m: Math, p: Program, code: seq<Instruction>, s: Machine)
    ensures Run(m, p, code, s, 0) == s
  {
  }

  lemma {:induction false} StepOver(m: Math, p: Program, code: seq<Instruction>, s: Machine)
    requires s.pc < |code|
    ensures var i := code[s.pc];
      var t := StepMachine(m, p, code, s);
      && (!IsFlow(i.op) ==> t == Machine(s.pc + 1, if Executable(p, i) then Execute(m, p, s.regs, i) else s.regs, s.loops))
      && (i.op.EndIf? ==> t == s.(pc := s.pc + 1))
      && (i.op.Else? ==> t == s.(pc := Skip(code, s.pc + 1, 0, false)))
      && (i.op.Break? ==> t == Leave(code, s))
      && (i.op.BreakC? ==> t == if Condition(m, p, s.regs, i) then Leave(code, s) else s.(pc := s.pc + 1))
      && (i.op.If? || i.op.Ifc? ==>
            t == s.(pc := if Condition(m, p, s.regs, i) then s.pc + 1 else Skip(code, s.pc + 1, 0, true)))
  {
    hide Execute, Condition, Skip, Leave;
  }

  lemma {:induction false} StepRep(m: Math, p: Program, code: seq<Instruction>, s: Machine)
    requires s.pc < |code| && code[s.pc].op.Rep?
    ensures var n := Truncate(Scalar(m, p, s.regs, code[s.pc], 0));
      StepMachine(m, p, code, s)
      == if n <= 0 then s.(pc := Skip(code, s.pc + 1, 0, false))
         else Machine(s.pc + 1, s.regs, s.loops + [Loop(s.pc + 1, n)])
  {
    hide Truncate, Scalar, Skip;
  }

  lemma {:induction false} StepEndRep(m: Math, p: Program, code: seq<Instruction>, s: Machine, outer: seq<Loop>, l: Loop)
    requires s.pc < |code| && code[s.pc].op.EndRep? && s.loops == outer + [l]
    ensures StepMachine(m, p, code, s)
      == if l.remaining <= 1 then Machine(s.pc + 1, s.regs, outer)
         else Machine(l.start, s.regs, outer + [Loop(l.start, l.remaining - 1)])
  {
    assert s.loops[..|s.loops| - 1] == outer;
  }

  lemma {:induction false} RunBlock(m: Math, p: Program, code: seq<Instruction>, pos: nat, b: Block,
                                    regs: Regs, loops: seq<Loop>) returns (n: nat)
    requires Shaped(b, loops != []) && Stands(code, pos, Flatten(b))
    ensures ExecBlock(m, p, regs, b).broke ==> loops != []
    ensures Run(m, p, code, Machine(pos, regs, loops), n)
         == After(code, pos + |Flatten(b)|, ExecBlock(m, p, regs, b), loops)
    decreases b, 2, 0
  {
    hide Stands, Run, ExecStmt, SkipLoop;
    var start := Machine(pos, regs, loops);
    match b
    case Nil => n := 0; NoSteps(m, p, code, start);
    case Cons(s, rest) =>
      StandsParts(code, pos, FlattenStmt(s), Flatten(rest));
      var a := RunStmt(m, p, code, pos, s, regs, loops);
      var d := ExecStmt(m, p, regs, s);
      if d.broke {
        n := a;
        SkipLoopBlock(code, pos + |FlattenStmt(s)|, rest, true, 0);
      } else {
        var c := RunBlock(m, p, code, pos + |FlattenStmt(s)|, rest, d.regs, loops);
        n := a + c;
        RunSteps(m, p, code, start, a, c);
      }
  }

  lemma {:induction false} RunStmt(m: Math, p: Program, code: seq<Instruction>, pos: nat, s: Stmt,
                                   regs: Regs, loops: seq<Loop>) returns (n: nat)
    requires ShapedStmt(s, loops != []) && Stands(code, pos, FlattenStmt(s))
    ensures ExecStmt(m, p, regs, s).broke ==> loops != []
    ensures Run(m, p, code, Machine(pos, regs, loops), n)
         == After(code, pos + |FlattenStmt(s)|, ExecStmt(m, p, regs, s), loops)
    decreases s, 2, 0
  {
    if s.IfThen? {
      n := RunIfThen(m, p, code, pos, s, regs, loops);
    } else if s.IfElse? {
      n := RunIfElse(m, p, code, pos, s, regs, loops);
    } else if s.Repeat? {
      n := RunRepeat(m, p, code, pos, s, regs, loops);
    } else {
      hide Execute, Executable, Condition, Run, SkipLoop, StepMachine, Stands;
      var start := Machine(pos, regs, loops);
      Split1(code, pos, s.i);
      StepOver(m, p, code, start);
      OneStep(m, p, code, start, 0);
      n := 1;
    }
  }

  lemma {:induction false} RunIfThen(m: Math, p: Program, code: seq<Instruction>, pos: nat, s: Stmt,
                                     regs: Regs, loops: seq<Loop>) returns (n: nat)
    requires s.IfThen? && ShapedStmt(s, loops != []) && Stands(code, pos, FlattenStmt(s))
    ensures ExecStmt(m, p, regs, s).broke ==> loops != []
    ensures Run(m, p, code, Machine(pos, regs, loops), n)
         == After(code, pos + |FlattenStmt(s)|, ExecStmt(m, p, regs, s), loops)
    decreases s, 1, 0
  {
    hide Condition, Stands, Run, StepMachine, Skip, ExecBlock, After;
    var start := Machine(pos, regs, loops);
    var end := pos + 1 + |Flatten(s.thn)|;
    Split3(code, pos, s.i, Flatten(s.thn), s.close);
    StepOver(m, p, code, start);
    if Condition(m, p, regs, s.i) {
      var a := RunBlock(m, p, code, pos + 1, s.thn, regs, loops);
      OneStep(m, p, code, start, a);
      n := FinishBranch(m, p, code, start, a + 1, end, ExecBlock(m, p, regs, s.thn), loops);
    } else {
      SkipBlock(code, pos + 1, s.thn, loops != [], 0, true);
      SkipOne(code, end, 0, true);
      OneStep(m, p, code, start, 0);
      n := 1;
      assert After(code, end + 1, Done(regs, false), loops) == Machine(end + 1, regs, loops) by {
        AfterUnbroken(code, end + 1, regs, loops);
      }
    }
  }

  lemma {:induction false} AfterUnbroken(code: seq<Instruction>, end: nat, regs: Regs, loops: seq<Loop>)
    ensures After(code, end, Done(regs, false), loops) == Machine(end, regs, loops)
  {
  }

  // From the end of a branch over its ENDIF.
  lemma {:induction false} FinishBranch(m: Math, p: Program, code: seq<Instruction>, start: Machine, a: nat, end: nat,
                     d: Done, loops: seq<Loop>) returns (n: nat)
    requires d.broke ==> loops != []
    requires end < |code| && code[end].op.EndIf?
    requires Run(m, p, code, start, a) == After(code, end, d, loops)
    ensures Run(m, p, code, start, n) == After(code, end + 1, d, loops)
  {
    hide Run, StepMachine, SkipLoop;
    if d.broke {
      n := a;
      SkipLoopOne(code, end, 0);
    } else {
      var t := After(code, end, d, loops);
      RunSteps(m, p, code, start, a, 1);
      OneStep(m, p, code, t, 0);
      StepOver(m, p, code, t);
      n := a + 1;
    }
  }

  lemma {:induction false} RunIfElse(m: Math, p: Program, code: seq<Instruction>, pos: nat, s: Stmt,
                                     regs: Regs, loops: seq<Loop>) returns (n: nat)
    requires s.IfElse? && ShapedStmt(s, loops != []) && Stands(code, pos, FlattenStmt(s))
    ensures ExecStmt(m, p, regs, s).broke ==> loops != []
    ensures Run(m, p, code, Machine(pos, regs, loops), n)
         == After(code, pos + |FlattenStmt(s)|, ExecStmt(m, p, regs, s), loops)
    decreases s, 1, 0
  {
    hide Condition, Stands, Run, StepMachine, Skip, ExecBlock, SkipLoop;
    var start := Machine(pos, regs, loops);
    var mid := pos + 1 + |Flatten(s.thn)|;
    var end := mid + 1 + |Flatten(s.els)|;
    Split5(code, pos, s.i, Flatten(s.thn), s.other, Flatten(s.els), s.close);
    StepOver(m, p, code, start);
    if Condition(m, p, regs, s.i) {
      var d := ExecBlock(m, p, regs, s.thn);
      var a := RunBlock(m, p, code, pos + 1, s.thn, regs, loops);
      OneStep(m, p, code, start, a);
      n := FinishThen(m, p, code, start, a + 1, mid, s.els, d, loops);
    } else {
      SkipBlock(code, pos + 1, s.thn, loops != [], 0, true);
      SkipOne(code, mid, 0, true);
      var a := RunBlock(m, p, code, mid + 1, s.els, regs, loops);
      OneStep(m, p, code, start, a);
      n := FinishBranch(m, p, code, start, a + 1, end, ExecBlock(m, p, regs, s.els), loops);
    }
  }

  // From the end of the first branch over the second.
  lemma {:induction false} FinishThen(m: Math, p: Program, code: seq<Instruction>, start: Machine, a: nat, mid: nat,
                   els: Block, d: Done, loops: seq<Loop>) returns (n: nat)
    requires d.broke ==> loops != []
    requires mid + 1 + |Flatten(els)| < |code| && Stands(code, mid + 1, Flatten(els)) && Shaped(els, loops != [])
    requires code[mid].op.Else? && code[mid + 1 + |Flatten(els)|].op.EndIf?
    requires Run(m, p, code, start, a) == After(code, mid, d, loops)
    ensures Run(m, p, code, start, n) == After(code, mid + 2 + |Flatten(els)|, d, loops)
  {
    hide Run, StepMachine, SkipLoop, Skip, Stands;
    var end := mid + 1 + |Flatten(els)|;
    if d.broke {
      n := a;
      SkipLoopOne(code, mid, 0);
      SkipLoopBlock(code, mid + 1, els, loops != [], 0);
      SkipLoopOne(code, end, 0);
    } else {
      var t := After(code, mid, d, loops);
      RunSteps(m, p, code, start, a, 1);
      OneStep(m, p, code, t, 0);
      StepOver(m, p, code, t);
      SkipBlock(code, mid + 1, els, loops != [], 0, false);
      SkipOne(code, end, 0, false);
      n := a + 1;
    }
  }

  lemma {:induction false} RunRepeat(m: Math, p: Program, code: seq<Instruction>, pos: nat, s: Stmt,
                                     regs: Regs, loops: seq<Loop>) returns (n: nat)
    requires s.Repeat? && ShapedStmt(s, loops != []) && Stands(code, pos, FlattenStmt(s))
    ensures Run(m, p, code, Machine(pos, regs, loops), n)
         == Machine(pos + |FlattenStmt(s)|, ExecStmt(m, p, regs, s).regs, loops)
    decreases s, 1, 0
  {
    hide Stands, Run, StepMachine, Skip, ExecBlock, Truncate, Scalar;
    var start := Machine(pos, regs, loops);
    Split3(code, pos, s.i, Flatten(s.body), s.close);
    StepRep(m, p, code, start);
    var k := Truncate(Scalar(m, p, regs, s.i, 0));
    if k <= 0 {
      SkipBlock(code, pos + 1, s.body, true, 0, false);
      SkipOne(code, pos + 1 + |Flatten(s.body)|, 0, false);
      OneStep(m, p, code, start, 0);
      n := 1;
    } else {
      var a := RunLoop(m, p, code, pos + 1, s.body, regs, loops, k);
      OneStep(m, p, code, start, a);
      n := a + 1;
    }
  }

  lemma {:induction false} RunLoop(m: Math, p: Program, code: seq<Instruction>, pos: nat, body: Block,
                                   regs: Regs, loops: seq<Loop>, k: int) returns (n: nat)
    requires k > 0 && Shaped(body, true) && Stands(code, pos, Flatten(body))
    requires pos + |Flatten(body)| < |code| && code[pos + |Flatten(body)|].op.EndRep?
    ensures Run(m, p, code, Machine(pos, regs, loops + [Loop(pos, k)]), n)
         == Machine(pos + |Flatten(body)| + 1, ExecLoop(m, p, regs, body, k), loops)
    decreases body, 3, k
  {
    hide Stands, Run, StepMachine, SkipLoop, ExecBlock;
    var inner := loops + [Loop(pos, k)];
    var start := Machine(pos, regs, inner);
    var end := pos + |Flatten(body)|;
    var d := ExecBlock(m, p, regs, body);
    var a := RunBlock(m, p, code, pos, body, regs, inner);
    assert inner[..|inner| - 1] == loops;
    if d.broke {
      n := a;
      SkipLoopOne(code, end, 0);
    } else {
      var t := Machine(end, d.regs, inner);
      RunSteps(m, p, code, start, a, 1);
      OneStep(m, p, code, t, 0);
      StepEndRep(m, p, code, t, loops, Loop(pos, k));
      if k == 1 {
        n := a + 1;
        assert ExecLoop(m, p, d.regs, body, 0) == d.regs;
      } else {
        var c := RunLoop(m, p, code, pos, body, d.regs, loops, k - 1);
        RunSteps(m, p, code, start, a + 1, c);
        n := a + 1 + c;
      }
    }
  }

  /** A balanced instruction list, run by the flat machine, halts at its end with the
      registers its block tree gives. */
  lemma {:induction false} FlatMachineFollowsTree(m: Math, p: Program, code: seq<Instruction>, regs: Regs) returns (n: nat)
    requires Balanced(code)
    ensures Run(m, p, code, Machine(0, regs, []), n)
         == Machine(|code|, ExecBlock(m, p, regs, Tree(code)).regs, [])
  {
    TreeFlattens(code);
    assert code[0..|code|] == code;
    BreaksOnlyInLoops(m, p, regs, Tree(code));
    n := RunBlock(m, p, code, 0, Tree(code), regs, []);
  }
}
