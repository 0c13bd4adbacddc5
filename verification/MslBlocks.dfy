/**
  Metal blocks as text: writing a block as lines, reading lines back as a block.
 */
module MslBlocks {
  import opened Options
  import opened Sequences
  import opened Msl

  function Print(c: Code): seq<Line> {
    match c
    case Empty => []
    case Then(node, rest) => PrintNode(node) + Print(rest)
  }

  function PrintNode(n: Node): seq<Line> {
    match n
    case Simple(line) => [line]
    case If(open, thn) => [open] + Print(thn) + [Close]
    case IfElse(open, thn, els) => [open] + Print(thn) + [ElseMid] + Print(els) + [Close]
    case For(open, body) => [open] + Print(body) + [Close]
  }

  predicate IsSimple(l: Line) {
    l.Assign? || l.BreakLine? || l.BreakIf?
  }

  predicate WellFormed(c: Code) {
    match c
    case Empty => true
    case Then(node, rest) => WellFormedNode(node) && WellFormed(rest)
  }

  predicate WellFormedNode(n: Node) {
    match n
    case Simple(line) => IsSimple(line)
    case If(open, thn) => open.IfOpen? && WellFormed(thn)
    case IfElse(open, thn, els) => open.IfOpen? && WellFormed(thn) && WellFormed(els)
    case For(open, body) => open.ForOpen? && WellFormed(body)
  }

  datatype Read = ReadCode(c: Code, pos: nat) | ReadNode(n: Node, pos: nat) | Malformed

  predicate AtEnd(lines: seq<Line>, pos: nat) {
    pos >= |lines| || lines[pos].Close? || lines[pos].ElseMid?
  }

  function ReadBlock(lines: seq<Line>, pos: nat): (r: Read)
    requires pos <= |lines|
    ensures r.ReadCode? || r.Malformed?
    ensures r.ReadCode? ==> pos <= r.pos <= |lines|
    decreases |lines| - pos, 1
  {
    if AtEnd(lines, pos) then ReadCode(Empty, pos)
    else match ReadStmt(lines, pos)
      case ReadNode(n, next) =>
        (match ReadBlock(lines, next)
         case ReadCode(rest, end) => ReadCode(Then(n, rest), end)
         case _ => Malformed)
      case _ => Malformed
  }

  function ReadStmt(lines: seq<Line>, pos: nat): (r: Read)
    requires pos < |lines|
    ensures r.ReadNode? || r.Malformed?
    ensures r.ReadNode? ==> pos < r.pos <= |lines|
    decreases |lines| - pos, 0
  {
    var l := lines[pos];
    if l.IfOpen? then
      (match ReadBlock(lines, pos + 1)
       case ReadCode(thn, q) =>
         if q < |lines| && lines[q].Close? then ReadNode(Node.If(l, thn), q + 1)
         else if q < |lines| && lines[q].ElseMid? then
           (match ReadBlock(lines, q + 1)
            case ReadCode(els, r) =>
              if r < |lines| && lines[r].Close? then ReadNode(Node.IfElse(l, thn, els), r + 1) else Malformed
            case _ => Malformed)
         else Malformed
       case _ => Malformed)
    else if l.ForOpen? then
      (match ReadBlock(lines, pos + 1)
       case ReadCode(body, q) => if q < |lines| && lines[q].Close? then ReadNode(For(l, body), q + 1) else Malformed
       case _ => Malformed)
    else if IsSimple(l) then ReadNode(Simple(l), pos + 1)
    else Malformed
  }

  // A whole function body.
  function ReadAll(lines: seq<Line>): Option<Code> {
    match ReadBlock(lines, 0)
    case ReadCode(c, end) => if end == |lines| then Some(c) else None
    case _ => None
  }

  lemma {:induction false} StandsInside(lines: seq<Line>, pos: nat, f: seq<Line>)
    requires Stands(lines, pos, f)
    ensures pos + |f| <= |lines|
  {
  }

  lemma {:induction false} ReadsBlock(lines: seq<Line>, pos: nat, c: Code)
    requires WellFormed(c) && Stands(lines, pos, Print(c)) && AtEnd(lines, pos + |Print(c)|)
    ensures pos + |Print(c)| <= |lines|
    ensures ReadBlock(lines, pos) == ReadCode(c, pos + |Print(c)|)
    decreases c, 2
  {
    hide Stands, ReadStmt, PrintNode;
    StandsInside(lines, pos, Print(c));
    match c
    case Empty =>
    case Then(node, rest) =>
      StandsParts(lines, pos, PrintNode(node), Print(rest));
      ReadsNode(lines, pos, node);
      ReadsBlock(lines, pos + |PrintNode(node)|, rest);
  }

  lemma {:induction false} ReadsNode(lines: seq<Line>, pos: nat, n: Node)
    requires WellFormedNode(n) && Stands(lines, pos, PrintNode(n))
    ensures pos < |lines| && !AtEnd(lines, pos) && pos + |PrintNode(n)| <= |lines|
    ensures ReadStmt(lines, pos) == ReadNode(n, pos + |PrintNode(n)|)
    decreases n, 1
  {
    hide Stands, ReadBlock;
    match n
    case Simple(line) => Split1(lines, pos, line);
    case If(open, thn) =>
      Split3(lines, pos, open, Print(thn), Close);
      ReadsBlock(lines, pos + 1, thn);
    case For(open, body) =>
      Split3(lines, pos, open, Print(body), Close);
      ReadsBlock(lines, pos + 1, body);
    case IfElse(open, thn, els) => ReadsIfElse(lines, pos, n);
  }

  lemma {:induction false} ReadsIfElse(lines: seq<Line>, pos: nat, n: Node)
    requires n.IfElse? && WellFormedNode(n) && Stands(lines, pos, PrintNode(n))
    ensures pos < |lines| && !AtEnd(lines, pos) && pos + |PrintNode(n)| <= |lines|
    ensures ReadStmt(lines, pos) == ReadNode(n, pos + |PrintNode(n)|)
    decreases n, 0
  {
    hide Stands, ReadBlock;
    Split5(lines, pos, n.open, Print(n.thn), ElseMid, Print(n.els), Close);
    ReadsBlock(lines, pos + 1, n.thn);
    ReadsBlock(lines, pos + 2 + |Print(n.thn)|, n.els);
  }

  /** Reading what was written gives the block back. */
  lemma {:induction false} PrintReads(c: Code)
    requires WellFormed(c)
    ensures ReadAll(Print(c)) == Some(c)
  {
    assert Print(c)[0..|Print(c)|] == Print(c);
    hide ReadBlock, Print;
    ReadsBlock(Print(c), 0, c);
  }
}
