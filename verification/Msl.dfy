/**
  The part of the Metal Shading Language that translated shaders use: width-typed
  expressions, masked assignments, and blocks. An ill-typed piece of code has no meaning.
 */
module Msl {
  import opened Options
  import opened ShaderIr
  import opened ShaderSemantics

  // The variables of a translated shader.
  datatype Name =
    | R(n: nat) | InV(n: nat) | InT(n: nat) | C(n: nat) | CRelative(lane: Lane, n: nat) | CDef(n: nat) | I(n: nat)
    | B(n: nat) | A(n: nat) | OutPosition | OutFog | OutPointSize | OutOD(n: nat) | OutOT(n: nat) | OutO(n: nat)
    | OC(n: nat) | ODepth | S(n: nat) | Unknown(kind: RegKind, n: nat)

  datatype Fn1 = Neg | AbsOf | Exp2 | Log2 | Rsqrt | FractOf | SignOf | Sin | Cos
  datatype Fn2 = Plus | Minus | Times | Over | MinOf | MaxOf | Power
  datatype Cmp = Lt | Gt | Eq | Ge | Le | Ne

  datatype Expr =
    | Num(r: real)
    | Comp(v: Name, lane: Lane)
    | Un(f1: Fn1, e: Expr)
    | Bin(f2: Fn2, a: Expr, b: Expr)
    | Dot(a: Expr, b: Expr)
    | Mix(a: Expr, b: Expr, t: Expr)
    | Select(no: Expr, yes: Expr, cmp: Cmp, a: Expr, b: Expr)
    | Vec2(a: Expr, b: Expr)
    | Vec3(a: Expr, b: Expr, c: Expr)
    | Vec4(a: Expr, b: Expr, c: Expr, d: Expr)
    | Splat(n: nat, e: Expr)
    | Prefix(e: Expr, n: nat)

  type Vector = seq<real>

  // The variables' values, and how many components each input variable has.
  datatype Env = Env(vars: map<Name, V4>, inputWidth: nat -> nat)

  function Value(env: Env, v: Name): V4 {
    if v in env.vars then env.vars[v] else ZERO
  }

  function Width(env: Env, v: Name): nat {
    if v.InV? then env.inputWidth(v.n) else 4
  }

  // ---------------------------------------------------------------- expressions

  function Apply1(m: Math, f: Fn1, x: real): real {
    match f
    case Neg => -x
    case AbsOf => AbsR(x)
    case Exp2 => m.exp2(x)
    case Log2 => m.log2(x)
    case Rsqrt => m.rsqrt(x)
    case FractOf => Fract(x)
    case SignOf => Sign(x)
    case Sin => m.sin(x)
    case Cos => m.cos(x)
  }

  function Apply2(m: Math, f: Fn2, x: real, y: real): real {
    match f
    case Plus => x + y
    case Minus => x - y
    case Times => x * y
    case Over => m.div(x, y)
    case MinOf => MinR(x, y)
    case MaxOf => MaxR(x, y)
    case Power => m.pow(x, y)
  }

  predicate Holds(cmp: Cmp, x: real, y: real) {
    match cmp
    case Lt => x < y
    case Gt => x > y
    case Eq => x == y
    case Ge => x >= y
    case Le => x <= y
    case Ne => x != y
  }

  function Map1(m: Math, f: Fn1, v: Vector): (r: Vector)
    ensures |r| == |v| && forall k :: 0 <= k < |v| ==> r[k] == Apply1(m, f, v[k])
  {
    seq(|v|, k requires 0 <= k < |v| => Apply1(m, f, v[k]))
  }

  function Map2(m: Math, f: Fn2, v: Vector, w: Vector): (r: Vector)
    requires |v| == |w|
    ensures |r| == |v| && forall k :: 0 <= k < |v| ==> r[k] == Apply2(m, f, v[k], w[k])
  {
    seq(|v|, k requires 0 <= k < |v| => Apply2(m, f, v[k], w[k]))
  }

  function MixMap(v: Vector, w: Vector, t: Vector): (r: Vector)
    requires |v| == |w| == |t|
    ensures |r| == |v| && forall k :: 0 <= k < |v| ==> r[k] == v[k] + (w[k] - v[k]) * t[k]
  {
    seq(|v|, k requires 0 <= k < |v| => v[k] + (w[k] - v[k]) * t[k])
  }

  function SelectMap(no: Vector, yes: Vector, cmp: Cmp, v: Vector, w: Vector): (r: Vector)
    requires |no| == |yes| == |v| == |w|
    ensures |r| == |v| && forall k :: 0 <= k < |v| ==> r[k] == if Holds(cmp, v[k], w[k]) then yes[k] else no[k]
  {
    seq(|v|, k requires 0 <= k < |v| => if Holds(cmp, v[k], w[k]) then yes[k] else no[k])
  }

  function DotSum(v: Vector, w: Vector): real
    requires 2 <= |v| == |w| <= 4
  {
    var two := v[0] * w[0] + v[1] * w[1];
    if |v| == 2 then two else if |v| == 3 then two + v[2] * w[2] else two + v[2] * w[2] + v[3] * w[3]
  }

  function SplatTo(n: nat, x: real): (r: Vector)
    ensures |r| == n && forall k :: 0 <= k < n ==> r[k] == x
  {
    seq(n, k => x)
  }

  // The components of an expression; None when it is ill-typed. A component of a
  // one-component input, or one past the declared width, cannot be selected.
  function Eval(m: Math, env: Env, e: Expr): (r: Option<Vector>)
    ensures r.Some? ==> 1 <= |r.value| <= 4
  {
    match e
    case Num(x) => Some([x])
    case Comp(v, lane) =>
      if Width(env, v) >= 2 && lane < Width(env, v) then Some([Value(env, v).At(lane)]) else None
    case Un(f, a) =>
      var v := Eval(m, env, a);
      if v.None? then None else Some(Map1(m, f, v.value))
    case Bin(f, a, b) =>
      var v, w := Eval(m, env, a), Eval(m, env, b);
      if v.None? || w.None? || |v.value| != |w.value| then None else Some(Map2(m, f, v.value, w.value))
    case Dot(a, b) =>
      var v, w := Eval(m, env, a), Eval(m, env, b);
      if v.None? || w.None? || |v.value| != |w.value| || |v.value| < 2 then None
      else Some([DotSum(v.value, w.value)])
    case Mix(a, b, c) =>
      var v, w, t := Eval(m, env, a), Eval(m, env, b), Eval(m, env, c);
      if v.None? || w.None? || t.None? || !(|v.value| == |w.value| == |t.value|) then None
      else Some(MixMap(v.value, w.value, t.value))
    case Select(no, yes, cmp, a, b) =>
      var x, y, v, w := Eval(m, env, no), Eval(m, env, yes), Eval(m, env, a), Eval(m, env, b);
      if x.None? || y.None? || v.None? || w.None? || !(|x.value| == |y.value| == |v.value| == |w.value|) then None
      else Some(SelectMap(x.value, y.value, cmp, v.value, w.value))
    case Vec2(a, b) => Scalars([Eval(m, env, a), Eval(m, env, b)])
    case Vec3(a, b, c) => Scalars([Eval(m, env, a), Eval(m, env, b), Eval(m, env, c)])
    case Vec4(a, b, c, d) => Scalars([Eval(m, env, a), Eval(m, env, b), Eval(m, env, c), Eval(m, env, d)])
    case Splat(n, a) =>
      var v := Eval(m, env, a);
      if v.None? || |v.value| != 1 || !(1 <= n <= 4) then None else Some(SplatTo(n, v.value[0]))
    case Prefix(a, n) =>
      var v := Eval(m, env, a);
      if v.None? || |v.value| < 2 || !(1 <= n <= |v.value|) then None else Some(v.value[..n])
  }

  predicate IsScalar(v: Option<Vector>) {
    v.Some? && |v.value| == 1
  }

  function Scalars(vs: seq<Option<Vector>>): (r: Option<Vector>)
    requires 2 <= |vs| <= 4
    ensures r.Some? <==> forall k :: 0 <= k < |vs| ==> IsScalar(vs[k])
    ensures r.Some? ==> |r.value| == |vs| && forall k :: 0 <= k < |vs| ==> r.value[k] == vs[k].value[0]
  {
    if forall k :: 0 <= k < |vs| ==> IsScalar(vs[k])
    then Some(seq(|vs|, k requires 0 <= k < |vs| && IsScalar(vs[k]) => vs[k].value[0]))
    else None
  }

  // ---------------------------------------------------------------- assignments

  function MaskCount(mask: Nibble): nat {
    mask % 2 + mask / 2 % 2 + mask / 4 % 2 + mask / 8 % 2
  }

  // How many components of the mask come before component c.
  function Rank(mask: Nibble, c: Lane): (r: nat)
    ensures Selected(mask, c) ==> r < MaskCount(mask)
  {
    (if c > 0 then mask % 2 else 0) + (if c > 1 then mask / 2 % 2 else 0) + (if c > 2 then mask / 4 % 2 else 0)
  }

  datatype Line =
    | Assign(dst: Name, mask: Nibble, saturate: bool, rhs: Expr)
    | IfOpen(cmp: Cmp, a: Expr, b: Expr)
    | ElseMid
    | Close
    | ForOpen(bound: Expr)
    | BreakLine
    | BreakIf(cmp: Cmp, a: Expr, b: Expr)

  // The components of a value placed in the masked components, in order.
  function Scatter(mask: Nibble, was: V4, v: Vector): V4
    requires |v| == MaskCount(mask)
  {
    Masked(mask, was,
           if Selected(mask, 0) then v[Rank(mask, 0)] else was.x,
           if Selected(mask, 1) then v[Rank(mask, 1)] else was.y,
           if Selected(mask, 2) then v[Rank(mask, 2)] else was.z,
           if Selected(mask, 3) then v[Rank(mask, 3)] else was.w)
  }

  function Saturated(on: bool, v: Vector): (r: Vector)
    ensures |r| == |v| && forall k :: 0 <= k < |v| ==> r[k] == if on then Saturate(v[k]) else v[k]
  {
    if on then seq(|v|, k requires 0 <= k < |v| => Saturate(v[k])) else v
  }

  // The right-hand side must have as many components as the left-hand side names.
  function ExecAssign(m: Math, env: Env, l: Line): Option<Env>
    requires l.Assign?
  {
    var v := Eval(m, env, l.rhs);
    if v.None? || |v.value| != MaskCount(l.mask) then None
    else
      var put := Scatter(l.mask, Value(env, l.dst), Saturated(l.saturate, v.value));
      Some(env.(vars := env.vars[l.dst := put]))
  }

  // ---------------------------------------------------------------- blocks

  datatype Code = Empty | Then(head: Node, tail: Code)

  datatype Node =
    | Simple(line: Line)
    | If(open: Line, thn: Code)
    | IfElse(open: Line, thn: Code, els: Code)
    | For(open: Line, body: Code)

  datatype Result = Ended(env: Env, broke: bool) | Stuck

  // The value of a scalar condition.
  function Test(m: Math, env: Env, cmp: Cmp, a: Expr, b: Expr): Option<bool> {
    var v, w := Eval(m, env, a), Eval(m, env, b);
    if IsScalar(v) && IsScalar(w) then Some(Holds(cmp, v.value[0], w.value[0])) else None
  }

  // Running a block. The fuel bounds the number of passes of each loop; a run that needs
  // more is Stuck, as is one that meets an ill-typed line.
  function Exec(m: Math, env: Env, code: Code, fuel: nat): Result
    decreases code, 0, fuel
  {
    match code
    case Empty => Ended(env, false)
    case Then(node, rest) =>
      var r := ExecNode(m, env, node, fuel);
      if r.Stuck? || r.broke then r else Exec(m, r.env, rest, fuel)
  }

  function ExecNode(m: Math, env: Env, node: Node, fuel: nat): Result
    decreases node, 0, fuel
  {
    match node
    case Simple(line) => ExecSimple(m, env, line)
    case If(open, thn) =>
      var t := if open.IfOpen? then Test(m, env, open.cmp, open.a, open.b) else None;
      if t.None? then Stuck else if t.value then Exec(m, env, thn, fuel) else Ended(env, false)

    case IfElse(open, thn, els) =>
      var t := if open.IfOpen? then Test(m, env, open.cmp, open.a, open.b) else None;
      if t.None? then Stuck else if t.value then Exec(m, env, thn, fuel) else Exec(m, env, els, fuel)

    case For(open, body) => if open.ForOpen? then ExecFor(m, env, open.bound, body, 0, fuel) else Stuck
  }

  function ExecSimple(m: Math, env: Env, line: Line): Result {
    match line
    case Assign(_, _, _, _) =>
      var r := ExecAssign(m, env, line);
      if r.None? then Stuck else Ended(r.value, false)
    case BreakLine => Ended(env, true)
    case BreakIf(cmp, a, b) =>
      var t := Test(m, env, cmp, a, b);
      if t.None? then Stuck else Ended(env, t.value)
    case _ => Stuck
  }

  // for (int i = ...; i < int(bound); i++), with the bound evaluated before every pass.
  function ExecFor(m: Math, env: Env, bound: Expr, body: Code, i: nat, fuel: nat): Result
    decreases body, 1, fuel
  {
    var n := Eval(m, env, bound);
    if !IsScalar(n) then Stuck
    else if i >= Truncate(n.value[0]) then Ended(env, false)
    else if fuel == 0 then Stuck
    else
      var r := Exec(m, env, body, fuel);
      if r.Stuck? then r
      else if r.broke then Ended(r.env, false)
      else ExecFor(m, r.env, bound, body, i + 1, fuel - 1)
  }
}
