/**
  Running the lines of one translated instruction against executing the instruction.
 */
module ShaderAssignments {
  import opened Options
  import opened ShaderIr
  import opened ShaderSemantics
  import opened Msl
  import opened MslEmitter
  import opened ShaderInterface
  import opened ShaderOperands
  import opened ShaderInstructions

  // ---------------------------------------------------------------- the channel condition

  // The component of the emitted value that lands in channel c means channel c.
  predicate ChannelMatches(i: Instruction, c: Lane)
    requires |i.src| == SourceCount(i.op) && Selected(i.dst.writeMask, c)
  {
    var k := Picked(i, Rank(i.dst.writeMask, c));
    if Pointwise(i.op) then forall s :: 0 <= s < Arity(i.op) ==> i.src[s].swizzle.At(k) == i.src[s].swizzle.At(c)
    else i.op.Dp2Add? ==> i.src[2].swizzle.At(0) == i.src[2].swizzle.At(c)
  }

  predicate ChannelsMatch(i: Instruction)
    requires |i.src| == SourceCount(i.op)
  {
    forall c: Lane :: Selected(i.dst.writeMask, c) ==> ChannelMatches(i, c)
  }

  lemma {:induction false} SameSwizzleSameSource(m: Math, p: Program, regs: Regs, r: Register, a: Lane, b: Lane)
    requires LocOf(p, r).Some? && r.swizzle.At(a) == r.swizzle.At(b)
    ensures Source(m, p, regs, r, a) == Source(m, p, regs, r, b)
  {
  }

  lemma {:induction false} PickedChannel(m: Math, p: Program, regs: Regs, i: Instruction, c: Lane)
    requires Executable(p, i) && !i.op.SinCos? && Selected(i.dst.writeMask, c) && ChannelMatches(i, c)
    ensures Channel(m, p, regs, i, Picked(i, Rank(i.dst.writeMask, c))) == Channel(m, p, regs, i, c)
  {
    var k := Picked(i, Rank(i.dst.writeMask, c));
    hide LocOf, Source, Rank, Selected, IsScalarOp;
    if Pointwise(i.op) {
      forall s | 0 <= s < Arity(i.op) ensures SourceChannel(m, p, regs, i, s, k) == SourceChannel(m, p, regs, i, s, c) {
        SameSwizzleSameSource(m, p, regs, i.src[s], k, c);
      }
    } else if i.op.Dp2Add? {
      SameSwizzleSameSource(m, p, regs, i.src[2], k, c);
    }
  }

  // ---------------------------------------------------------------- assignments

  lemma {:induction false} WriteKeepsAgreement(p: Program, regs: Regs, env: Env, l: Loc, v: V4)
    requires Agrees(p, regs, env)
    ensures Agrees(p, regs[l := v], env.(vars := env.vars[LocName(p, l) := v]))
  {
    var after := env.(vars := env.vars[LocName(p, l) := v]);
    forall k ensures Get(regs[l := v], k) == Value(after, LocName(p, k)) {
      NamesAreDistinct(p, l, k);
      assert Get(regs, k) == Value(env, LocName(p, k));
    }
  }

  lemma {:induction false} WriteKeepsNarrow(p: Program, regs: Regs, l: Loc, v: V4)
    requires Narrow(p, regs) && Writable(l)
    ensures Narrow(p, regs[l := v])
  {
    hide VariableWidth;
    var after := regs[l := v];
    forall n: nat, lane: Lane ensures ZeroBeyond(p, after, n, lane) {
      assert ZeroBeyond(p, regs, n, lane);
    }
  }

  // The value Execute leaves in the destination.
  function Outcome(m: Math, p: Program, regs: Regs, i: Instruction): V4
    requires Executable(p, i)
  {
    Get(Execute(m, p, regs, i), LocOf(p, i.dst).value)
  }

  lemma {:induction false} ScatterIsOutcome(m: Math, p: Program, regs: Regs, i: Instruction)
    requires Executable(p, i) && !i.op.SinCos? && ChannelsMatch(i)
    ensures Scatter(i.dst.writeMask, Get(regs, LocOf(p, i.dst).value), Saturated(Saturates(i.dst), Computed(m, p, regs, i)))
         == Outcome(m, p, regs, i)
  {
    hide LocOf, Channel, Rank, Saturate, Selected, ChannelMatches;
    var mask := i.dst.writeMask;
    if Selected(mask, 0) { PickedChannel(m, p, regs, i, 0); }
    if Selected(mask, 1) { PickedChannel(m, p, regs, i, 1); }
    if Selected(mask, 2) { PickedChannel(m, p, regs, i, 2); }
    if Selected(mask, 3) { PickedChannel(m, p, regs, i, 3); }
  }

  function ExecLines(m: Math, env: Env, lines: seq<Line>): Option<Env>
    decreases |lines|
  {
    if lines == [] then Some(env)
    else if !lines[0].Assign? then None
    else match ExecAssign(m, env, lines[0])
      case None => None
      case Some(next) => ExecLines(m, next, lines[1..])
  }

  function StepRegs(m: Math, p: Program, regs: Regs, i: Instruction): Regs {
    if Executable(p, i) then Execute(m, p, regs, i) else regs
  }

  predicate GoodArithmetic(p: Program, i: Instruction) {
    Arithmetic(p, i) && MaskCount(i.dst.writeMask) > 0 && RhsTyped(p, i) && ChannelsMatch(i)
  }

  // SINCOS assigns its channels one after the other, unsaturated, and zeros z and w.
  predicate GoodSinCos(p: Program, i: Instruction) {
    && i.op.SinCos? && Executable(p, i) && !Saturates(i.dst)
    && !i.dst.relative && Writable(LocOf(p, i.dst).value) && Plainly(p, i.src[0])
    && 1 <= i.dst.writeMask <= 3
    && ComponentTyped(p, i.src[0], 0)
    && (Selected(i.dst.writeMask, 1) ==> i.src[0].swizzle.x == i.src[0].swizzle.y)
    && (i.dst.writeMask == 3 && LocOf(p, i.dst) == LocOf(p, i.src[0]) ==> i.src[0].swizzle.x != 0)
  }

  // The instructions whose translation means the same.
  predicate Translatable(p: Program, i: Instruction) {
    (i.op.Nop? && i.src == []) || GoodArithmetic(p, i) || GoodSinCos(p, i)
  }

  lemma {:induction false} AssignMeans(m: Math, env: Env, dst: Name, mask: Nibble, sat: bool, e: Expr, v: Vector)
    requires Eval(m, env, e) == Some(v) && |v| == MaskCount(mask)
    ensures ExecLines(m, env, [Assign(dst, mask, sat, e)])
         == Some(env.(vars := env.vars[dst := Scatter(mask, Value(env, dst), Saturated(sat, v))]))
  {
    hide Eval, Scatter, Saturated, MaskCount;
    var l := Assign(dst, mask, sat, e);
    var next := ExecAssign(m, env, l).value;
    assert [l][1..] == [];
    assert ExecLines(m, next, []) == Some(next);
  }

  // The lines of an instruction as one assignment.
  lemma {:induction false} ArithmeticLine(m: Math, p: Program, regs: Regs, env: Env, i: Instruction)
    requires Arithmetic(p, i) && MaskCount(i.dst.writeMask) > 0 && RhsTyped(p, i)
    requires Agrees(p, regs, env) && Narrow(p, regs)
    ensures var name := LocName(p, LocOf(p, i.dst).value);
      ExecLines(m, env, EmitOne(p, i))
      == Some(env.(vars := env.vars[name := Scatter(i.dst.writeMask, Value(env, name),
                                                    Saturated(Saturates(i.dst), Computed(m, p, regs, i)))]))
  {
    hide Agrees, Narrow, Eval, Fitted, RhsOf, Scatter, Saturated, Computed, NameOf, LocName, ExecLines, ChannelsMatch, RhsTyped,
      LocOf, MaskCount;
    AssignedValue(m, p, regs, env, i);
    NameOfLocation(p, i.dst);
    AssignMeans(m, env, NameOf(p, i.dst), i.dst.writeMask, Saturates(i.dst), Fitted(i, RhsOf(p, i)), Computed(m, p, regs, i));
  }

  lemma {:induction false} ArithmeticRuns(m: Math, p: Program, regs: Regs, env: Env, i: Instruction) returns (after: Env)
    requires GoodArithmetic(p, i) && Agrees(p, regs, env) && Narrow(p, regs)
    ensures ExecLines(m, env, EmitOne(p, i)) == Some(after)
    ensures Agrees(p, Execute(m, p, regs, i), after) && Narrow(p, Execute(m, p, regs, i))
  {
    var l := LocOf(p, i.dst).value;
    var v := Outcome(m, p, regs, i);
    assert Get(regs, l) == Value(env, LocName(p, l));
    hide Agrees, Narrow, EmitOne, ExecLines, Scatter, Computed, LocName, ChannelsMatch, RhsTyped, LocOf, Channel, Masked;
    ArithmeticLine(m, p, regs, env, i);
    ScatterIsOutcome(m, p, regs, i);
    WriteKeepsAgreement(p, regs, env, l, v);
    WriteKeepsNarrow(p, regs, l, v);
    after := env.(vars := env.vars[LocName(p, l) := v]);
  }

  // ---------------------------------------------------------------- SINCOS

  lemma {:induction false} ScalarMeans(m: Math, p: Program, regs: Regs, env: Env, r: Register, f: Fn1)
    requires Plainly(p, r) && Agrees(p, regs, env) && Narrow(p, regs) && ComponentTyped(p, r, 0)
    ensures Eval(m, env, Operand(p, r, 1)) == Some([Source(m, p, regs, r, 0)])
    ensures Eval(m, env, Un(f, Operand(p, r, 1))) == Some([Apply1(m, f, Source(m, p, regs, r, 0))])
  {
    OperandMeans(m, p, regs, env, r, 1);
    ChannelsListed(m, p, regs, r, 1);
    hide Agrees, Narrow, ComponentTyped, Source, Plainly, LocOf, Eval, Operand;
    UnMeans(m, env, f, Operand(p, r, 1), Source(m, p, regs, r, 0));
  }

  // One channel of SINCOS: an assignment to a single component.
  lemma {:induction false} ChannelAssigned(m: Math, p: Program, regs: Regs, env: Env, i: Instruction, f: Fn1, c: Lane)
    returns (regs': Regs, env': Env)
    requires GoodSinCos(p, i) && Agrees(p, regs, env) && Narrow(p, regs) && c < 2 && f == (if c == 0 then Cos else Sin)
    ensures var l := LocOf(p, i.dst).value;
      regs' == regs[l := Get(regs, l).Put(c, Apply1(m, f, Source(m, p, regs, i.src[0], 0)))]
    ensures ExecLines(m, env, [SinCosLine(p, i, c)]) == Some(env')
    ensures Agrees(p, regs', env') && Narrow(p, regs')
  {
    var l := LocOf(p, i.dst).value;
    var mask := if c == 0 then 1 else 2;
    var x := Apply1(m, f, Source(m, p, regs, i.src[0], 0));
    var was := Get(regs, l);
    assert was == Value(env, LocName(p, l));
    NameOfLocation(p, i.dst);
    ScalarMeans(m, p, regs, env, i.src[0], f);
    assert Scatter(mask, was, Saturated(false, [x])) == was.Put(c, x);
    hide Agrees, Narrow, ComponentTyped, Source, Plainly, LocOf, Eval, Operand, NameOf, Scatter, LocName, ExecLines, Apply1;
    AssignMeans(m, env, NameOf(p, i.dst), mask, false, Un(f, Operand(p, i.src[0], 1)), [x]);
    WriteKeepsAgreement(p, regs, env, l, was.Put(c, x));
    WriteKeepsNarrow(p, regs, l, was.Put(c, x));
    regs' := regs[l := was.Put(c, x)];
    env' := env.(vars := env.vars[LocName(p, l) := was.Put(c, x)]);
  }

  lemma {:induction false} ExecLinesJoin(m: Math, env: Env, a: seq<Line>, b: seq<Line>)
    ensures ExecLines(m, env, a + b)
         == match ExecLines(m, env, a) case None => None case Some(mid) => ExecLines(m, mid, b)
    decreases |a|
  {
    hide ExecAssign;
    if a == [] {
      assert a + b == b;
    } else {
      assert (a + b)[1..] == a[1..] + b;
      if a[0].Assign? && ExecAssign(m, env, a[0]).Some? {
        ExecLinesJoin(m, ExecAssign(m, env, a[0]).value, a[1..], b);
      }
    }
  }

  // Writing the first channel leaves the source of the second one alone.
  lemma {:induction false} SourceUntouched(m: Math, p: Program, regs: Regs, r: Register, l: Loc, x: real)
    requires LocOf(p, r).Some? && (LocOf(p, r) == Some(l) ==> r.swizzle.x != 0)
    ensures Source(m, p, regs[l := Get(regs, l).Put(0, x)], r, 0) == Source(m, p, regs, r, 0)
  {
    hide LocOf;
  }

  function SinCosLine(p: Program, i: Instruction, c: Lane): Line
    requires |i.src| == 1
  {
    var scalar := Operand(p, i.src[0], 1);
    if c == 0 then Assign(NameOf(p, i.dst), 1, false, Un(Cos, scalar))
    else Assign(NameOf(p, i.dst), 2, false, Un(Sin, scalar))
  }

  lemma {:induction false} TwoLines(m: Math, env: Env, mid: Env, end: Env, a: Line, b: Line)
    requires ExecLines(m, env, [a]) == Some(mid) && ExecLines(m, mid, [b]) == Some(end)
    ensures ExecLines(m, env, [a, b]) == Some(end)
  {
    ExecLinesJoin(m, env, [a], [b]);
    assert [a] + [b] == [a, b];
  }

  lemma {:induction false} PutTwice(regs: Regs, l: Loc, x: real, y: real)
    ensures var r0 := regs[l := Get(regs, l).Put(0, x)];
      r0[l := Get(r0, l).Put(1, y)] == regs[l := Get(regs, l).Put(0, x).Put(1, y)]
  {
  }

  lemma {:induction false} SinCosFacts(p: Program, i: Instruction)
    requires GoodSinCos(p, i)
    ensures i.op.SinCos? && |i.src| == 1 && LocOf(p, i.dst).Some? && LocOf(p, i.src[0]).Some?
    ensures i.dst.writeMask == 3 && LocOf(p, i.src[0]) == LocOf(p, i.dst) ==> i.src[0].swizzle.x != 0
    ensures 1 <= i.dst.writeMask <= 3
  {
  }

  // The registers after both channels were written.
  lemma {:induction false} BothChannels(m: Math, p: Program, regs: Regs, env: Env, i: Instruction) returns (regs': Regs, env': Env)
    requires GoodSinCos(p, i) && Agrees(p, regs, env) && Narrow(p, regs) && i.dst.writeMask == 3
    ensures var l, x := LocOf(p, i.dst).value, Source(m, p, regs, i.src[0], 0);
      regs' == regs[l := Get(regs, l).Put(0, m.cos(x)).Put(1, m.sin(x))]
    ensures ExecLines(m, env, [SinCosLine(p, i, 0), SinCosLine(p, i, 1)]) == Some(env')
    ensures Agrees(p, regs', env') && Narrow(p, regs')
  {
    hide GoodSinCos, Agrees, Narrow, Source, LocOf, SinCosLine, ExecLines, Get;
    SinCosFacts(p, i);
    var l, r := LocOf(p, i.dst).value, i.src[0];
    var x := Source(m, p, regs, r, 0);
    var r0, e0 := ChannelAssigned(m, p, regs, env, i, Cos, 0);
    SourceUntouched(m, p, regs, r, l, m.cos(x));
    var r1, e1 := ChannelAssigned(m, p, r0, e0, i, Sin, 1);
    TwoLines(m, env, e0, e1, SinCosLine(p, i, 0), SinCosLine(p, i, 1));
    PutTwice(regs, l, m.cos(x), m.sin(x));
    regs', env' := r1, e1;
  }

  lemma {:induction false} SinCosRuns(m: Math, p: Program, regs: Regs, env: Env, i: Instruction) returns (after: Env)
    requires GoodSinCos(p, i) && Agrees(p, regs, env) && Narrow(p, regs)
    ensures ExecLines(m, env, EmitOne(p, i)) == Some(after)
    ensures Agrees(p, Execute(m, p, regs, i), after) && Narrow(p, Execute(m, p, regs, i))
  {
    hide GoodSinCos, Agrees, Narrow, Source, Operand, NameOf, EmitOne, Execute, ExecLines, LocOf, Get, SinCosLine;
    SinCosFacts(p, i);
    SinCosLines(p, i);
    SinCosOutcome(m, p, regs, i);
    var regs';
    if i.dst.writeMask == 3 {
      regs', after := BothChannels(m, p, regs, env, i);
    } else if i.dst.writeMask == 1 {
      regs', after := ChannelAssigned(m, p, regs, env, i, Cos, 0);
    } else {
      regs', after := ChannelAssigned(m, p, regs, env, i, Sin, 1);
    }
  }

  lemma {:induction false} SinCosLines(p: Program, i: Instruction)
    requires GoodSinCos(p, i)
    ensures var mask := i.dst.writeMask;
      EmitOne(p, i) == if mask == 1 then [SinCosLine(p, i, 0)] else if mask == 2 then [SinCosLine(p, i, 1)]
                       else [SinCosLine(p, i, 0), SinCosLine(p, i, 1)]
  {
    hide NameOf, Operand, LocOf, ComponentTyped;
  }

  lemma {:induction false} SinCosOutcome(m: Math, p: Program, regs: Regs, i: Instruction)
    requires GoodSinCos(p, i)
    ensures var mask, l := i.dst.writeMask, LocOf(p, i.dst).value;
      var x, was := Source(m, p, regs, i.src[0], 0), Get(regs, l);
      Execute(m, p, regs, i) == regs[l := if mask == 1 then was.Put(0, m.cos(x)) else if mask == 2 then was.Put(1, m.sin(x))
                                          else was.Put(0, m.cos(x)).Put(1, m.sin(x))]
  {
    hide LocOf, ComponentTyped, Combine;
    if i.dst.writeMask != 1 {
      SameSwizzleSameSource(m, p, regs, i.src[0], 0, 1);
    }
    hide Source;
  }

  // ---------------------------------------------------------------- SINCOS and saturation

  function Unsaturated(i: Instruction): Instruction {
    i.(dst := i.dst.(resultMod := i.dst.resultMod - i.dst.resultMod % 2))
  }

  // The emitter does not look at the result modifier of a SINCOS.
  lemma {:induction false} SinCosIgnoresModifier(p: Program, i: Instruction)
    requires i.op.SinCos? && |i.src| == 1
    ensures EmitOne(p, i) == EmitOne(p, Unsaturated(i))
  {
    assert NameOf(p, i.dst) == NameOf(p, Unsaturated(i).dst);
    hide NameOf, Operand;
  }

  // Saturating what the instruction writes changes nothing.
  predicate WithinUnit(m: Math, p: Program, regs: Regs, i: Instruction)
    requires Executable(p, i)
  {
    forall c: Lane :: Selected(i.dst.writeMask, c) ==> Saturate(Channel(m, p, regs, i, c)) == Channel(m, p, regs, i, c)
  }

  lemma {:induction false} SameChannel(m: Math, p: Program, regs: Regs, i: Instruction, c: Lane)
    requires Executable(p, i) && Executable(p, Unsaturated(i))
    ensures Channel(m, p, regs, i, c) == Channel(m, p, regs, Unsaturated(i), c)
    ensures LocOf(p, i.dst) == LocOf(p, Unsaturated(i).dst)
  {
    hide Source, Combine;
  }

  lemma {:induction false} MaskedSaturation(mask: Nibble, was: V4, v: V4)
    ensures Masked(mask, was, Saturate(v.x), Saturate(v.y), Saturate(v.z), Saturate(v.w)) == Masked(mask, was, v.x, v.y, v.z, v.w)
      <==> forall c: Lane :: Selected(mask, c) ==> Saturate(v.At(c)) == v.At(c)
  {
    hide Saturate, Selected;
    if forall c: Lane :: Selected(mask, c) ==> Saturate(v.At(c)) == v.At(c) {
      assert Selected(mask, 0) ==> Saturate(v.At(0)) == v.At(0);
      assert Selected(mask, 1) ==> Saturate(v.At(1)) == v.At(1);
      assert Selected(mask, 2) ==> Saturate(v.At(2)) == v.At(2);
      assert Selected(mask, 3) ==> Saturate(v.At(3)) == v.At(3);
    }
  }

  function Channels(m: Math, p: Program, regs: Regs, i: Instruction): V4
    requires Executable(p, i)
  {
    V4(Channel(m, p, regs, i, 0), Channel(m, p, regs, i, 1), Channel(m, p, regs, i, 2), Channel(m, p, regs, i, 3))
  }

  lemma {:induction false} OutcomeOf(m: Math, p: Program, regs: Regs, i: Instruction)
    requires Executable(p, i)
    ensures var v, was := Channels(m, p, regs, i), Get(regs, LocOf(p, i.dst).value);
      Outcome(m, p, regs, i) ==
      if Saturates(i.dst) then Masked(i.dst.writeMask, was, Saturate(v.x), Saturate(v.y), Saturate(v.z), Saturate(v.w))
      else Masked(i.dst.writeMask, was, v.x, v.y, v.z, v.w)
  {
    hide LocOf, Channel, Saturate, Selected, Masked;
  }

  lemma {:induction false} SaturationMatters(m: Math, p: Program, regs: Regs, i: Instruction)
    requires Executable(p, i) && Executable(p, Unsaturated(i)) && Saturates(i.dst)
    ensures Outcome(m, p, regs, i) == Outcome(m, p, regs, Unsaturated(i)) <==> WithinUnit(m, p, regs, i)
  {
    hide LocOf, Channel, Saturate, Selected, Masked, Outcome, SourcesExist;
    SameChannel(m, p, regs, i, 0);
    SameChannel(m, p, regs, i, 1);
    SameChannel(m, p, regs, i, 2);
    SameChannel(m, p, regs, i, 3);
    OutcomeOf(m, p, regs, i);
    OutcomeOf(m, p, regs, Unsaturated(i));
    var v := Channels(m, p, regs, i);
    MaskedSaturation(i.dst.writeMask, Get(regs, LocOf(p, i.dst).value), v);
    assert forall c: Lane :: v.At(c) == Channel(m, p, regs, i, c);
  }

  // Two values of one location cannot both agree.
  lemma {:induction false} OneValueAgrees(p: Program, regs: Regs, env: Env, l: Loc, v: V4, w: V4)
    requires Agrees(p, regs[l := v], env)
    ensures Agrees(p, regs[l := w], env) <==> v == w
  {
    assert Get(regs[l := v], l) == Value(env, LocName(p, l));
    if Agrees(p, regs[l := w], env) {
      assert Get(regs[l := w], l) == Value(env, LocName(p, l));
    }
  }

  /** SINCOS loses its saturation in translation: its lines leave what the saturated instruction
      leaves exactly when the cosine and sine it writes lie between 0 and 1 anyway. */
  lemma {:induction false} SaturatedSinCosExactly(m: Math, p: Program, regs: Regs, env: Env, i: Instruction) returns (after: Env)
    requires GoodSinCos(p, Unsaturated(i)) && Saturates(i.dst) && Executable(p, i)
    requires Agrees(p, regs, env) && Narrow(p, regs)
    ensures ExecLines(m, env, EmitOne(p, i)) == Some(after)
    ensures Agrees(p, Execute(m, p, regs, i), after) <==> WithinUnit(m, p, regs, i)
  {
    hide LocOf, Agrees, Narrow, GoodSinCos, Masked, Channel, EmitOne, ExecLines, WithinUnit, Selected, Saturate;
    SinCosFacts(p, Unsaturated(i));
    GoodIsExecutable(p, Unsaturated(i));
    SinCosIgnoresModifier(p, i);
    SameChannel(m, p, regs, i, 0);
    after := SinCosRuns(m, p, regs, env, Unsaturated(i));
    SaturationMatters(m, p, regs, i);
    OneValueAgrees(p, regs, after, LocOf(p, i.dst).value, Outcome(m, p, regs, Unsaturated(i)), Outcome(m, p, regs, i));
  }

  /** The lines of a translatable instruction run without a type error and leave in the Metal
      variables what executing the instruction leaves in the registers. */
  lemma {:induction false} InstructionRuns(m: Math, p: Program, regs: Regs, env: Env, i: Instruction) returns (after: Env)
    requires Modelled(i) && Translatable(p, i) && Agrees(p, regs, env) && Narrow(p, regs)
    ensures ExecLines(m, env, EmitOne(p, i)) == Some(after)
    ensures Agrees(p, StepRegs(m, p, regs, i), after) && Narrow(p, StepRegs(m, p, regs, i))
  {
    hide Agrees, Narrow, Execute, GoodArithmetic, GoodSinCos;
    if i.op.Nop? {
      after := env;
    } else if GoodArithmetic(p, i) {
      GoodIsExecutable(p, i);
      after := ArithmeticRuns(m, p, regs, env, i);
    } else {
      GoodIsExecutable(p, i);
      after := SinCosRuns(m, p, regs, env, i);
    }
  }

  lemma {:induction false} GoodIsExecutable(p: Program, i: Instruction)
    requires GoodArithmetic(p, i) || GoodSinCos(p, i)
    ensures Executable(p, i)
  {
  }
}
