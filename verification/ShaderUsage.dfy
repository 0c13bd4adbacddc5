/**
  The register-usage summary of a parsed shader: what it says of every register, in terms of the
  instructions and declarations that are written in the bytecode.
 */
module ShaderUsage {
  import opened Options
  import opened Words
  import opened ShaderIr
  import opened ShaderTokens
  import opened ShaderParser
  import opened ShaderFormat

  // A register by its kind and number.
  type Key = (nat, nat)

  function KeyOf(r: Register): Key {
    (r.kind, r.number)
  }

  function Keys(src: seq<Register>): set<Key>
    decreases |src|
  {
    if src == [] then {} else {KeyOf(src[0])} + Keys(src[1..])
  }

  // The register an item writes, the ones it writes or reads, and the one it declares. The operands
  // of flow control are not looked at.
  function Written(item: Item): set<Key> {
    if item.Instr? && HasDst(item.instruction.op) then {KeyOf(item.instruction.dst)} else {}
  }

  function Used(item: Item): set<Key> {
    if item.Instr? && !IsFlow(item.instruction.op) then Written(item) + Keys(item.instruction.src) else {}
  }

  function Declared(item: Item): set<Key> {
    if item.Declaration? then {(item.dcl.kind, item.dcl.number)} else {}
  }

  predicate DeclaresPosition(item: Item) {
    item.Declaration? && item.dcl.kind == OUTPUT && item.dcl.usage == USAGE_POSITION && item.dcl.usageIndex == 0
  }

  const NO_KEYS: set<Key> := {}

  // The same for a list of items.
  function WrittenBy(items: seq<Item>): set<Key>
    decreases |items|
  {
    if items == [] then {} else Written(items[0]) + WrittenBy(items[1..])
  }

  function UsedBy(items: seq<Item>): set<Key>
    decreases |items|
  {
    if items == [] then {} else Used(items[0]) + UsedBy(items[1..])
  }

  function DeclaredBy(items: seq<Item>): set<Key>
    decreases |items|
  {
    if items == [] then {} else Declared(items[0]) + DeclaredBy(items[1..])
  }

  predicate PositionBy(items: seq<Item>)
    decreases |items|
  {
    items != [] && (DeclaresPosition(items[0]) || PositionBy(items[1..]))
  }

  // ---------------------------------------------------------------- which registers are taken

  // The numbers that a kind of register may have.
  predicate Allowed(kind: RegKind, n: nat) {
    && (kind == TEMP || kind == CONST ==> n <= 255)
    && (kind == INPUT || kind == OUTPUT || kind == SAMPLER || kind == ATTROUT || kind == COLOROUT ==> n < 32)
    && (kind == RASTOUT ==> n <= 2)
  }

  predicate AllAllowed(src: seq<Register>) {
    forall k :: 0 <= k < |src| ==> Allowed(src[k].kind, src[k].number)
  }

  // What the summary makes of an item when there is room for it.
  predicate ItemAllowed(item: Item) {
    match item
    case Instr(i) => IsFlow(i.op) || ((HasDst(i.op) ==> Allowed(i.dst.kind, i.dst.number)) && AllAllowed(i.src))
    case Declaration(d) => (d.kind == INPUT || d.kind == OUTPUT) ==> d.number < 32
    case _ => true
  }

  lemma {:induction false} TrackedExactly(u: Usage, r: Register, isDst: bool)
    ensures Track(u, r, isDst).Some? <==> Allowed(r.kind, r.number)
  {
  }

  lemma {:induction false} AllTrackedExactly(u: Usage, src: seq<Register>)
    ensures TrackAll(u, src).Some? <==> AllAllowed(src)
    decreases |src|
  {
    hide Track, Allowed;
    if src != [] {
      TrackedExactly(u, src[0], false);
      if Track(u, src[0], false).Some? {
        AllTrackedExactly(Track(u, src[0], false).value, src[1..]);
        assert AllAllowed(src) <==> AllAllowed(src[1..]) by {
          if AllAllowed(src[1..]) {
            forall k | 0 <= k < |src| ensures Allowed(src[k].kind, src[k].number) {
              if k > 0 { assert src[k] == src[1..][k - 1]; }
            }
          }
        }
      }
    }
  }

  /** An item is taken exactly when its registers have numbers that are allowed and its table has
      room: at most 512 instructions, 48 declarations, and 64 defined registers. */
  lemma {:induction false} TakenExactly(p: Program, item: Item)
    ensures Absorb(p, item).Some? <==>
      && ItemAllowed(item)
      && (item.Instr? ==> |p.instructions| < MAX_INSTRUCTIONS)
      && (item.Declaration? ==> |p.dcls| < MAX_DCL)
      && (item.Definition? ==> |Upsert(p.defs, item.def)| <= MAX_DEF)
  {
    hide Track, TrackAll, Allowed, AllAllowed, Upsert;
    match item
    case Instr(i) =>
      TrackedExactly(p.usage, i.dst, true);
      var u := if HasDst(i.op) then Track(p.usage, i.dst, true) else Some(p.usage);
      if u.Some? { AllTrackedExactly(u.value, i.src); }
    case _ =>
  }

  // ---------------------------------------------------------------- what the summary says

  predicate Has(keys: set<Key>, kind: nat, n: nat) {
    (kind, n) in keys
  }

  // t has, beyond s, the numbers of the registers of a kind among these.
  ghost predicate SetAdds(s: set<nat>, t: set<nat>, kind: nat, more: set<Key>) {
    forall n: nat :: n in t <==> n in s || (kind, n) in more
  }

  // to is the largest of m and the numbers of the registers of a kind among these.
  ghost predicate MaxAdds(m: nat, to: nat, kind: nat, more: set<Key>) {
    m <= to && (forall n: nat :: (kind, n) in more ==> n <= to) && (to == m || (kind, to) in more)
  }

  ghost predicate Adds(u: Usage, v: Usage, written: set<Key>, used: set<Key>, declared: set<Key>, position: bool) {
    && SetAdds(u.inputs, v.inputs, INPUT, used + declared)
    && SetAdds(u.outputs, v.outputs, OUTPUT, used + declared)
    && SetAdds(u.samplers, v.samplers, SAMPLER, used + declared)
    && SetAdds(u.attributes, v.attributes, ATTROUT, written)
    && MaxAdds(u.maxTemp, v.maxTemp, TEMP, used) && MaxAdds(u.maxConst, v.maxConst, CONST, used)
    && (v.writesPosition <==> u.writesPosition || (RASTOUT, 0) in written || position)
    && (v.writesFog <==> u.writesFog || (RASTOUT, 1) in written)
    && (v.writesDepth <==> u.writesDepth || exists n: nat :: Has(written, DEPTHOUT, n))
  }

  lemma {:induction false} SetAddsJoin(s: set<nat>, t: set<nat>, r: set<nat>, kind: nat, a: set<Key>, b: set<Key>)
    requires SetAdds(s, t, kind, a) && SetAdds(t, r, kind, b)
    ensures SetAdds(s, r, kind, a + b)
  {
  }

  lemma {:induction false} MaxAddsJoin(m: nat, n: nat, o: nat, kind: nat, a: set<Key>, b: set<Key>)
    requires MaxAdds(m, n, kind, a) && MaxAdds(n, o, kind, b)
    ensures MaxAdds(m, o, kind, a + b)
  {
  }

  lemma {:induction false} AddsJoin(u: Usage, v: Usage, w: Usage, written: set<Key>, used: set<Key>, declared: set<Key>,
                                    position: bool, written': set<Key>, used': set<Key>, declared': set<Key>, position': bool)
    requires Adds(u, v, written, used, declared, position) && Adds(v, w, written', used', declared', position')
    ensures Adds(u, w, written + written', used + used', declared + declared', position || position')
  {
    var a, b := used + declared, used' + declared';
    SetAddsJoin(u.inputs, v.inputs, w.inputs, INPUT, a, b);
    SetAddsJoin(u.outputs, v.outputs, w.outputs, OUTPUT, a, b);
    SetAddsJoin(u.samplers, v.samplers, w.samplers, SAMPLER, a, b);
    SetAddsJoin(u.attributes, v.attributes, w.attributes, ATTROUT, written, written');
    MaxAddsJoin(u.maxTemp, v.maxTemp, w.maxTemp, TEMP, used, used');
    MaxAddsJoin(u.maxConst, v.maxConst, w.maxConst, CONST, used, used');
    assert a + b == (used + used') + (declared + declared');
    hide SetAdds, MaxAdds;
    if n: nat :| Has(written, DEPTHOUT, n) { assert Has(written + written', DEPTHOUT, n); }
    if n: nat :| Has(written', DEPTHOUT, n) { assert Has(written + written', DEPTHOUT, n); }
    if n: nat :| Has(written + written', DEPTHOUT, n) { assert Has(written, DEPTHOUT, n) || Has(written', DEPTHOUT, n); }
  }

  lemma {:induction false} NothingAdded(u: Usage)
    ensures Adds(u, u, {}, {}, {}, false)
  {
  }

  // What one register does to a set and to a maximum.
  lemma {:induction false} OneNumber(s: set<nat>, kind: nat, key: Key)
    ensures SetAdds(s, if key.0 == kind then s + {key.1} else s, kind, {key})
    ensures SetAdds(s, s, kind, NO_KEYS)
  {
  }

  lemma {:induction false} OneMaximum(m: nat, kind: nat, key: Key)
    ensures MaxAdds(m, if key.0 == kind then ShaderParser.Max(m, key.1) else m, kind, {key})
    ensures MaxAdds(m, m, kind, NO_KEYS)
  {
  }

  lemma {:induction false} TrackAdds(u: Usage, r: Register, isDst: bool, v: Usage)
    requires Track(u, r, isDst) == Some(v)
    ensures Adds(u, v, if isDst then {KeyOf(r)} else {}, {KeyOf(r)}, {}, false)
  {
    hide SetAdds, MaxAdds, ShaderParser.Max;
    var key := KeyOf(r);
    var written := if isDst then {key} else {};
    assert {key} + {} == {key};
    OneNumber(u.inputs, INPUT, key);
    OneNumber(u.outputs, OUTPUT, key);
    OneNumber(u.samplers, SAMPLER, key);
    OneNumber(u.attributes, ATTROUT, key);
    OneMaximum(u.maxTemp, TEMP, key);
    OneMaximum(u.maxConst, CONST, key);
    assert (exists n: nat :: Has(written, DEPTHOUT, n)) <==> isDst && r.kind == DEPTHOUT by {
      if isDst && r.kind == DEPTHOUT { assert Has(written, DEPTHOUT, r.number); }
    }
  }

  lemma {:induction false} TrackAllAdds(u: Usage, src: seq<Register>, v: Usage)
    requires TrackAll(u, src) == Some(v)
    ensures Adds(u, v, {}, Keys(src), {}, false)
    decreases |src|
  {
    hide Track, Adds, KeyOf;
    if src == [] {
      NothingAdded(u);
    } else {
      var t := Track(u, src[0], false).value;
      TrackAdds(u, src[0], false, t);
      TrackAllAdds(t, src[1..], v);
      AddsJoin(u, t, v, {}, {KeyOf(src[0])}, {}, false, {}, Keys(src[1..]), {}, false);
      assert NO_KEYS + NO_KEYS == NO_KEYS;
    }
  }

  lemma {:induction false} InstructionAdds(p: Program, i: Instruction, q: Program)
    requires Absorb(p, Instr(i)) == Some(q)
    ensures Adds(p.usage, q.usage, Written(Instr(i)), Used(Instr(i)), {}, false)
  {
    hide Track, TrackAll, Adds, KeyOf, Keys;
    NothingAdded(p.usage);
    var u := if HasDst(i.op) then Track(p.usage, i.dst, true).value else p.usage;
    if HasDst(i.op) { TrackAdds(p.usage, i.dst, true, u); }
    if !IsFlow(i.op) {
      TrackAllAdds(u, i.src, q.usage);
      AddsJoin(p.usage, u, q.usage, Written(Instr(i)), Written(Instr(i)), {}, false, {}, Keys(i.src), {}, false);
      assert Written(Instr(i)) + {} == Written(Instr(i)) && NO_KEYS + NO_KEYS == NO_KEYS;
    }
  }

  lemma {:induction false} DeclarationAdds(p: Program, d: DclEntry, q: Program)
    requires Absorb(p, Declaration(d)) == Some(q)
    ensures Adds(p.usage, q.usage, {}, {}, Declared(Declaration(d)), DeclaresPosition(Declaration(d)))
  {
    hide SetAdds, MaxAdds;
    var u, key := p.usage, (d.kind, d.number);
    assert NO_KEYS + {key} == {key};
    OneNumber(u.inputs, INPUT, key);
    OneNumber(u.outputs, OUTPUT, key);
    OneNumber(u.samplers, SAMPLER, key);
    OneNumber(u.attributes, ATTROUT, key);
    OneMaximum(u.maxTemp, TEMP, key);
    OneMaximum(u.maxConst, CONST, key);
  }

  lemma {:induction false} ItemAdds(p: Program, item: Item, q: Program)
    requires Absorb(p, item) == Some(q)
    ensures Adds(p.usage, q.usage, Written(item), Used(item), Declared(item), DeclaresPosition(item))
  {
    hide Adds, Track, TrackAll, Upsert, KeyOf;
    match item
    case Instr(i) => InstructionAdds(p, i, q);
    case Declaration(d) => DeclarationAdds(p, d, q);
    case _ => NothingAdded(p.usage);
  }

  lemma {:induction false} ItemsAdd(p: Program, items: seq<Item>, q: Program)
    requires AbsorbAll(p, items) == Some(q)
    ensures Adds(p.usage, q.usage, WrittenBy(items), UsedBy(items), DeclaredBy(items), PositionBy(items))
    decreases |items|
  {
    hide Absorb, Adds, Written, Used, Declared, DeclaresPosition;
    if items == [] {
      NothingAdded(p.usage);
    } else {
      var first, rest, r := items[0], items[1..], Absorb(p, items[0]).value;
      ItemAdds(p, first, r);
      ItemsAdd(r, rest, q);
      AddsJoin(p.usage, r.usage, q.usage, Written(first), Used(first), Declared(first), DeclaresPosition(first),
               WrittenBy(rest), UsedBy(rest), DeclaredBy(rest), PositionBy(rest));
    }
  }

  // The largest number of a register of a kind that is used; 0 when none is.
  ghost predicate IsLargest(m: nat, kind: nat, used: set<Key>) {
    (forall n: nat :: Has(used, kind, n) ==> n <= m) && (m == 0 || Has(used, kind, m))
  }

  /** What the summary of a parsed shader says of the bytecode: the inputs, outputs and samplers
      that an instruction uses or a declaration names; the attribute outputs written; whether the
      position, which a declaration also promises, the fog and the depth are written; and the
      largest temporary and constant used. Nothing else is in it. */
  lemma {:induction false} SummaryIsExact(b: seq<u32>, p: Program, items: seq<Item>)
    requires ParseSpec(b) == Parsed(p) && Bytecode(b, items)
    ensures var u, written, used, declared := p.usage, WrittenBy(items), UsedBy(items), DeclaredBy(items);
      && (forall n: nat :: n in u.inputs <==> Has(used, INPUT, n) || Has(declared, INPUT, n))
      && (forall n: nat :: n in u.outputs <==> Has(used, OUTPUT, n) || Has(declared, OUTPUT, n))
      && (forall n: nat :: n in u.samplers <==> Has(used, SAMPLER, n) || Has(declared, SAMPLER, n))
      && (forall n: nat :: n in u.attributes <==> Has(written, ATTROUT, n))
      && (u.writesPosition <==> Has(written, RASTOUT, 0) || PositionBy(items))
      && (u.writesFog <==> Has(written, RASTOUT, 1))
      && (u.writesDepth <==> exists n: nat :: Has(written, DEPTHOUT, n))
      && IsLargest(u.maxTemp, TEMP, used) && IsLargest(u.maxConst, CONST, used)
  {
    ParseWritten(b, items);
    hide AllWritten, ParseFrom, AbsorbAll, WrittenBy, UsedBy, DeclaredBy, PositionBy;
    var start := Start(b[0]).value;
    var q := AbsorbAll(start, items).value;
    ItemsAdd(start, items, q);
    assert p.usage == q.usage.(colorOutputs := p.usage.colorOutputs);
  }
}
