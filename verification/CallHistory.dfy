/**
  What the device's calls ask for, told without packets, refs or memory: the commands of the
  current frame, each with the bytes it should be drawn with, the last clear, and the frames that
  were presented. Every call keeps the transport in step with it.
 */
module CallHistory {
  import opened Options
  import opened Words
  import opened Packets
  import opened UploadArena
  import opened Replay
  import ReplayProperties
  import FnvHash
  import opened FrameLayout
  import opened FrameAssembly
  import opened Frontend
  import opened EndToEnd
  import opened Retention

  // ---------------------------------------------------------------- what is asked for

  // The places of a draw's fifteen payloads; one texture for every stage.
  const VERTICES := 0
  const INDICES := 1
  const DECLARATION := 2
  const VERTEX_CONSTANTS := 3
  const PIXEL_CONSTANTS := 4
  const FIRST_TEXTURE := 5
  const VERTEX_CODE := 13
  const PIXEL_CODE := 14

  // What a draw uses of the device.
  datatype Settings = Settings(objects: Objects, bound: Bindings, vsFile: seq<byte>, psFile: seq<byte>)

  function SettingsOf(d: Device): Settings {
    Settings(d.objects, d.bound, d.vsFile, d.psFile)
  }

  // The bytes that a draw's payload should have: those of what is bound for it. A stage whose
  // texture is not due has none.
  function Wanted(v: Settings, due: seq<bool>, synthesised: seq<byte>, k: nat): seq<byte> {
    if k == VERTICES then Content(v.objects, v.bound.vertices)
    else if k == INDICES then Content(v.objects, v.bound.indices)
    else if k == DECLARATION then
      if Content(v.objects, v.bound.declaration) != [] then Content(v.objects, v.bound.declaration) else synthesised
    else if k == VERTEX_CONSTANTS then v.vsFile
    else if k == PIXEL_CONSTANTS then v.psFile
    else if FIRST_TEXTURE <= k < FIRST_TEXTURE + STAGES then
      if IsDue(v, due, k - FIRST_TEXTURE) then Content(v.objects, v.bound.textures[k - FIRST_TEXTURE]) else []
    else if k == VERTEX_CODE then Content(v.objects, v.bound.vertexShader)
    else if k == PIXEL_CODE then Content(v.objects, v.bound.pixelShader)
    else []
  }

  predicate IsDue(v: Settings, due: seq<bool>, stage: nat) {
    stage < |due| && stage < |v.bound.textures| && due[stage]
  }

  function Wants(v: Settings, due: seq<bool>, synthesised: seq<byte>): (w: seq<seq<byte>>)
    ensures |w| == BLOCKS_PER_DRAW && forall k :: 0 <= k < BLOCKS_PER_DRAW ==> w[k] == Wanted(v, due, synthesised, k)
  {
    seq(BLOCKS_PER_DRAW, k requires 0 <= k => Wanted(v, due, synthesised, k))
  }

  // A command of a frame: a draw with its arguments, the rest of its packet, its payloads, and
  // whether the arena had room for all of them; or a copy.
  datatype Call = DrawMade(args: DrawArgs, body: Body, wants: seq<seq<byte>>, fits: bool) | StretchMade(rects: seq<u32>)

  datatype Shown = Shown(frame: u32, target: u32, clear: Option<Clear>, calls: seq<Call>)

  // begun says that a scene was begun since the last present, inScene that one is open.
  datatype History = History(settings: Settings, frame: u32, inScene: bool, begun: bool, clear: Option<Clear>,
                             calls: seq<Call>, shown: seq<Shown>)

  // The bytes as they are laid out, each rounded up.
  function Rounded(list: seq<seq<byte>>): nat
    decreases |list|
  {
    if list == [] then 0 else AlignUp16(|list[0]|) + Rounded(list[1..])
  }

  predicate RoomFor(a: Arena, frameId: u32, list: seq<seq<byte>>) {
    Cursor(a, frameId) + Rounded(list) <= SLOT_BYTES
  }

  // Whether both constant files got a place in the arena.
  predicate ConstantsPlaced(s: System, op: Op)
    requires op.DrawCall? && Valid(s.arena) && |s.device.bound.textures| == STAGES == |op.uploads|
  {
    DrawUploads(s, op).vs.size > 0 && DrawUploads(s, op).ps.size > 0
  }

  // A draw needs a target, both buffers, and a declaration or a vertex format.
  predicate NamesAll(body: Body) {
    |body| == DRAW_WORDS && body[TARGET_ID] != 0 && body[VERTEX_BUFFER_ID] != 0 && body[INDEX_BUFFER_ID] != 0
    && !(body[DECL_ID] == 0 && body[FVF] == 0)
  }

  function FirstCalls(calls: seq<Call>): seq<Call> {
    if |calls| > MAX_IPC_DRAWS then calls[..MAX_IPC_DRAWS] else calls
  }

  // What a call adds. Commands are collected until a scene is begun in a later frame; only then
  // are they and the clear forgotten. The system tells no more than whether the arena had room.
  function Noted(h: History, s: System, op: Op): History
    requires Allowed(s, op)
  {
    var v := h.settings;
    match op
    case WriteObject(id, bytes) => h.(settings := v.(objects := v.objects[id := bytes]))
    case SetConstants(vertex, file) => h.(settings := if vertex then v.(vsFile := file) else v.(psFile := file))
    case Bind(bound) => h.(settings := v.(bound := bound))
    case BeginScene =>
      if h.begun then h.(inScene := true) else h.(inScene := true, begun := true, clear := None, calls := [])
    case EndScene => h.(inScene := false)
    case DrawCall(args, body, due, synthesised) =>
      var wants := Wants(v, due, synthesised);
      if NamesAll(body) && ConstantsPlaced(s, op) && |h.calls| < MAX_DRAWS
      then h.(calls := h.calls + [DrawMade(args, body, wants, RoomFor(s.arena, h.frame, wants))]) else h
    case StretchCall(rects) => if |h.calls| < MAX_DRAWS then h.(calls := h.calls + [StretchMade(rects)]) else h
    case ClearCall(_, clear) => h.(clear := Some(clear))
    case PresentFrame(target, _) =>
      Turned(h).(shown := h.shown + [Shown(h.frame, target, h.clear, FirstCalls(h.calls))])
    case PresentNowhere(_) => Turned(h)
  }

  // The turn to the next frame.
  function Turned(h: History): History {
    h.(frame := Add32(h.frame, 1), begun := false)
  }

  // ---------------------------------------------------------------- in step with the transport

  // A stored command and its record are this call.
  ghost predicate Stems(call: Call, c: Command, r: Record) {
    match call
    case StretchMade(rects) => |rects| == STRETCH_WORDS && c == Stretch(rects) && r == Stretched
    case DrawMade(args, body, wants, fits) =>
      && |body| == DRAW_WORDS && c == Draw(body) && r.Drawn? && r.data == wants && |wants| == BLOCKS_PER_DRAW
      && args == DrawArgs(body[PRIMITIVE_TYPE], body[BASE_VERTEX], body[MIN_VERTEX_INDEX], body[NUM_VERTICES],
                          body[START_INDEX], body[PRIMITIVE_COUNT])
      && forall k :: 0 <= k < BLOCKS_PER_DRAW ==> Accounts(Payloads(c)[k], wants[k], fits)
  }

  // A payload is empty or of its data's size, and not empty without need.
  predicate Accounts(p: Payload, data: seq<byte>, fits: bool) {
    && (p.ref.size > 0 ==> p.size == |data| == p.ref.size && Resolve(p.ref).Some?)
    && (fits ==> p.ref.size == |data|)
  }

  ghost predicate AllStem(calls: seq<Call>, cmds: seq<Command>, records: seq<Record>) {
    |calls| == |cmds| == |records| && forall j :: 0 <= j < |calls| ==> Stems(calls[j], cmds[j], records[j])
  }

  predicate TellsClear(clear: Option<Clear>, value: Clear, have: bool) {
    have == clear.Some? && value == if clear.Some? then clear.value else NO_CLEAR
  }

  // A header is this frame's.
  predicate TellsHeader(sh: Shown, h: Header) {
    && h.frameId == sh.frame && h.presentTarget == sh.target
    && TellsClear(sh.clear, h.clear, h.haveClear != 0) && h.haveClear <= 1
  }

  ghost predicate TellsShown(sh: Shown, p: Presented) {
    AllStem(sh.calls, p.cmds, p.records) && |p.region| >= HEADER_BYTES && TellsHeader(sh, ReadHeader(p.region))
  }

  ghost predicate Tells(h: History, s: System) {
    && h.settings == SettingsOf(s.device) && h.frame == s.device.frameId && h.inScene == s.device.inScene
    && (h.begun <==> s.replay.lastFrame == s.device.frameId)
    && AllStem(h.calls, s.replay.frame.draws, s.records)
    && TellsClear(h.clear, s.replay.clear, s.replay.frame.haveClear)
    && |h.shown| == |s.presented| && forall k :: 0 <= k < |h.shown| ==> TellsShown(h.shown[k], s.presented[k])
  }

  // ---------------------------------------------------------------- one draw

  lemma {:induction false} SourcesAre(d: Device, due: seq<bool>, synthesised: seq<byte>)
    requires |d.bound.textures| == STAGES == |due|
    ensures var src, v := SourcesOf(d, due, synthesised), SettingsOf(d);
      && src.vertices == Wanted(v, due, synthesised, VERTICES) && src.indices == Wanted(v, due, synthesised, INDICES)
      && src.declaration == Wanted(v, due, synthesised, DECLARATION)
      && src.vsCode == Wanted(v, due, synthesised, VERTEX_CODE) && src.psCode == Wanted(v, due, synthesised, PIXEL_CODE)
  {
    hide Content, StageBytes;
  }

  lemma {:induction false} StageIs(d: Device, due: seq<bool>, synthesised: seq<byte>, s: nat)
    requires |d.bound.textures| == STAGES == |due| && s < STAGES
    ensures SourcesOf(d, due, synthesised).textures[s] == Wanted(SettingsOf(d), due, synthesised, FIRST_TEXTURE + s)
  {
    hide Content;
    assert SourcesOf(d, due, synthesised).textures[s] == StageBytes(d, due, s);
  }

  /** What a draw sends is what is bound: its payloads, in their places, are the wanted bytes. */
  lemma {:induction false} SendsWhatIsWanted(d: Device, due: seq<bool>, synthesised: seq<byte>)
    requires |d.bound.textures| == STAGES == |due|
    ensures PayloadData(d, SourcesOf(d, due, synthesised)) == Wants(SettingsOf(d), due, synthesised)
  {
    var v := SettingsOf(d);
    assert v.vsFile == Wanted(v, due, synthesised, VERTEX_CONSTANTS) && v.psFile == Wanted(v, due, synthesised, PIXEL_CONSTANTS);
    hide Content, SourcesOf, Wanted;
    SourcesAre(d, due, synthesised);
    var data := PayloadData(d, SourcesOf(d, due, synthesised));
    forall k | 0 <= k < BLOCKS_PER_DRAW ensures data[k] == Wanted(v, due, synthesised, k) {
      if FIRST_TEXTURE <= k < FIRST_TEXTURE + STAGES { StageIs(d, due, synthesised, k - FIRST_TEXTURE); }
    }
  }

  // A ref that holds its data is in range of the arena, and resolves.
  lemma {:induction false} HeldInRange(a: Arena, frame: u32, r: Ref, data: seq<byte>)
    requires RefHolds(a, frame, r, data) && r.size > 0
    ensures InRange(ArenaDesc(SLOTS, SLOT_BYTES), r) && r.size == |data| && Resolve(r).Some?
  {
    PlacedResolves(Issue(frame, r, data));
  }

  lemma {:induction false} RefsOfBody(body: Body)
    requires |body| == DRAW_WORDS
    ensures var ps := Payloads(Draw(body));
      && RefAt(body, CONSTANTS_VS) == ps[VERTEX_CONSTANTS].ref && RefAt(body, CONSTANTS_PS) == ps[PIXEL_CONSTANTS].ref
      && forall k :: 0 <= k < |OptionalRefs(body)| ==>
           OptionalRefs(body)[k] == ps[if k < 3 then k else if k < 5 then k + 10 else k].ref
  {
    hide RefAt;
  }

  /** A draw's packet is accepted exactly when it names all it needs and both constant files got a
      place in the arena. */
  lemma {:induction false} AcceptedExactly(s: System, op: Op)
    requires Sound(s) && op.DrawCall? && Allowed(s, op)
    ensures Valid(s.arena) && |s.device.bound.textures| == STAGES == |op.uploads| && |op.body| == DRAW_WORDS
    ensures DrawAcceptable(s.replay.upload, op.body) <==> NamesAll(op.body) && ConstantsPlaced(s, op)
  {
    assert HasStateIds(op.body) <==> NamesAll(op.body);
    var src := SourcesOf(s.device, op.uploads, op.synthesised);
    var data, u := PayloadData(s.device, src), DrawUploads(s, op);
    UploadHolds(s.device, s.arena, src);
    UploadPlaces(s.device, s.arena, src);
    RefsOfBody(op.body);
    hide UploadDraw, SourcesOf, PayloadData, RefHolds, Payloads, OptionalRefs, HasStateIds, NamesAll, Valid, InRange,
      CacheOk, Transportable, RefAt;
    forall k | 0 <= k < BLOCKS_PER_DRAW
      ensures Payloads(Draw(op.body))[k].ref == u.refs[k] && EmptyOrInRange(ArenaDesc(SLOTS, SLOT_BYTES), u.refs[k])
      ensures u.refs[k].size > 0 ==> InRange(ArenaDesc(SLOTS, SLOT_BYTES), u.refs[k])
    {
      if u.refs[k].size > 0 { HeldInRange(u.arena, s.device.frameId, u.refs[k], data[k]); }
    }
    assert u.refs[VERTEX_CONSTANTS] == u.vs && u.refs[PIXEL_CONSTANTS] == u.ps;
    EmptyNotInRange(u.vs);
    EmptyNotInRange(u.ps);
  }

  lemma {:induction false} EmptyNotInRange(r: Ref)
    ensures InRange(ArenaDesc(SLOTS, SLOT_BYTES), r) ==> r.size > 0
  {
  }

  lemma {:induction false} UploadPlaces(d: Device, a: Arena, src: Sources)
    requires Valid(a) && |src.textures| == STAGES
    ensures var u := UploadDraw(d, a, src);
      u.refs[VERTEX_CONSTANTS] == u.vs && u.refs[PIXEL_CONSTANTS] == u.ps
  {
    hide ConstantRef, CopyAll, Valid;
    CopyValid(a, d.frameId, d.vsFile);
    var vs := ConstantRef(a, d.frameId, d.vsDirty, d.vsRef, d.vsFile);
  }

  // ---------------------------------------------------------------- room for a draw

  lemma {:induction false} RoundedJoin(a: seq<seq<byte>>, b: seq<seq<byte>>)
    ensures Rounded(a + b) == Rounded(a) + Rounded(b)
    decreases |a|
  {
    hide AlignUp16;
    if a == [] {
      assert a + b == b;
    } else {
      assert (a + b)[0] == a[0] && (a + b)[1..] == a[1..] + b;
      RoundedJoin(a[1..], b);
    }
  }

  lemma {:induction false} RoundedOne(x: seq<byte>)
    ensures Rounded([x]) == AlignUp16(|x|)
  {
    hide AlignUp16;
    assert [x][1..] == [];
    assert Rounded([]) == 0;
  }

  // Copies that have room in the slot all succeed.
  lemma {:induction false} CopiesFit(a: Arena, frameId: u32, list: seq<seq<byte>>)
    requires Valid(a) && RoomFor(a, frameId, list)
    ensures var c := CopyAll(a, frameId, list);
      Cursor(c.arena, frameId) <= Cursor(a, frameId) + Rounded(list)
      && forall k :: 0 <= k < |list| ==> c.refs[k].size == |list[k]|
    decreases |list|
  {
    hide Copy, Valid, Succeeds, Cursor;
    if list != [] {
      CopyFits(a, frameId, list[0]);
      var first := Copy(a, frameId, list[0]);
      CopiesFit(first.arena, frameId, list[1..]);
      var c, rest := CopyAll(a, frameId, list), CopyAll(first.arena, frameId, list[1..]);
      forall k | 0 <= k < |list| ensures c.refs[k].size == |list[k]| {
        if k > 0 { assert c.refs[k] == rest.refs[k - 1] && list[k] == list[1..][k - 1]; }
      }
    }
  }

  lemma {:induction false} CopyFits(a: Arena, frameId: u32, data: seq<byte>)
    requires Valid(a) && Cursor(a, frameId) + AlignUp16(|data|) <= SLOT_BYTES
    ensures var c := Copy(a, frameId, data);
      Valid(c.arena) && c.ref.size == |data| && Cursor(c.arena, frameId) <= Cursor(a, frameId) + AlignUp16(|data|)
  {
    hide Copy, Cursor, Valid, Write;
    CopyLands(a, frameId, data);
    CopyValid(a, frameId, data);
    if data == [] { assert !Succeeds(a, frameId, data); }
  }

  lemma {:induction false} ConstantFits(a: Arena, current: u32, dirty: bool, cached: Ref, file: seq<byte>)
    requires Valid(a) && CacheOk(a, current, dirty, cached, file)
    requires Cursor(a, current) + AlignUp16(|file|) <= SLOT_BYTES
    ensures var c := ConstantRef(a, current, dirty, cached, file);
      && Valid(c.arena) && c.ref.size == |file|
      && Cursor(c.arena, current) <= Cursor(a, current) + AlignUp16(|file|)
  {
    hide Copy, Cursor, Valid, AlignUp16;
    CopyFits(a, current, file);
  }

  lemma {:induction false} RoundedSources(d: Device, s: Sources)
    requires |s.textures| == STAGES
    ensures Rounded(PayloadData(d, s)) == AlignUp16(|d.vsFile|) + AlignUp16(|d.psFile|) + Rounded(CopyList(s))
  {
    hide Rounded, AlignUp16;
    var v, i, e, vs, ps, vc, pc := [s.vertices], [s.indices], [s.declaration], [d.vsFile], [d.psFile], [s.vsCode], [s.psCode];
    RoundedOne(s.vertices); RoundedOne(s.indices); RoundedOne(s.declaration); RoundedOne(d.vsFile);
    RoundedOne(d.psFile); RoundedOne(s.vsCode); RoundedOne(s.psCode);
    RoundedJoin(v, i); RoundedJoin(v + i, e); RoundedJoin(vs, ps); RoundedJoin(vc, pc);
    RoundedJoin(v + i + e, vs + ps);
    RoundedJoin(v + i + e + (vs + ps), s.textures);
    RoundedJoin(v + i + e + (vs + ps) + s.textures, vc + pc);
    RoundedJoin(vc + pc, v + i + e);
    RoundedJoin(vc + pc + (v + i + e), s.textures);
    assert PayloadData(d, s) == v + i + e + (vs + ps) + s.textures + (vc + pc);
    assert CopyList(s) == vc + pc + (v + i + e) + s.textures;
  }

  /** A draw whose payloads all have room in the frame's slot uploads every one of them. */
  lemma {:induction false} UploadsFit(d: Device, a: Arena, src: Sources)
    requires Valid(a) && a.frameId <= d.frameId && |src.textures| == STAGES
    requires RoomFor(a, d.frameId, PayloadData(d, src))
    requires CacheOk(a, d.frameId, d.vsDirty, d.vsRef, d.vsFile)
    requires CacheOk(a, d.frameId, d.psDirty, d.psRef, d.psFile)
    ensures forall k :: 0 <= k < BLOCKS_PER_DRAW ==> UploadDraw(d, a, src).refs[k].size == |PayloadData(d, src)[k]|
  {
    hide Copy, CopyAll, Valid, Cursor, RefHolds, AlignUp16, Rounded;
    RoundedSources(d, src);
    var vs := ConstantRef(a, d.frameId, d.vsDirty, d.vsRef, d.vsFile);
    ConstantFits(a, d.frameId, d.vsDirty, d.vsRef, d.vsFile);
    CacheSurvives(a, d);
    var ps := ConstantRef(vs.arena, d.frameId, d.psDirty, d.psRef, d.psFile);
    ConstantFits(vs.arena, d.frameId, d.psDirty, d.psRef, d.psFile);
    var list := CopyList(src);
    CopiesFit(ps.arena, d.frameId, list);
    var c := CopyAll(ps.arena, d.frameId, list);
    PayloadSizes(d, src, vs.ref, ps.ref, c.refs);
  }

  lemma {:induction false} PayloadSizes(d: Device, src: Sources, vs: Ref, ps: Ref, refs: seq<Ref>)
    requires |src.textures| == STAGES && |refs| == 5 + STAGES
    requires vs.size == |d.vsFile| && ps.size == |d.psFile|
    requires forall k :: 0 <= k < 5 + STAGES ==> refs[k].size == |CopyList(src)[k]|
    ensures forall k :: 0 <= k < BLOCKS_PER_DRAW ==> PayloadRefs(vs, ps, refs)[k].size == |PayloadData(d, src)[k]|
  {
    forall k | 0 <= k < BLOCKS_PER_DRAW ensures PayloadRefs(vs, ps, refs)[k].size == |PayloadData(d, src)[k]| {
      var from := if k < 3 then k + 2 else if k < 5 then 0 else if k < 13 then k else k - 13;
      assert refs[from].size == |CopyList(src)[from]|;
    }
  }

  // ---------------------------------------------------------------- one call

  // A stored draw is the call that made it.
  lemma {:induction false} DrawStems(s: System, op: Op, call: Call)
    requires Sound(s) && op.DrawCall? && Allowed(s, op) && |s.device.bound.textures| == STAGES == |op.uploads|
    requires var wants := Wants(SettingsOf(s.device), op.uploads, op.synthesised);
      call == DrawMade(op.args, op.body, wants, RoomFor(s.arena, s.device.frameId, wants))
    ensures Stems(call, Draw(op.body),
                  Drawn(s.device.frameId, PayloadData(s.device, SourcesOf(s.device, op.uploads, op.synthesised))))
  {
    var src := SourcesOf(s.device, op.uploads, op.synthesised);
    var data, u := PayloadData(s.device, src), DrawUploads(s, op);
    SendsWhatIsWanted(s.device, op.uploads, op.synthesised);
    NewRecord(s, op);
    UploadHolds(s.device, s.arena, src);
    if call.fits { UploadsFit(s.device, s.arena, src); }
    hide UploadDraw, SourcesOf, PayloadData, RefHolds, Payloads, Valid, CacheOk, Transportable, Wants, RoomFor,
      NamesAll,
      Resolve;
    forall k | 0 <= k < BLOCKS_PER_DRAW ensures Accounts(Payloads(Draw(op.body))[k], data[k], call.fits) {
      assert PayloadHolds(u.arena, Payloads(Draw(op.body))[k], s.device.frameId, data[k]);
      if u.refs[k].size > 0 { HeldInRange(u.arena, s.device.frameId, u.refs[k], data[k]); }
    }
  }

  lemma {:induction false} OneMoreStems(calls: seq<Call>, cmds: seq<Command>, records: seq<Record>, call: Call,
                                        c: Command, r: Record)
    requires AllStem(calls, cmds, records) && Stems(call, c, r)
    ensures AllStem(calls + [call], cmds + [c], records + [r])
  {
    hide Stems;
  }

  lemma {:induction false} FirstStem(calls: seq<Call>, cmds: seq<Command>, records: seq<Record>, n: nat)
    requires AllStem(calls, cmds, records) && n <= |calls|
    ensures AllStem(calls[..n], cmds[..n], records[..n])
  {
    hide Stems;
  }

  lemma {:induction false} DrawTold(h: History, s: System, op: Op)
    requires Sound(s) && Tells(h, s) && op.DrawCall? && Allowed(s, op)
    ensures Tells(Noted(h, s, op), Next(s, op))
  {
    hide Submit, Packet, DrawAcceptable, Carries, UploadDraw, PayloadData, SourcesOf, Stems, TellsShown, TellsClear,
      Transportable,
      CacheOk, NamesAll, Wants, RoomFor, Valid;
    AcceptedExactly(s, op);
    DrawForm(s, op);
    DrawPacket(s.replay, s.device.sequence, s.device.frameId, op.body);
    var wants := Wants(h.settings, op.uploads, op.synthesised);
    var call := DrawMade(op.args, op.body, wants, RoomFor(s.arena, h.frame, wants));
    DrawStems(s, op, call);
    if DrawAcceptable(s.replay.upload, op.body) && |h.calls| < MAX_DRAWS {
      OneMoreStems(h.calls, s.replay.frame.draws, s.records, call, Draw(op.body),
                   Drawn(s.device.frameId, PayloadData(s.device, SourcesOf(s.device, op.uploads, op.synthesised))));
    }
  }

  lemma {:induction false} StretchTold(h: History, s: System, op: Op)
    requires Sound(s) && Tells(h, s) && op.StretchCall? && Allowed(s, op)
    ensures Tells(Noted(h, s, op), Next(s, op))
  {
    hide Submit, Packet, FrameIn, HeaderOf, AllSized, UploadDraw, TellsShown, TellsClear, Transportable, CacheOk, Valid;
    StretchPacket(s.replay, s.device.sequence, s.device.frameId, op.rects);
    if |h.calls| < MAX_DRAWS {
      OneMoreStems(h.calls, s.replay.frame.draws, s.records, StretchMade(op.rects), Stretch(op.rects), Stretched);
    }
    hide Stems;
  }

  lemma {:induction false} ClearTold(h: History, s: System, op: Op)
    requires Sound(s) && Tells(h, s) && op.ClearCall? && Allowed(s, op)
    ensures Tells(Noted(h, s, op), Next(s, op))
  {
    hide Submit, Packet, FrameIn, HeaderOf, AllSized, UploadDraw, TellsShown, Stems, Transportable, CacheOk, Valid;
    ClearPacket(s.replay, s.device.sequence, s.device.frameId, ClearWords(s, op.rectCount, op.clear));
  }

  lemma {:induction false} BeginTold(h: History, s: System, op: Op)
    requires Sound(s) && Tells(h, s) && op.BeginScene? && Allowed(s, op)
    ensures Tells(Noted(h, s, op), Next(s, op))
  {
    hide Submit, Packet, FrameIn, HeaderOf, AllSized, UploadDraw, TellsShown, Stems, Transportable, CacheOk, Valid;
    BeginPacket(s.replay, s.device.sequence, s.device.frameId);
  }

  lemma {:induction false} SettingsTold(h: History, s: System, op: Op)
    requires Sound(s) && Tells(h, s) && Allowed(s, op)
    requires op.WriteObject? || op.SetConstants? || op.Bind? || op.EndScene?
    ensures Tells(Noted(h, s, op), Next(s, op))
  {
    hide FrameIn, HeaderOf, AllSized, UploadDraw, TellsShown, Stems, Transportable, CacheOk, Valid, ReplayFit;
  }

  lemma {:induction false} NowhereTold(h: History, s: System, op: Op)
    requires Sound(s) && Tells(h, s) && op.PresentNowhere? && Allowed(s, op)
    ensures Tells(Noted(h, s, op), Next(s, op))
  {
    hide Submit, Packet, FrameIn, HeaderOf, AllSized, UploadDraw, TellsShown, Stems, TellsClear, Transportable,
      CacheOk, Valid;
    PresentPacket(s.replay, s.device.sequence, s.device.frameId, op.target);
  }

  // The frame that a present publishes.
  lemma {:induction false} FrameTold(h: History, s: System, op: Op)
    requires Sound(s) && Tells(h, s) && op.PresentFrame? && Allowed(s, op)
    ensures var t := AfterPresent(s, op);
      && |t.presented| == |s.presented| + 1 && t.presented[..|s.presented|] == s.presented
      && TellsShown(Shown(h.frame, op.target, h.clear, FirstCalls(h.calls)), t.presented[|s.presented|])
  {
    hide Submit, Packet, FrameIn, ReadHeader, FnvHash.FrameHash, Allowed, AfterPresent, Stems, Transportable, DeviceOk,
      Valid, AllSized,
      ReplayFit;
    PresentForm(s, op);
    PresentPacket(s.replay, s.device.sequence, s.device.frameId, op.target);
    var n := if |h.calls| > MAX_IPC_DRAWS then MAX_IPC_DRAWS else |h.calls|;
    FirstStem(h.calls, s.replay.frame.draws, s.records, n);
    assert h.calls[..|h.calls|] == h.calls && s.records[..|s.records|] == s.records
        && s.replay.frame.draws[..|h.calls|] == s.replay.frame.draws;
    RegionLong(op.region, s.arena.mem, Sent(s.replay.frame));
  }

  lemma {:induction false} RegionLong(mem: seq<byte>, arena: seq<byte>, cmds: seq<Command>)
    requires AllSized(cmds) && FrameIn(mem, arena, cmds)
    ensures |mem| >= HEADER_BYTES
  {
  }

  // What a present leaves, apart from the frame it publishes.
  lemma {:induction false} PresentLeft(s: System, op: Op)
    requires Sound(s) && op.PresentFrame? && Allowed(s, op)
    ensures var t := AfterPresent(s, op);
      && SettingsOf(t.device) == SettingsOf(s.device) && t.device.frameId == s.device.frameId + 1 < TWO_32
      && t.device.inScene == s.device.inScene
      && t.replay.lastFrame == s.device.frameId && t.replay.frame.draws == s.replay.frame.draws && t.records == s.records
      && SameClear(s.replay, t.replay)
  {
    hide Submit, Packet, FrameIn, HeaderOf, Allowed, AfterPresent, Transportable, DeviceOk, Valid, AllSized, Sent;
    PresentForm(s, op);
    PresentPacket(s.replay, s.device.sequence, s.device.frameId, op.target);
  }

  lemma {:induction false} PresentTold(h: History, s: System, op: Op)
    requires Sound(s) && Tells(h, s) && op.PresentFrame? && Allowed(s, op)
    ensures Tells(Noted(h, s, op), Next(s, op))
  {
    hide AfterPresent, FrameIn, HeaderOf, AllSized, UploadDraw, TellsShown, AllStem, TellsClear, Transportable,
      CacheOk, Valid,
      FirstCalls, ReplayFit, Send;
    FrameTold(h, s, op);
    PresentLeft(s, op);
    var t := AfterPresent(s, op);
    forall k | 0 <= k < |s.presented| ensures t.presented[k] == s.presented[k] {
      assert t.presented[k] == t.presented[..|s.presented|][k];
    }
  }

  /** Every call keeps the transport in step with what is told of the calls. */
  lemma {:induction false} StepTold(h: History, s: System, op: Op)
    requires Sound(s) && Tells(h, s) && Allowed(s, op)
    ensures Tells(Noted(h, s, op), Next(s, op))
  {
    hide Sound, Tells, Allowed, Noted, Next;
    match op
    case DrawCall(_, _, _, _) => DrawTold(h, s, op);
    case StretchCall(_) => StretchTold(h, s, op);
    case ClearCall(_, _) => ClearTold(h, s, op);
    case BeginScene => BeginTold(h, s, op);
    case PresentFrame(_, _) => PresentTold(h, s, op);
    case PresentNowhere(_) => NowhereTold(h, s, op);
    case _ => SettingsTold(h, s, op);
  }
}
