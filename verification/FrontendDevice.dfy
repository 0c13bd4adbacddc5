/**
  The device as an object: the calls that take part in the transport, each of which does what
  one step of the end-to-end system says.
 */
module FrontendDevice {
  import opened Words
  import opened Packets
  import opened UploadArena
  import opened Replay
  import opened ReplayProperties
  import opened FrameLayout
  import opened FrameAssembly
  import opened Frontend
  import opened EndToEnd
  import opened Publishing
  import Fidelity

  // ---------------------------------------------------------------- a draw's packet

  // Where the fifteen refs of a draw stand in its packet, in payload order.
  const REF_WORDS: seq<nat> :=
    [VERTEX_DATA, INDEX_DATA, DECL_DATA, CONSTANTS_VS, CONSTANTS_PS, TEX_DATA, TEX_DATA + 3, TEX_DATA + 6, TEX_DATA + 9,
     TEX_DATA + 12, TEX_DATA + 15, TEX_DATA + 18, TEX_DATA + 21, VS_BYTECODE, PS_BYTECODE]

  function RefWord(k: nat): (at: nat)
    requires k < BLOCKS_PER_DRAW
    ensures at + 3 <= DRAW_WORDS
  {
    REF_WORDS[k]
  }

  function PutRef(body: Body, at: nat, r: Ref): (b: Body)
    requires at + 3 <= |body|
    ensures |b| == |body|
  {
    body[at := r.slot][at + 1 := r.offset][at + 2 := r.size]
  }

  // The first n refs put in place.
  function PutRefs(body: Body, n: nat, refs: seq<Ref>): (b: Body)
    requires |body| == DRAW_WORDS && |refs| == BLOCKS_PER_DRAW && n <= BLOCKS_PER_DRAW
    ensures |b| == DRAW_WORDS
    decreases n
  {
    if n == 0 then body else PutRef(PutRefs(body, n - 1, refs), RefWord(n - 1), refs[n - 1])
  }

  lemma {:induction false} RefsApart(j: nat, k: nat)
    requires j < k < BLOCKS_PER_DRAW
    ensures RefWord(j) + 3 <= RefWord(k) || RefWord(k) + 3 <= RefWord(j)
  {
  }

  lemma {:induction false} PutReads(body: Body, at: nat, r: Ref, other: nat)
    requires |body| == DRAW_WORDS && at + 3 <= DRAW_WORDS && other + 3 <= DRAW_WORDS
    ensures RefAt(PutRef(body, at, r), at) == r
    ensures at + 3 <= other || other + 3 <= at ==> RefAt(PutRef(body, at, r), other) == RefAt(body, other)
  {
  }

  lemma {:induction false} RefsRead(body: Body, n: nat, refs: seq<Ref>, k: nat)
    requires |body| == DRAW_WORDS && |refs| == BLOCKS_PER_DRAW && k < n <= BLOCKS_PER_DRAW
    ensures RefAt(PutRefs(body, n, refs), RefWord(k)) == refs[k]
    decreases n
  {
    if k < n - 1 {
      RefsRead(body, n - 1, refs, k);
      RefsApart(k, n - 1);
    }
    PutReads(PutRefs(body, n - 1, refs), RefWord(n - 1), refs[n - 1], RefWord(k));
    hide RefWord, PutRef, RefAt;
  }

  // The sizes of what a draw sends fit their fields.
  predicate SizesFit(s: Sources) {
    |s.vertices| < TWO_32 && |s.indices| < TWO_32 && |s.declaration| % 8 == 0 && |s.declaration| < 8 * 0x1_0000
  }

  function PutArgs(body: Body, a: DrawArgs): (b: Body)
    requires |body| == DRAW_WORDS
    ensures |b| == DRAW_WORDS
  {
    body[PRIMITIVE_TYPE := a.primitiveType][BASE_VERTEX := a.baseVertex][MIN_VERTEX_INDEX := a.minVertexIndex]
        [NUM_VERTICES := a.numVertices][START_INDEX := a.startIndex][PRIMITIVE_COUNT := a.primitiveCount]
  }

  // A draw's packet: the rest of the device's state, the arguments, the refs, and the three sizes.
  function DrawWords(state: Body, args: DrawArgs, refs: seq<Ref>, s: Sources): (body: Body)
    requires |state| == DRAW_WORDS && |refs| == BLOCKS_PER_DRAW && SizesFit(s)
    ensures |body| == DRAW_WORDS
  {
    PutRefs(PutArgs(state, args), BLOCKS_PER_DRAW, refs)[VERTEX_SIZE := |s.vertices|][INDEX_SIZE := |s.indices|][DECL_COUNT := |s.declaration| / 8]
  }

  // Reading a draw's refs in payload order.
  lemma {:induction false} PayloadWords(body: Body, k: nat)
    requires |body| == DRAW_WORDS && k < BLOCKS_PER_DRAW
    ensures Payloads(Draw(body))[k].ref == RefAt(body, RefWord(k))
  {
  }

  lemma {:induction false} RefsAwayFromSizes(k: nat)
    requires k < BLOCKS_PER_DRAW
    ensures RefWord(k) + 3 <= VERTEX_SIZE || VERTEX_SIZE < RefWord(k)
    ensures RefWord(k) + 3 <= INDEX_SIZE || INDEX_SIZE < RefWord(k)
    ensures RefWord(k) + 3 <= DECL_COUNT || DECL_COUNT < RefWord(k)
  {
  }

  lemma {:induction false} SizesLeaveRef(body: Body, at: nat, vertices: u32, indices: u32, count: u32)
    requires |body| == DRAW_WORDS && at + 3 <= DRAW_WORDS
    requires at + 3 <= VERTEX_SIZE || VERTEX_SIZE < at
    requires at + 3 <= INDEX_SIZE || INDEX_SIZE < at
    requires at + 3 <= DECL_COUNT || DECL_COUNT < at
    ensures RefAt(body[VERTEX_SIZE := vertices][INDEX_SIZE := indices][DECL_COUNT := count], at) == RefAt(body, at)
  {
  }

  lemma {:induction false} DrawWordsRef(state: Body, args: DrawArgs, refs: seq<Ref>, s: Sources, k: nat)
    requires |state| == DRAW_WORDS && |refs| == BLOCKS_PER_DRAW && SizesFit(s) && k < BLOCKS_PER_DRAW
    ensures Payloads(Draw(DrawWords(state, args, refs, s)))[k].ref == refs[k]
  {
    hide PutArgs, PutRefs, Payloads, RefAt, RefWord;
    var start := PutArgs(state, args);
    RefsRead(start, BLOCKS_PER_DRAW, refs, k);
    RefsAwayFromSizes(k);
    PayloadWords(DrawWords(state, args, refs, s), k);
    SizesLeaveRef(PutRefs(start, BLOCKS_PER_DRAW, refs), RefWord(k), |s.vertices|, |s.indices|, |s.declaration| / 8);
  }

  // The refs and the sizes lie after the arguments.
  lemma {:induction false} RefAfterArgs(k: nat)
    requires k < BLOCKS_PER_DRAW
    ensures RefWord(k) > PRIMITIVE_COUNT
  {
  }

  lemma {:induction false} PutLeaves(body: Body, at: nat, r: Ref, other: nat)
    requires at + 3 <= |body| && other < at
    ensures PutRef(body, at, r)[other] == body[other]
  {
  }

  lemma {:induction false} RefsLeaveArgs(body: Body, n: nat, refs: seq<Ref>, at: nat)
    requires |body| == DRAW_WORDS && |refs| == BLOCKS_PER_DRAW && n <= BLOCKS_PER_DRAW && at <= PRIMITIVE_COUNT
    ensures PutRefs(body, n, refs)[at] == body[at]
    decreases n
  {
    hide RefWord, PutRef;
    if n > 0 {
      RefsLeaveArgs(body, n - 1, refs, at);
      RefAfterArgs(n - 1);
      PutLeaves(PutRefs(body, n - 1, refs), RefWord(n - 1), refs[n - 1], at);
    }
  }

  lemma {:induction false} DrawWordsArg(state: Body, args: DrawArgs, refs: seq<Ref>, s: Sources, at: nat)
    requires |state| == DRAW_WORDS && |refs| == BLOCKS_PER_DRAW && SizesFit(s) && at <= PRIMITIVE_COUNT
    ensures DrawWords(state, args, refs, s)[at] == PutArgs(state, args)[at]
  {
    hide PutArgs, PutRefs;
    RefsLeaveArgs(PutArgs(state, args), BLOCKS_PER_DRAW, refs, at);
  }

  lemma {:induction false} ArgsRead(state: Body, args: DrawArgs)
    requires |state| == DRAW_WORDS
    ensures var b := PutArgs(state, args);
      args == DrawArgs(b[PRIMITIVE_TYPE], b[BASE_VERTEX], b[MIN_VERTEX_INDEX], b[NUM_VERTICES], b[START_INDEX], b[PRIMITIVE_COUNT])
  {
  }

  /** The packet a draw builds carries its arguments, its refs and its sizes. */
  lemma {:induction false} DrawWordsCarry(state: Body, args: DrawArgs, refs: seq<Ref>, s: Sources)
    requires |state| == DRAW_WORDS && |refs| == BLOCKS_PER_DRAW && SizesFit(s)
    ensures Carries(DrawWords(state, args, refs, s), args, refs, s)
  {
    hide PutRefs, Payloads, PutArgs;
    var body := DrawWords(state, args, refs, s);
    forall k | 0 <= k < BLOCKS_PER_DRAW ensures Payloads(Draw(body))[k].ref == refs[k] {
      DrawWordsRef(state, args, refs, s, k);
    }
    forall at | 0 <= at <= PRIMITIVE_COUNT ensures body[at] == PutArgs(state, args)[at] {
      DrawWordsArg(state, args, refs, s, at);
    }
    ArgsRead(state, args);
  }

  lemma {:induction false} DrawAllowed(s: System, args: DrawArgs, body: Body, stages: seq<bool>, synthesised: seq<byte>)
    requires WellFormed(s) && s.device.sequence + 1 < TWO_32 && |stages| == STAGES && |body| == DRAW_WORDS
    requires var src := SourcesOf(s.device, stages, synthesised);
      Carries(body, args, UploadDraw(s.device, s.arena, src).refs, src)
    ensures Allowed(s, DrawCall(args, body, stages, synthesised))
  {
    hide Carries, UploadDraw, SourcesOf;
  }

  // The step of the system that a draw call is.
  function DrawOp(s: System, args: DrawArgs, state: Body, stages: seq<bool>, synthesised: seq<byte>): (op: Op)
    requires WellFormed(s) && s.device.sequence + 1 < TWO_32 && |state| == DRAW_WORDS && |stages| == STAGES
    requires SizesFit(SourcesOf(s.device, stages, synthesised))
    ensures op.DrawCall? && Allowed(s, op)
  {
    var src := SourcesOf(s.device, stages, synthesised);
    var refs := UploadDraw(s.device, s.arena, src).refs;
    var body := DrawWords(state, args, refs, src);
    DrawWordsCarry(state, args, refs, src);
    DrawAllowed(s, args, body, stages, synthesised);
    DrawCall(args, body, stages, synthesised)
  }

  // BeginScene's step: the flag, the packet, and the records of the frame it may start.
  lemma {:induction false} BeginNext(s: System, flagged: System, t: System)
    requires WellFormed(s) && s.device.sequence + 1 < TWO_32 && !s.device.inScene
    requires flagged == s.(device := s.device.(inScene := true))
    requires t == flagged.(device := flagged.device.(sequence := s.device.sequence + 1),
                           replay := EndToEnd.Send(flagged, PACKET_BEGIN_FRAME, [s.device.frameId]),
                           records := if s.device.frameId == s.replay.lastFrame then s.records else [])
    ensures Allowed(s, BeginScene) && Next(s, BeginScene) == t
  {
    hide Submit, Packet, FrameIn, HeaderOf, AllSized, UploadDraw, UploadArena.Valid;
  }

  // That step, spelled out.
  lemma {:induction false} DrawOpNext(s: System, args: DrawArgs, state: Body, stages: seq<bool>, synthesised: seq<byte>)
    requires WellFormed(s) && s.device.sequence + 1 < TWO_32 && |state| == DRAW_WORDS && |stages| == STAGES
    requires SizesFit(SourcesOf(s.device, stages, synthesised))
    ensures var src := SourcesOf(s.device, stages, synthesised);
      var u := UploadDraw(s.device, s.arena, src);
      var replay := Submit(s.replay, Packet(PACKET_DRAW, s.device.sequence + 1, DrawWords(state, args, u.refs, src))).state;
      Next(s, DrawOp(s, args, state, stages, synthesised)) ==
        System(s.device.(sequence := s.device.sequence + 1, vsRef := u.vs, psRef := u.ps, vsDirty := false, psDirty := false),
               u.arena, replay, Recorded(s, replay, Drawn(s.device.frameId, PayloadData(s.device, src))), s.presented)
  {
    hide Submit, Packet, UploadDraw, PayloadData, SourcesOf, DrawWords, Carries, Recorded, SizesFit;
  }

  lemma {:induction false} CopyNext(a: Arena, frameId: u32, list: seq<seq<byte>>, k: nat)
    requires UploadArena.Valid(a) && k < |list|
    ensures var first := Copy(a, frameId, list[k]);
      UploadArena.Valid(first.arena)
      && var rest := CopyAll(first.arena, frameId, list[k + 1..]);
         CopyAll(a, frameId, list[k..]) == CopiedAll(rest.arena, [first.ref] + rest.refs)
  {
    CopyValid(a, frameId, list[k]);
    hide Copy, UploadArena.Valid;
    assert list[k..][0] == list[k] && list[k..][1..] == list[k + 1..];
  }

  lemma {:induction false} CopyNone(a: Arena, frameId: u32, list: seq<seq<byte>>)
    requires UploadArena.Valid(a) && list == []
    ensures CopyAll(a, frameId, list) == CopiedAll(a, [])
  {
  }

  // ---------------------------------------------------------------- the constant files' guard

  // Whether a range of float constants is taken; the sum is that of two uint32_t values.
  predicate ConstantsAccepted(register: u32, count: u32) {
    Add32(register, count) <= 256
  }

  /** The guard keeps the range inside the 256 registers exactly when its end does not wrap to
      one of them. */
  lemma {:induction false} ConstantGuardExactly(register: u32, count: u32)
    ensures (ConstantsAccepted(register, count) ==> register + count <= 256)
      <==> !(TWO_32 <= register + count <= TWO_32 + 256)
  {
    if register + count < TWO_32 {
      DivMod(register + count, TWO_32, 0, register + count);
    } else {
      DivMod(register + count, TWO_32, 1, register + count - TWO_32);
    }
  }

  // ---------------------------------------------------------------- the object

  class Direct3DDevice {
    const uploads: Uploads
    const bridge: Bridge
    const publisher: Publisher
    var frameId: u32
    var inScene: bool
    var sequence: u32
    var vsDirty: bool
    var psDirty: bool
    var vsRef: Ref
    var psRef: Ref
    var vsFile: seq<byte>
    var psFile: seq<byte>
    var objects: Objects
    var bound: Bindings
    ghost var records: seq<Record>
    ghost var presented: seq<Presented>
    ghost const mapped: seq<byte>
    ghost var traces: seq<seq<Stored>>

    ghost predicate Valid()
      reads this, uploads, uploads.mem, bridge, publisher, publisher.region
    {
      && bridge.Valid() && publisher.Valid() && UploadArena.Valid(uploads.Value())
      && |bound.textures| == STAGES && |vsFile| == CONSTANT_BYTES == |psFile|
      && uploads.mem != publisher.region && uploads.mem.Length == SLOTS * SLOT_BYTES
    }

    function DeviceValue(): Device
      reads this
    {
      Device(frameId, inScene, sequence, vsDirty, psDirty, vsRef, psRef, vsFile, psFile, objects, bound)
    }

    ghost function Value(): System
      reads this, uploads, uploads.mem, bridge, bridge.draws
      requires bridge.Valid()
    {
      System(DeviceValue(), uploads.Value(), bridge.Value(), records, presented)
    }

    // The region is what the stores of the frames published so far have left in it, from the
    // bytes it was mapped with, and frame k was published under the number k.
    ghost predicate Traced()
      reads this, publisher, publisher.region
    {
      TracedValue(mapped, traces, presented, publisher.sequence, publisher.region[..])
    }

    /** A new device, with its arena, the bridge, and the region mapped for publishing. */
    constructor (shared: array<byte>)
      requires shared.Length == IPC_SIZE
      modifies shared
      ensures Valid() && sequence == 0 && fresh(uploads) && fresh(uploads.mem) && fresh(bridge) && fresh(bridge.draws)
      ensures Fidelity.Start(Value()) && Traced() && |mapped| == IPC_SIZE && Word(mapped, 4) == 0
    {
      uploads := new Uploads();
      bridge := new Bridge(ArenaDesc(SLOTS, SLOT_BYTES));
      var made := new Publisher(shared);
      publisher := made;
      frameId, inScene, sequence := 1, false, 0;
      vsDirty, psDirty, vsRef, psRef := false, false, NO_REF, NO_REF;
      vsFile, psFile := seq(CONSTANT_BYTES, _ => 0), seq(CONSTANT_BYTES, _ => 0);
      objects, bound := map[], NOTHING_BOUND;
      records, presented, traces := [], [], [];
      mapped := shared[..];
    }

    // The next packet of the stream.
    method Send(kind: u16, words: seq<u32>)
      requires bridge.Valid() && |words| < 0x3FFE && sequence + 1 < TWO_32
      modifies `sequence, bridge, bridge.draws
      ensures bridge.Valid() && sequence == old(sequence) + 1
      ensures bridge.Value() == EndToEnd.Send(old(Value()), kind, words)
    {
      hide Submit, Packet;
      sequence := sequence + 1;
      var _ := bridge.SubmitPackets(Packet(kind, sequence, words));
    }

    // A buffer, declaration, shader or texture level gets new contents.
    method WriteObject(id: nat, bytes: seq<byte>)
      requires Valid() && sequence + 1 < TWO_32
      modifies `objects
      ensures Valid() && Value() == Next(old(Value()), EndToEnd.WriteObject(id, bytes))
    {
      objects := objects[id := bytes];
    }

    method Bind(bindings: Bindings)
      requires Valid() && sequence + 1 < TWO_32 && |bindings.textures| == STAGES
      modifies `bound
      ensures Valid() && Value() == Next(old(Value()), EndToEnd.Bind(bindings))
    {
      bound := bindings;
    }

    /** Setting float constants from a register on; one register is sixteen bytes. A range whose
        end wraps is not stored by this method: what the code then copies lies outside the file. */
    method SetShaderConstantF(vertex: bool, register: u32, data: seq<byte>) returns (ok: bool)
      requires Valid() && sequence + 1 < TWO_32 && |data| % 16 == 0 && register + |data| / 16 < TWO_32
      modifies `vsFile, `psFile, `vsDirty, `psDirty
      ensures Valid() && ok == (register + |data| / 16 <= 256)
      ensures !ok ==> Value() == old(Value())
      ensures ok ==>
        var file := Write(if vertex then old(vsFile) else old(psFile), 16 * register, data);
        Value() == Next(old(Value()), SetConstants(vertex, file))
    {
      hide UploadArena.Valid;
      ok := ConstantsAccepted(register, |data| / 16);
      if !ok { return; }
      if vertex {
        vsFile := Write(vsFile, 16 * register, data);
        vsDirty := true;
      } else {
        psFile := Write(psFile, 16 * register, data);
        psDirty := true;
      }
    }

    // The flag and the packet of BeginScene.
    method OpenScene()
      requires Valid() && sequence + 1 < TWO_32 && !inScene
      modifies `inScene, `sequence, `records, bridge, bridge.draws
      ensures Valid() && Value() == Next(old(Value()), EndToEnd.BeginScene)
    {
      hide EndToEnd.Send, Next, Allowed, UploadArena.Valid;
      ghost var before := Value();
      inScene := true;
      ghost var flagged := Value();
      Send(PACKET_BEGIN_FRAME, [frameId]);
      records := if frameId == before.replay.lastFrame then records else [];
      BeginNext(before, flagged, Value());
    }

    method BeginScene() returns (ok: bool)
      requires Valid() && sequence + 1 < TWO_32
      modifies `inScene, `sequence, `records, bridge, bridge.draws
      ensures Valid() && ok == !old(inScene)
      ensures Value() == if ok then Next(old(Value()), EndToEnd.BeginScene) else old(Value())
    {
      hide EndToEnd.Send, Next, Allowed, UploadArena.Valid;
      ok := !inScene;
      if ok { OpenScene(); }
    }

    method EndScene() returns (ok: bool)
      requires Valid() && sequence + 1 < TWO_32
      modifies `inScene
      ensures Valid() && ok == old(inScene)
      ensures Value() == if ok then Next(old(Value()), EndToEnd.EndScene) else old(Value())
    {
      ok := inScene;
      if ok { inScene := false; }
    }

    // Uploads in order; what has nothing to copy gets an empty ref.
    method UploadAll(list: seq<seq<byte>>) returns (refs: seq<Ref>)
      requires UploadArena.Valid(uploads.Value())
      modifies uploads, uploads.mem
      ensures UploadArena.Valid(uploads.Value())
      ensures CopiedAll(uploads.Value(), refs) == CopyAll(old(uploads.Value()), frameId, list)
    {
      hide Copy, CopyAll, UploadArena.Valid;
      refs := [];
      ghost var start := uploads.Value();
      for k := 0 to |list|
        invariant UploadArena.Valid(uploads.Value()) && |refs| == k
        invariant var rest := CopyAll(uploads.Value(), frameId, list[k..]);
          CopyAll(start, frameId, list) == CopiedAll(rest.arena, refs + rest.refs)
      {
        CopyNext(uploads.Value(), frameId, list, k);
        var r := uploads.UploadCopy(frameId, list[k]);
        refs := refs + [r];
      }
      CopyNone(uploads.Value(), frameId, list[|list|..]);
    }

    method UploadConstants()
      requires Valid()
      modifies `vsDirty, `psDirty, `vsRef, `psRef, uploads, uploads.mem
      ensures Valid() && !vsDirty && !psDirty
      ensures
        var d, a := old(DeviceValue()), old(uploads.Value());
        var vs := ConstantRef(a, d.frameId, d.vsDirty, d.vsRef, d.vsFile);
        UploadArena.Valid(vs.arena) && vsRef == vs.ref
        && Copied(uploads.Value(), psRef) == ConstantRef(vs.arena, d.frameId, d.psDirty, d.psRef, d.psFile)
    {
      hide Copy, UploadArena.Valid;
      CopyValid(uploads.Value(), frameId, vsFile);
      if vsDirty || vsRef.size == 0 {
        vsRef := uploads.UploadCopy(frameId, vsFile);
        vsDirty := false;
      }
      CopyValid(uploads.Value(), frameId, psFile);
      if psDirty || psRef.size == 0 {
        psRef := uploads.UploadCopy(frameId, psFile);
        psDirty := false;
      }
    }

    // The uploads of a draw, in order; the refs come in payload order.
    method UploadSources(src: Sources) returns (refs: seq<Ref>)
      requires Valid() && |src.textures| == STAGES
      modifies `vsDirty, `psDirty, `vsRef, `psRef, uploads, uploads.mem
      ensures Valid() && !vsDirty && !psDirty
      ensures Uploaded(uploads.Value(), vsRef, psRef, refs) == UploadDraw(old(DeviceValue()), old(uploads.Value()), src)
    {
      hide Copy, CopyAll, ConstantRef, UploadArena.Valid, PayloadRefs, CopyList;
      UploadConstants();
      refs := UploadAll(CopyList(src));
      refs := PayloadRefs(vsRef, psRef, refs);
    }

    /** A draw: the constants, shaders, geometry and textures are copied, and their refs sent.
        state is what the packet says of the rest of the device; stages says which textures are
        due an upload. */
    method DrawIndexedPrimitive(primitiveType: u32, baseVertex: u32, minVertexIndex: u32, numVertices: u32,
                                startIndex: u32,
                                primitiveCount: u32, state: Body, stages: seq<bool>, synthesised: seq<byte>)
      requires Valid() && sequence + 1 < TWO_32 && |state| == DRAW_WORDS && |stages| == STAGES
      requires SizesFit(SourcesOf(DeviceValue(), stages, synthesised))
      modifies this, uploads, uploads.mem, bridge, bridge.draws
      ensures Valid()
      ensures
        var args := DrawArgs(primitiveType, baseVertex, minVertexIndex, numVertices, startIndex, primitiveCount);
        Value() == Next(old(Value()), DrawOp(old(Value()), args, state, stages, synthesised))
    {
      hide Submit, Packet, UploadDraw, DrawWords, SourcesOf, PayloadData, UploadArena.Valid, Next, Allowed, DrawOp,
        SizesFit,
        Recorded;
      ghost var before := Value();
      var args := DrawArgs(primitiveType, baseVertex, minVertexIndex, numVertices, startIndex, primitiveCount);
      DrawOpNext(before, args, state, stages, synthesised);
      var src := SourcesOf(DeviceValue(), stages, synthesised);
      var refs := UploadSources(src);
      Send(PACKET_DRAW, DrawWords(state, args, refs, src));
      records := Recorded(before, bridge.Value(), Drawn(frameId, PayloadData(before.device, src)));
    }

    // The packet part of Clear.
    method Clear(rectCount: u32, flags: u32, color: u32, z: u32, stencil: u32)
      requires Valid() && sequence + 1 < TWO_32
      modifies `sequence, bridge, bridge.draws
      ensures Valid() && Value() == Next(old(Value()), ClearCall(rectCount, Replay.Clear(color, flags, z, stencil)))
    {
      hide Submit, Packet;
      Send(PACKET_CLEAR, [frameId, rectCount, flags, color, z, stencil]);
    }

    // The packet part of StretchRect.
    method StretchRect(rects: seq<u32>)
      requires Valid() && sequence + 1 < TWO_32 && |rects| == STRETCH_WORDS
      modifies `sequence, `records, bridge, bridge.draws
      ensures Valid() && Value() == Next(old(Value()), StretchCall(rects))
    {
      hide Submit, Packet, UploadArena.Valid;
      ghost var before := Value();
      Send(PACKET_STRETCH, [frameId] + rects);
      records := Recorded(before, bridge.Value(), Stretched);
    }

    // Publishing the frame that the present packet closed.
    method Publish() returns (ok: bool)
      requires Valid() && Publishable(bridge.Value(), frameId)
      modifies `presented, `traces, bridge, publisher, publisher.region
      ensures Valid() && ok == old(publisher.haveTarget)
      ensures old(Traced()) && |old(presented)| + 1 < TWO_32 ==> Traced()
      ensures !ok ==> publisher.region[..] == old(publisher.region[..]) && Value() == old(Value())
      ensures ok ==>
        var cmds := Sent(old(bridge.FrameValue()));
        && AllSized(cmds) && FrameIn(publisher.region[..], uploads.mem[..], cmds)
        && HeaderOf(ReadHeader(publisher.region[..]), old(bridge.Value()), frameId)
        && bridge.Value() == PresentState(old(bridge.Value()), frameId)
        && presented == old(presented) + [Presented(publisher.region[..], cmds, FirstRecords(records, |cmds|))]
    {
      hide UploadArena.Valid, Transportable, FrameIn, PublishedBy, ReadHeader, PresentState, Word,
        TracedValue;
      ghost var cmds := Sent(bridge.FrameValue());
      assert AllSized(cmds) by { SentTransportable(bridge.FrameValue().draws); }
      hide Sent, AllSized;
      var r, stores := publisher.Present(bridge, uploads.mem, frameId);
      ok := r == 0;
      if ok {
        presented := presented + [Presented(publisher.region[..], cmds, FirstRecords(records, |cmds|))];
        if old(Traced()) && |old(presented)| + 1 < TWO_32 {
          TraceMore(mapped, traces, old(presented), old(publisher.sequence), old(publisher.region[..]), stores,
                    presented[|old(presented)|]);
        }
        traces := traces + [stores];
      }
    }

    method Advance()
      requires frameId + 1 < TWO_32 && bridge.Valid()
      modifies `frameId, `vsRef, `psRef, `vsDirty, `psDirty
      ensures DeviceValue() == Advanced(old(DeviceValue()))
    {
      frameId := frameId + 1;
      vsRef, psRef, vsDirty, psDirty := NO_REF, NO_REF, true, true;
    }

    // Everything after the present packet was sent.
    method FinishPresent(target: u32, ghost before: System) returns (ok: bool)
      requires Valid() && WellFormed(before) && SentPresent(before, target, Value())
      requires Publishable(bridge.Value(), frameId)
      modifies `frameId, `vsRef, `psRef, `vsDirty, `psDirty, `presented, `traces, bridge, publisher, publisher.region
      ensures Valid() && ok == old(publisher.haveTarget)
      ensures old(Traced()) && |old(presented)| + 1 < TWO_32 ==> Traced()
      ensures Presents(before, target, Value(), publisher.region[..], ok)
      ensures !ok ==> publisher.region[..] == old(publisher.region[..])
    {
      hide EndToEnd.Send, PresentWords, Next, UploadArena.Valid, FrameIn, HeaderOf, Sent, AllSized, PresentState,
        FirstRecords,
        WellFormed, Presents, Publishable, TracedValue, ReadHeader, Word, Allowed;
      ok := Publish();
      Advance();
      if ok {
        PresentNext(before, target, publisher.region[..]);
      } else {
        PresentFails(before, target, publisher.region[..]);
      }
    }

    /** Present: the packet, the published frame, and the turn to the next frame. Without a
        window to present to nothing is published, and the frame number moves on all the same. */
    method Present(target: u32) returns (ok: bool)
      requires Valid() && sequence + 1 < TWO_32 && frameId + 1 < TWO_32 && EndToEnd.Sound(Value())
      modifies this, bridge, bridge.draws, publisher, publisher.region
      ensures Valid() && ok == old(publisher.haveTarget)
      ensures old(Traced()) && |old(presented)| + 1 < TWO_32 ==> Traced()
      ensures Presents(old(Value()), target, Value(), publisher.region[..], ok)
      ensures !ok ==> publisher.region[..] == old(publisher.region[..])
    {
      hide EndToEnd.Send, PresentWords, UploadArena.Valid, EndToEnd.Sound, WellFormed, Presents, Publishable,
        TracedValue;
      ghost var before := Value();
      SentWhole(before, target);
      Send(PACKET_PRESENT, [frameId, 0, target]);
      ok := FinishPresent(target, before);
    }
  }

  // The region holds what the published frames have left in it, and as many were published as
  // the sequence number says.
  ghost predicate TracedValue(mapped: seq<byte>, traces: seq<seq<Stored>>, presented: seq<Presented>, sequence: u32,
                              region: seq<byte>) {
    && sequence == |presented| && FramesPublished(mapped, 0, traces, Fidelity.Regions(presented))
    && region == LastRegion(mapped, Fidelity.Regions(presented))
  }

  lemma {:induction false} TraceMore(mapped: seq<byte>, traces: seq<seq<Stored>>, presented: seq<Presented>,
                                     sequence: u32,
                                     region: seq<byte>, stores: seq<Stored>, p: Presented)
    requires TracedValue(mapped, traces, presented, sequence, region) && |presented| + 1 < TWO_32
    requires PublishedBy(region, stores, Add32(sequence, 1), p.region)
    ensures TracedValue(mapped, traces + [stores], presented + [p], Add32(sequence, 1), p.region)
  {
    hide PublishedBy, FramesPublished;
    FramesCount(mapped, 0, traces, Fidelity.Regions(presented));
    FramesMore(mapped, 0, traces, Fidelity.Regions(presented), stores, p.region);
    assert Fidelity.Regions(presented + [p]) == Fidelity.Regions(presented) + [p.region];
  }

  lemma {:induction false} FramesCount(m: seq<byte>, n: nat, traces: seq<seq<Stored>>, regions: seq<seq<byte>>)
    requires FramesPublished(m, n, traces, regions)
    ensures |traces| == |regions|
  {
  }

  // t is s after its present packet.
  ghost predicate SentPresent(s: System, target: u32, t: System) {
    && s.device.sequence + 1 < TWO_32 && s.device.frameId + 1 < TWO_32
    && t == s.(device := s.device.(sequence := s.device.sequence + 1),
               replay := EndToEnd.Send(s, PACKET_PRESENT, PresentWords(s, target)))
  }

  function FirstRecords(records: seq<Record>, n: nat): seq<Record> {
    if n <= |records| then records[..n] else records
  }

  // Present's outcome: the step of the system with the region as it was published, or the step
  // that publishes nothing.
  ghost predicate Presents(s: System, target: u32, t: System, region: seq<byte>, ok: bool) {
    && s.device.sequence + 1 < TWO_32 && s.device.frameId + 1 < TWO_32
    && if ok then Allowed(s, PresentFrame(target, region)) && t == Next(s, PresentFrame(target, region))
       else Allowed(s, PresentNowhere(target)) && t == Next(s, PresentNowhere(target))
  }

  lemma {:induction false} PresentFails(s: System, target: u32, region: seq<byte>)
    requires WellFormed(s) && s.device.sequence + 1 < TWO_32 && s.device.frameId + 1 < TWO_32
    ensures Presents(s, target, s.(device := NextFrame(s.device), replay := EndToEnd.Send(s, PACKET_PRESENT, PresentWords(s, target))),
                     region, false)
  {
    hide EndToEnd.Send, FrameIn, HeaderOf, AllSized, UploadDraw, UploadArena.Valid;
  }

  // The frame is closed by a present packet of its own, and its commands can be transported.
  ghost predicate Publishable(st: State, frameId: u32) {
    st.ready && st.frame.havePresent && st.frame.presentFrame == frameId && Transportable(st.frame.draws)
  }

  // The frame a present sends holds commands that can be transported, and is this frame's.
  lemma {:induction false} SentWhole(s: System, target: u32)
    requires EndToEnd.Sound(s) && s.device.sequence + 1 < TWO_32
    ensures var t := EndToEnd.Send(s, PACKET_PRESENT, PresentWords(s, target));
      Publishable(t, s.device.frameId) && WellFormed(s) && PresentWords(s, target) == [s.device.frameId, 0, target]
  {
    hide Submit, Packet, Transportable, CacheOk, UploadArena.Valid;
    PresentPacket(s.replay, s.device.sequence, s.device.frameId, target);
  }

  lemma {:induction false} PresentNext(s: System, target: u32, region: seq<byte>)
    requires WellFormed(s) && s.device.sequence + 1 < TWO_32 && s.device.frameId + 1 < TWO_32
    requires var sent := EndToEnd.Send(s, PACKET_PRESENT, PresentWords(s, target));
      && AllSized(Sent(sent.frame)) && FrameIn(region, s.arena.mem, Sent(sent.frame))
      && HeaderOf(ReadHeader(region), sent, s.device.frameId)
    ensures var sent := EndToEnd.Send(s, PACKET_PRESENT, PresentWords(s, target));
      var cmds := Sent(sent.frame);
      Presents(s, target, System(NextFrame(s.device), s.arena, PresentState(sent, s.device.frameId), s.records,
                                 s.presented + [Presented(region, cmds, FirstRecords(s.records, |cmds|))]), region, true)
  {
    hide Submit, Packet, FrameIn, HeaderOf, AllSized, PresentState, Sent;
  }
}
