/**
  The whole transport: device calls, packets, replay state, arena and published frames as one
  system, and the fidelity of what the viewer accepts.
 */
module EndToEnd {
  import opened Options
  import opened Words
  import opened Packets
  import opened UploadArena
  import opened Replay
  import opened ReplayProperties
  import opened FrameLayout
  import opened FrameAssembly
  import opened Frontend

  // For a stored draw: the frame it was drawn in and the bytes its sources then held.
  datatype Record = Drawn(frame: u32, data: seq<seq<byte>>) | Stretched

  // A published frame: the region, the commands in it, and their records.
  datatype Presented = Presented(region: seq<byte>, cmds: seq<Command>, records: seq<Record>)

  datatype System = System(device: Device, arena: Arena, replay: State, records: seq<Record>, presented: seq<Presented>)

  datatype Op =
    | WriteObject(id: nat, bytes: seq<byte>)
    | SetConstants(vertex: bool, file: seq<byte>)
    | Bind(bound: Bindings)
    | BeginScene
    | EndScene
    | DrawCall(args: DrawArgs, body: Body, uploads: seq<bool>, synthesised: seq<byte>)
    | StretchCall(rects: seq<u32>)
    | ClearCall(rectCount: u32, clear: Clear)
    | PresentFrame(target: u32, region: seq<byte>)
    | PresentNowhere(target: u32)

  // ---------------------------------------------------------------- one call

  function Send(s: System, kind: u16, words: seq<u32>): State
    requires |words| < 0x3FFE && s.device.sequence + 1 < TWO_32
  {
    Submit(s.replay, Packet(kind, s.device.sequence + 1, words)).state
  }

  ghost predicate WellFormed(s: System) {
    Valid(s.arena) && |s.device.bound.textures| == STAGES
  }

  function DrawUploads(s: System, op: Op): (u: Uploaded)
    requires op.DrawCall? && WellFormed(s) && |op.uploads| == STAGES
    ensures Valid(u.arena) && |u.refs| == BLOCKS_PER_DRAW
  {
    UploadDraw(s.device, s.arena, SourcesOf(s.device, op.uploads, op.synthesised))
  }

  // The body of a clear packet.
  function ClearWords(s: System, rectCount: u32, clear: Clear): seq<u32> {
    [s.device.frameId, rectCount, clear.flags, clear.color, clear.z, clear.stencil]
  }

  // The body of a present packet.
  function PresentWords(s: System, target: u32): seq<u32> {
    [s.device.frameId, 0, target]
  }

  // The calls that the model covers: enough sequence and frame numbers are left, a draw's
  // packet carries the refs of the uploads it makes, and a present either publishes its frame
  // or has nowhere to publish it.
  ghost predicate Allowed(s: System, op: Op) {
    && s.device.sequence + 1 < TWO_32 && WellFormed(s)
    && match op
       case SetConstants(_, file) => |file| == CONSTANT_BYTES
       case Bind(bound) => |bound.textures| == STAGES
       case BeginScene => !s.device.inScene
       case EndScene => s.device.inScene
       case DrawCall(args, body, uploads, synthesised) =>
         |uploads| == STAGES && Carries(body, args, DrawUploads(s, op).refs, SourcesOf(s.device, uploads, synthesised))
       case StretchCall(rects) => |rects| == STRETCH_WORDS
       case PresentFrame(target, region) =>
         && s.device.frameId + 1 < TWO_32
         && var sent := Send(s, PACKET_PRESENT, PresentWords(s, target));
            && AllSized(Sent(sent.frame)) && FrameIn(region, s.arena.mem, Sent(sent.frame))
            && HeaderOf(ReadHeader(region), sent, s.device.frameId)
       case PresentNowhere(_) => s.device.frameId + 1 < TWO_32
       case _ => true
  }

  // The records after a packet that may have stored one command.
  function Recorded(s: System, after: State, r: Record): seq<Record> {
    if |after.frame.draws| == |s.replay.frame.draws| + 1 then s.records + [r] else s.records
  }

  function AfterDraw(s: System, op: Op): System
    requires op.DrawCall? && Allowed(s, op)
  {
    var u := DrawUploads(s, op);
    var replay := Send(s, PACKET_DRAW, op.body);
    var data := PayloadData(s.device, SourcesOf(s.device, op.uploads, op.synthesised));
    s.(device := s.device.(sequence := s.device.sequence + 1, vsRef := u.vs, psRef := u.ps, vsDirty := false, psDirty := false),
       arena := u.arena, replay := replay, records := Recorded(s, replay, Drawn(s.device.frameId, data)))
  }

  function AfterPresent(s: System, op: Op): System
    requires op.PresentFrame? && Allowed(s, op)
  {
    var sent := Send(s, PACKET_PRESENT, PresentWords(s, op.target));
    var cmds := Sent(sent.frame);
    var p := Presented(op.region, cmds, if |cmds| <= |s.records| then s.records[..|cmds|] else s.records);
    s.(device := NextFrame(s.device), replay := PresentState(sent, s.device.frameId), presented := s.presented + [p])
  }

  // A present that has nowhere to publish to: the packet is sent and the frame number moves on.
  function Unpublished(s: System, target: u32): System
    requires s.device.sequence + 1 < TWO_32 && s.device.frameId + 1 < TWO_32
  {
    s.(device := NextFrame(s.device), replay := Send(s, PACKET_PRESENT, PresentWords(s, target)))
  }

  function Next(s: System, op: Op): System
    requires Allowed(s, op)
  {
    var d := s.device;
    var counted := d.(sequence := d.sequence + 1);
    match op
    case WriteObject(id, bytes) => s.(device := d.(objects := d.objects[id := bytes]))
    case SetConstants(vertex, file) =>
      s.(device := if vertex then d.(vsFile := file, vsDirty := true) else d.(psFile := file, psDirty := true))
    case Bind(bound) => s.(device := d.(bound := bound))
    case BeginScene =>
      s.(device := counted.(inScene := true), replay := Send(s, PACKET_BEGIN_FRAME, [d.frameId]),
         records := if d.frameId == s.replay.lastFrame then s.records else [])
    case EndScene => s.(device := d.(inScene := false))
    case DrawCall(_, _, _, _) => AfterDraw(s, op)
    case StretchCall(rects) =>
      var replay := Send(s, PACKET_STRETCH, [d.frameId] + rects);
      s.(device := counted, replay := replay, records := Recorded(s, replay, Stretched))
    case ClearCall(rectCount, clear) => s.(device := counted, replay := Send(s, PACKET_CLEAR, ClearWords(s, rectCount, clear)))
    case PresentFrame(_, _) => AfterPresent(s, op)
    case PresentNowhere(target) => Unpublished(s, target)
  }

  // ---------------------------------------------------------------- uploads hold their bytes

  // A ref that is empty, or that resolves to the bytes and was issued in the frame.
  ghost predicate RefHolds(a: Arena, frame: u32, r: Ref, data: seq<byte>) {
    r.size == 0 || (Holds(a.mem, Issue(frame, r, data)) && Covered(a, Issue(frame, r, data)))
  }

  // A frame whose copies cannot touch an issue of another frame.
  predicate Apart3(frame: u32, current: u32) {
    frame == current || frame % SLOTS != current % SLOTS
  }

  lemma {:induction false} NearFramesApart(frame: u32, current: u32)
    requires frame <= current < frame + SLOTS
    ensures Apart3(frame, current)
  {
  }

  lemma {:induction false} CopyStep(a: Arena, current: u32, data: seq<byte>, frame: u32, r: Ref, bytes: seq<byte>)
    requires Valid(a) && a.frameId <= current && RefHolds(a, frame, r, bytes) && Apart3(frame, current)
    ensures RefHolds(Copy(a, current, data).arena, frame, r, bytes)
    ensures Copy(a, current, data).arena.frameId <= current && Valid(Copy(a, current, data).arena)
  {
    CopyValid(a, current, data);
    if r.size != 0 {
      CopyKeeps(a, current, data, Issue(frame, r, bytes));
    }
  }

  lemma {:induction false} CopyFrame(a: Arena, current: u32, data: seq<byte>)
    requires Valid(a) && a.frameId <= current
    ensures var c := Copy(a, current, data);
      Valid(c.arena) && c.arena.frameId <= current && RefHolds(c.arena, current, c.ref, data)
  {
    CopyValid(a, current, data);
    if Succeeds(a, current, data) {
      FreshIssue(a, current, data);
    } else {
      FailedCopy(a, current, data);
    }
  }

  lemma {:induction false} CopyAllStep(a: Arena, current: u32, list: seq<seq<byte>>, frame: u32, r: Ref,
                                       bytes: seq<byte>)
    requires Valid(a) && a.frameId <= current && RefHolds(a, frame, r, bytes) && Apart3(frame, current)
    ensures RefHolds(CopyAll(a, current, list).arena, frame, r, bytes)
    decreases |list|
  {
    hide Copy, RefHolds, Valid, Apart3;
    if list != [] {
      CopyStep(a, current, list[0], frame, r, bytes);
      CopyAllStep(Copy(a, current, list[0]).arena, current, list[1..], frame, r, bytes);
    }
  }

  lemma {:induction false} CopyAllHolds(a: Arena, current: u32, list: seq<seq<byte>>)
    requires Valid(a) && a.frameId <= current
    ensures var c := CopyAll(a, current, list);
      && c.arena.frameId <= current
      && forall k :: 0 <= k < |list| ==> RefHolds(c.arena, current, c.refs[k], list[k])
    decreases |list|
  {
    hide Copy, RefHolds, Valid;
    if list != [] {
      var first := Copy(a, current, list[0]);
      CopyFrame(a, current, list[0]);
      CopyAllHolds(first.arena, current, list[1..]);
      CopyAllStep(first.arena, current, list[1..], current, first.ref, list[0]);
      var c, rest := CopyAll(a, current, list), CopyAll(first.arena, current, list[1..]);
      forall k | 0 <= k < |list| ensures RefHolds(c.arena, current, c.refs[k], list[k]) {
        if k > 0 { assert c.refs[k] == rest.refs[k - 1] && list[k] == list[1..][k - 1]; }
      }
    }
  }

  // The cached constant ref may be used as it is.
  ghost predicate CacheOk(a: Arena, current: u32, dirty: bool, cached: Ref, file: seq<byte>) {
    dirty || RefHolds(a, current, cached, file)
  }

  /** The ref a draw uses for a constant file is empty or resolves to the file as it is now,
      whether it was uploaded for this draw or kept from an earlier one. */
  lemma {:induction false} ConstantsCurrent(a: Arena, current: u32, dirty: bool, cached: Ref, file: seq<byte>)
    requires Valid(a) && a.frameId <= current && CacheOk(a, current, dirty, cached, file)
    ensures var c := ConstantRef(a, current, dirty, cached, file);
      Valid(c.arena) && c.arena.frameId <= current && RefHolds(c.arena, current, c.ref, file)
  {
    hide Copy, RefHolds, Valid;
    CopyFrame(a, current, file);
  }

  lemma {:induction false} ConstantStep(a: Arena, current: u32, dirty: bool, cached: Ref, file: seq<byte>,
                                        frame: u32, r: Ref, bytes: seq<byte>)
    requires Valid(a) && a.frameId <= current && RefHolds(a, frame, r, bytes) && Apart3(frame, current)
    ensures RefHolds(ConstantRef(a, current, dirty, cached, file).arena, frame, r, bytes)
  {
    CopyStep(a, current, file, frame, r, bytes);
  }

  ghost predicate DeviceOk(s: System) {
    && WellFormed(s) && s.arena.frameId <= s.device.frameId
    && CacheOk(s.arena, s.device.frameId, s.device.vsDirty, s.device.vsRef, s.device.vsFile)
    && CacheOk(s.arena, s.device.frameId, s.device.psDirty, s.device.psRef, s.device.psFile)
  }

  // A draw's uploads keep what earlier frames and earlier draws still need.
  lemma {:induction false} UploadKeeps(d: Device, a: Arena, src: Sources, frame: u32, r: Ref, bytes: seq<byte>)
    requires Valid(a) && a.frameId <= d.frameId && |src.textures| == STAGES
    requires CacheOk(a, d.frameId, d.vsDirty, d.vsRef, d.vsFile)
    requires CacheOk(a, d.frameId, d.psDirty, d.psRef, d.psFile)
    requires RefHolds(a, frame, r, bytes) && Apart3(frame, d.frameId)
    ensures RefHolds(UploadDraw(d, a, src).arena, frame, r, bytes)
  {
    hide Copy, RefHolds, Valid, Apart3, CopyAll;
    var vs := ConstantRef(a, d.frameId, d.vsDirty, d.vsRef, d.vsFile);
    ConstantsCurrent(a, d.frameId, d.vsDirty, d.vsRef, d.vsFile);
    ConstantStep(a, d.frameId, d.vsDirty, d.vsRef, d.vsFile, frame, r, bytes);
    CacheSurvives(a, d);
    var ps := ConstantRef(vs.arena, d.frameId, d.psDirty, d.psRef, d.psFile);
    ConstantsCurrent(vs.arena, d.frameId, d.psDirty, d.psRef, d.psFile);
    ConstantStep(vs.arena, d.frameId, d.psDirty, d.psRef, d.psFile, frame, r, bytes);
    CopyAllStep(ps.arena, d.frameId, CopyList(src), frame, r, bytes);
  }

  // Uploading the vertex constants leaves the pixel constants' ref usable.
  lemma {:induction false} CacheSurvives(a: Arena, d: Device)
    requires Valid(a) && a.frameId <= d.frameId && CacheOk(a, d.frameId, d.psDirty, d.psRef, d.psFile)
    ensures CacheOk(ConstantRef(a, d.frameId, d.vsDirty, d.vsRef, d.vsFile).arena, d.frameId, d.psDirty, d.psRef, d.psFile)
  {
    hide Copy, RefHolds, Valid;
    assert Apart3(d.frameId, d.frameId);
    if !d.psDirty {
      ConstantStep(a, d.frameId, d.vsDirty, d.vsRef, d.vsFile, d.frameId, d.psRef, d.psFile);
    }
  }

  /** After a draw's uploads every ref in its packet is empty or resolves to its source's bytes,
      and so do the cached constant refs. */
  lemma {:induction false} UploadHolds(d: Device, a: Arena, src: Sources)
    requires Valid(a) && a.frameId <= d.frameId && |src.textures| == STAGES
    requires CacheOk(a, d.frameId, d.vsDirty, d.vsRef, d.vsFile)
    requires CacheOk(a, d.frameId, d.psDirty, d.psRef, d.psFile)
    ensures var u, data := UploadDraw(d, a, src), PayloadData(d, src);
      && u.arena.frameId <= d.frameId
      && RefHolds(u.arena, d.frameId, u.vs, d.vsFile) && RefHolds(u.arena, d.frameId, u.ps, d.psFile)
      && forall k :: 0 <= k < BLOCKS_PER_DRAW ==> RefHolds(u.arena, d.frameId, u.refs[k], data[k])
  {
    hide Copy, RefHolds, Valid, CopyAll;
    var list := CopyList(src);
    var vs := ConstantRef(a, d.frameId, d.vsDirty, d.vsRef, d.vsFile);
    ConstantsCurrent(a, d.frameId, d.vsDirty, d.vsRef, d.vsFile);
    CacheSurvives(a, d);
    var ps := ConstantRef(vs.arena, d.frameId, d.psDirty, d.psRef, d.psFile);
    ConstantsCurrent(vs.arena, d.frameId, d.psDirty, d.psRef, d.psFile);
    assert Apart3(d.frameId, d.frameId);
    ConstantStep(vs.arena, d.frameId, d.psDirty, d.psRef, d.psFile, d.frameId, vs.ref, d.vsFile);
    CopyAllHolds(ps.arena, d.frameId, list);
    CopyAllStep(ps.arena, d.frameId, list, d.frameId, vs.ref, d.vsFile);
    CopyAllStep(ps.arena, d.frameId, list, d.frameId, ps.ref, d.psFile);
    var c := CopyAll(ps.arena, d.frameId, list);
    PayloadOrder(c.arena, d, src, vs.ref, ps.ref, c.refs);
  }

  // The refs and the data of a draw are permuted alike.
  lemma {:induction false} PayloadOrder(a: Arena, d: Device, src: Sources, vs: Ref, ps: Ref, refs: seq<Ref>)
    requires |src.textures| == STAGES && |refs| == 5 + STAGES
    requires RefHolds(a, d.frameId, vs, d.vsFile) && RefHolds(a, d.frameId, ps, d.psFile)
    requires forall k :: 0 <= k < 5 + STAGES ==> RefHolds(a, d.frameId, refs[k], CopyList(src)[k])
    ensures forall k :: 0 <= k < BLOCKS_PER_DRAW ==>
      RefHolds(a, d.frameId, PayloadRefs(vs, ps, refs)[k], PayloadData(d, src)[k])
  {
    hide RefHolds;
    forall k | 0 <= k < BLOCKS_PER_DRAW
      ensures RefHolds(a, d.frameId, PayloadRefs(vs, ps, refs)[k], PayloadData(d, src)[k])
    {
      var from := if k < 3 then k + 2 else if k < 5 then 0 else if k < 13 then k else k - 13;
      assert RefHolds(a, d.frameId, refs[from], CopyList(src)[from]);
    }
  }

  // ---------------------------------------------------------------- what one packet does

  lemma {:induction false} SubmitOne(st: State, p: seq<byte>)
    requires st.ready && IsFramed(p)
    ensures Submit(st, p) == Step(st, p)
  {
    hide Step, SubmitFrom;
    assert p[0..] == p;
    assert [p][1..] == [];
    assert Join([p]) == p + Join([]);
    assert Join([p]) == p;
    SubmitFolds(st, p, 0, [p]);
    assert FoldPackets(st, [p]) == if Step(st, p).ok then FoldPackets(Step(st, p).state, []) else Step(st, p);
  }

  // What the system relies on in the replay state.
  predicate ReplayFit(st: State, sequence: u32, frameId: u32) {
    && st.ready && st.upload == ArenaDesc(SLOTS, SLOT_BYTES)
    && st.lastSequence <= sequence && st.lastFrame <= frameId
    && st.frame.frameId <= frameId && |st.frame.draws| <= MAX_DRAWS
  }

  // A packet's number is new, so it is admitted.
  lemma {:induction false} NewPacket(st: State, sequence: u32, frameId: u32, kind: u16, words: seq<u32>)
    requires ReplayFit(st, sequence, frameId) && sequence + 1 < TWO_32 && |words| < 0x3FFE
    requires 1 <= kind <= PACKET_STRETCH
    ensures var p := Packet(kind, sequence + 1, words);
      && IsFramed(p) && Kind(p) == kind && |p| == HEADER_SIZE + 4 * |words|
      && (forall k :: 0 <= k < |words| ==> Word(p, HEADER_SIZE + 4 * k) == words[k])
      && Admitted(st, p) && Submit(st, p) == Step(st, p) && Counted(st, p).lastSequence == sequence + 1
  {
    PacketReads(kind, sequence + 1, words);
    hide Packet, Word;
    SubmitOne(st, Packet(kind, sequence + 1, words));
  }

  predicate SameClear(st: State, t: State) {
    t.clear == st.clear && t.frame.haveClear == st.frame.haveClear
  }

  lemma {:induction false} DrawPacket(st: State, sequence: u32, frameId: u32, body: Body)
    requires ReplayFit(st, sequence, frameId) && sequence + 1 < TWO_32 && |body| == DRAW_WORDS
    ensures var t := Submit(st, Packet(PACKET_DRAW, sequence + 1, body)).state;
      && ReplayFit(t, sequence + 1, frameId) && t.frame.frameId == st.frame.frameId && t.lastFrame == st.lastFrame
      && t.frame.draws == (if DrawAcceptable(st.upload, body) && |st.frame.draws| < MAX_DRAWS
                           then st.frame.draws + [Draw(body)] else st.frame.draws)
      && SameClear(st, t)
  {
    NewPacket(st, sequence, frameId, PACKET_DRAW, body);
    var p := Packet(PACKET_DRAW, sequence + 1, body);
    hide Packet, Word, Submit, Admitted, DrawAcceptable;
    assert DrawBody(p) == body;
  }

  lemma {:induction false} StretchPacket(st: State, sequence: u32, frameId: u32, rects: seq<u32>)
    requires ReplayFit(st, sequence, frameId) && sequence + 1 < TWO_32 && |rects| == STRETCH_WORDS
    ensures var t := Submit(st, Packet(PACKET_STRETCH, sequence + 1, [frameId] + rects)).state;
      && ReplayFit(t, sequence + 1, frameId) && t.frame.frameId == st.frame.frameId && t.lastFrame == st.lastFrame
      && t.frame.draws == (if |st.frame.draws| < MAX_DRAWS then st.frame.draws + [Stretch(rects)] else st.frame.draws)
      && SameClear(st, t)
  {
    var words := [frameId] + rects;
    NewPacket(st, sequence, frameId, PACKET_STRETCH, words);
    var p := Packet(PACKET_STRETCH, sequence + 1, words);
    hide Packet, Word, Submit, Admitted;
    forall k | 0 <= k < STRETCH_WORDS ensures StretchBody(p)[k] == rects[k] {
      assert Word(p, HEADER_SIZE + 4 * (k + 1)) == words[k + 1];
    }
    assert StretchBody(p) == rects;
  }

  lemma {:induction false} ClearPacket(st: State, sequence: u32, frameId: u32, words: seq<u32>)
    requires ReplayFit(st, sequence, frameId) && sequence + 1 < TWO_32 && |words| == 6
    ensures var t := Submit(st, Packet(PACKET_CLEAR, sequence + 1, words)).state;
      && ReplayFit(t, sequence + 1, frameId) && t.frame.frameId == st.frame.frameId && t.frame.draws == st.frame.draws
      && t.clear == Clear(words[3], words[2], words[4], words[5]) && t.frame.haveClear && t.lastFrame == st.lastFrame
  {
    NewPacket(st, sequence, frameId, PACKET_CLEAR, words);
    var p := Packet(PACKET_CLEAR, sequence + 1, words);
    assert Word(p, HEADER_SIZE + 4 * 2) == words[2] && Word(p, HEADER_SIZE + 4 * 3) == words[3];
    assert Word(p, HEADER_SIZE + 4 * 4) == words[4] && Word(p, HEADER_SIZE + 4 * 5) == words[5];
    hide Packet, Word, Submit, Admitted;
  }

  lemma {:induction false} BeginPacket(st: State, sequence: u32, frameId: u32)
    requires ReplayFit(st, sequence, frameId) && sequence + 1 < TWO_32
    ensures var t := Submit(st, Packet(PACKET_BEGIN_FRAME, sequence + 1, [frameId])).state;
      && ReplayFit(t, sequence + 1, frameId)
      && t.lastFrame == frameId && t.frame == (if frameId == st.lastFrame then st.frame else EmptyFrame(frameId))
      && t.clear == (if frameId == st.lastFrame then st.clear else NO_CLEAR)
  {
    NewPacket(st, sequence, frameId, PACKET_BEGIN_FRAME, [frameId]);
    var p := Packet(PACKET_BEGIN_FRAME, sequence + 1, [frameId]);
    assert Word(p, HEADER_SIZE + 4 * 0) == frameId;
    hide Packet, Word, Submit, Admitted;
  }

  lemma {:induction false} PresentPacket(st: State, sequence: u32, frameId: u32, target: u32)
    requires ReplayFit(st, sequence, frameId) && sequence + 1 < TWO_32
    ensures var t := Submit(st, Packet(PACKET_PRESENT, sequence + 1, [frameId, 0, target])).state;
      && ReplayFit(t, sequence + 1, frameId) && t.frame.frameId == st.frame.frameId && t.frame.draws == st.frame.draws
      && t.frame.havePresent && t.frame.presentFrame == frameId && t.frame.presentTarget == target
      && SameClear(st, t) && t.lastFrame == st.lastFrame
  {
    var words := [frameId, 0, target];
    NewPacket(st, sequence, frameId, PACKET_PRESENT, words);
    var p := Packet(PACKET_PRESENT, sequence + 1, words);
    assert words[0] == frameId && words[2] == target;
    assert Word(p, HEADER_SIZE + 4 * 0) == words[0];
    assert Word(p, HEADER_SIZE + 4 * 2) == words[2];
    hide Packet, Word, Submit, Admitted;
  }

  // ---------------------------------------------------------------- the invariant

  ghost predicate PayloadHolds(a: Arena, p: Payload, frame: u32, data: seq<byte>) {
    RefHolds(a, frame, p.ref, data) && (p.ref.size > 0 ==> p.size == |data|)
  }

  // A stored command and its record: every payload that is not empty still resolves to the
  // bytes its source held when the command was issued.
  ghost predicate RecordOk(a: Arena, base: u32, current: u32, c: Command, r: Record) {
    && Sized(c) && (c.Draw? <==> r.Drawn?)
    && (r.Drawn? ==>
          && base <= r.frame <= current && |r.data| == BLOCKS_PER_DRAW
          && forall k :: 0 <= k < BLOCKS_PER_DRAW ==> PayloadHolds(a, Payloads(c)[k], r.frame, r.data[k]))
  }

  // Every stored command's record, against an arena.
  ghost predicate RecordsOk(a: Arena, s: System)
    requires |s.records| == |s.replay.frame.draws|
  {
    forall k :: 0 <= k < |s.records| ==>
      RecordOk(a, s.replay.frame.frameId, s.device.frameId, s.replay.frame.draws[k], s.records[k])
  }

  ghost predicate BlockCarries(mem: seq<byte>, bulk: u32, b: Block, data: seq<byte>) {
    b.size > 0 ==> b.size == |data| && Holding(mem, bulk + b.offset, data)
  }

  // Command j of a published frame: its entry, and its blocks with the recorded bytes.
  ghost predicate CommandFaithful(mem: seq<byte>, bulk: u32, used: u32, cmds: seq<Command>, records: seq<Record>,
                                  j: nat)
    requires AllSized(cmds) && j < |cmds| == |records|
  {
    var bs := BlocksFor(bulk, cmds, j);
    && EntryAt(mem, EntryOffset(j), cmds[j], bs) && AllGood(bulk, 0, used, bs)
    && (cmds[j].Draw? ==>
          records[j].Drawn? && |records[j].data| == BLOCKS_PER_DRAW
          && forall k :: 0 <= k < BLOCKS_PER_DRAW ==> BlockCarries(mem, bulk, bs[k], records[j].data[k]))
  }

  // The bytes mem are a frame of these commands with these sources.
  ghost predicate FrameFaithful(mem: seq<byte>, cmds: seq<Command>, records: seq<Record>)
    requires AllSized(cmds)
  {
    && |cmds| == |records| <= MAX_IPC_DRAWS && |mem| >= HEADER_BYTES
    && var bulk, h := BulkOffset(|cmds|), ReadHeader(mem);
       && HeaderOk(h) && h.drawCount == |cmds| && h.bulkOffset == bulk
       && h.bulkUsed == UsedBefore(bulk, cmds, |cmds|)
       && forall j :: 0 <= j < |cmds| ==> CommandFaithful(mem, bulk, h.bulkUsed, cmds, records, j)
  }

  ghost predicate PresentedOk(p: Presented) {
    AllSized(p.cmds) && |p.region| == IPC_SIZE && FrameFaithful(p.region, p.cmds, p.records)
  }

  // What every run keeps.
  ghost predicate Sound(s: System) {
    && DeviceOk(s) && ReplayFit(s.replay, s.device.sequence, s.device.frameId)
    && |s.records| == |s.replay.frame.draws| && Transportable(s.replay.frame.draws)
  }

  // What a run keeps as long as its draws leave the stored records alone.
  ghost predicate Inv(s: System) {
    && Sound(s) && RecordsOk(s.arena, s)
    && forall k :: 0 <= k < |s.presented| ==> PresentedOk(s.presented[k])
  }

  // Whether the uploads of a call leave every stored record as it was.
  ghost predicate RecordsKept(s: System, op: Op)
    requires Sound(s) && Allowed(s, op)
  {
    op.DrawCall? ==> RecordsOk(DrawUploads(s, op).arena, s)
  }

  lemma {:induction false} RecordWider(a: Arena, base: u32, current: u32, later: u32, c: Command, r: Record)
    requires RecordOk(a, base, current, c, r) && current <= later
    ensures RecordOk(a, base, later, c, r)
  {
    hide PayloadHolds, Payloads;
  }

  // A command whose record holds can be transported.
  lemma {:induction false} RecordTransportable(a: Arena, base: u32, current: u32, c: Command, r: Record)
    requires RecordOk(a, base, current, c, r)
    ensures Sized(c) && AllBacked(Payloads(c))
  {
    hide Payloads, PayloadHolds, Backed, RefHolds;
    forall j | 0 <= j < |Payloads(c)| ensures Backed(Payloads(c)[j]) {
      PayloadBacked(a, Payloads(c)[j], r.frame, r.data[j]);
    }
  }

  lemma {:induction false} StretchRecord(a: Arena, base: u32, current: u32, rects: seq<u32>)
    requires |rects| == STRETCH_WORDS
    ensures RecordOk(a, base, current, Stretch(rects), Stretched)
  {
  }

  // The draw's own record.
  lemma {:induction false} NewRecord(s: System, op: Op)
    requires Sound(s) && op.DrawCall? && Allowed(s, op)
    ensures var data := PayloadData(s.device, SourcesOf(s.device, op.uploads, op.synthesised));
      RecordOk(DrawUploads(s, op).arena, s.replay.frame.frameId, s.device.frameId, Draw(op.body), Drawn(s.device.frameId, data))
  {
    hide UploadDraw, RecordsOk, PresentedOk, CacheOk, Valid, Covered, Transportable;
    var src := SourcesOf(s.device, op.uploads, op.synthesised);
    var data, u := PayloadData(s.device, src), DrawUploads(s, op);
    UploadHolds(s.device, s.arena, src);
    forall k | 0 <= k < BLOCKS_PER_DRAW
      ensures PayloadHolds(u.arena, Payloads(Draw(op.body))[k], s.device.frameId, data[k])
    {
      assert RefHolds(u.arena, s.device.frameId, u.refs[k], data[k]);
      PayloadSize(op.body, op.args, u.refs, src, s.device, k);
    }
  }

  // The size sent with a payload is the size of its source.
  lemma {:induction false} PayloadSize(body: Body, args: DrawArgs, refs: seq<Ref>, src: Sources, d: Device, k: nat)
    requires |refs| == BLOCKS_PER_DRAW && Carries(body, args, refs, src) && |src.textures| == STAGES
    requires k < BLOCKS_PER_DRAW
    ensures Payloads(Draw(body))[k].ref == refs[k]
    ensures Payloads(Draw(body))[k].size == if k < 3 then |PayloadData(d, src)[k]| else refs[k].size
  {
  }

  lemma {:induction false} DrawDevice(s: System, op: Op)
    requires DeviceOk(s) && op.DrawCall? && Allowed(s, op)
    ensures DeviceOk(AfterDraw(s, op))
  {
    UploadHolds(s.device, s.arena, SourcesOf(s.device, op.uploads, op.synthesised));
    hide RefHolds, UploadDraw, Carries, Submit, Packet, PayloadData;
  }

  // ---------------------------------------------------------------- what one call keeps

  // The stored commands and their records grow together: they are kept, with at most one more
  // whose record holds, or begun anew.
  ghost predicate Follows(s: System, t: System)
    requires |s.records| == |s.replay.frame.draws| && |t.records| == |t.replay.frame.draws|
  {
    && s.device.frameId <= t.device.frameId
    && (t.records == [] || Extends(s, t))
  }

  ghost predicate Extends(s: System, t: System)
    requires |s.records| == |s.replay.frame.draws| && |t.records| == |t.replay.frame.draws|
  {
    var n := |s.records|;
    && t.replay.frame.frameId == s.replay.frame.frameId
    && n <= |t.records| <= n + 1 && t.records[..n] == s.records && t.replay.frame.draws[..n] == s.replay.frame.draws
    && (|t.records| > n ==>
          RecordOk(t.arena, t.replay.frame.frameId, t.device.frameId, t.replay.frame.draws[n], t.records[n]))
  }

  // One more stored command.
  lemma {:induction false} Grown(s: System, t: System, c: Command, r: Record)
    requires |s.records| == |s.replay.frame.draws| && Transportable(s.replay.frame.draws)
    requires t.replay.frame.draws == s.replay.frame.draws || t.replay.frame.draws == s.replay.frame.draws + [c]
    requires t.records == Recorded(s, t.replay, r) && t.replay.frame.frameId == s.replay.frame.frameId
    requires s.device.frameId <= t.device.frameId
    requires RecordOk(t.arena, t.replay.frame.frameId, t.device.frameId, c, r)
    ensures |t.records| == |t.replay.frame.draws| && Transportable(t.replay.frame.draws) && Extends(s, t)
  {
    RecordTransportable(t.arena, t.replay.frame.frameId, t.device.frameId, c, r);
    hide RecordOk, AllBacked, Payloads, Sized;
    var n := |s.records|;
    var before, after := s.replay.frame.draws, t.replay.frame.draws;
    forall k | 0 <= k < |after| ensures Sized(after[k]) && AllBacked(Payloads(after[k])) {
      if k < n { assert after[k] == before[k]; }
    }
  }

  lemma {:induction false} DrawForm(s: System, op: Op)
    requires op.DrawCall? && Allowed(s, op)
    ensures |s.device.bound.textures| == STAGES == |op.uploads|
    ensures var t := AfterDraw(s, op);
      && |op.body| == DRAW_WORDS && s.device.sequence + 1 < TWO_32
      && t.replay == Submit(s.replay, Packet(PACKET_DRAW, s.device.sequence + 1, op.body)).state
      && t.arena == DrawUploads(s, op).arena
      && t.records == Recorded(s, t.replay, Drawn(s.device.frameId, PayloadData(s.device, SourcesOf(s.device, op.uploads, op.synthesised))))
      && t.presented == s.presented && t.device.sequence == s.device.sequence + 1 && t.device.frameId == s.device.frameId
  {
    hide Submit, Packet, UploadDraw, PayloadData, FrameIn, HeaderOf, SourcesOf, Payloads, Recorded;
  }

  // The draws and records after a draw.
  lemma {:induction false} DrawGrows(s: System, op: Op)
    requires Sound(s) && op.DrawCall? && Allowed(s, op)
    ensures var t := AfterDraw(s, op);
      && |t.records| == |t.replay.frame.draws| && Transportable(t.replay.frame.draws) && Extends(s, t)
      && ReplayFit(t.replay, t.device.sequence, t.device.frameId)
  {
    hide Submit, Packet, ReplayFit, Allowed, AfterDraw, RecordOk, DeviceOk, Extends, Transportable, Recorded,
      DrawUploads,
      PayloadData, SourcesOf;
    DrawForm(s, op);
    NewRecord(s, op);
    DrawPacket(s.replay, s.device.sequence, s.device.frameId, op.body);
    Grown(s, AfterDraw(s, op), Draw(op.body),
          Drawn(s.device.frameId, PayloadData(s.device, SourcesOf(s.device, op.uploads, op.synthesised))));
  }

  lemma {:induction false} DrawSound(s: System, op: Op)
    requires Sound(s) && op.DrawCall? && Allowed(s, op)
    ensures Sound(Next(s, op)) && Follows(s, Next(s, op)) && Next(s, op).arena == DrawUploads(s, op).arena
    ensures Next(s, op).presented == s.presented && Next(s, op).device.frameId == s.device.frameId
    ensures |s.records| <= |Next(s, op).records|
  {
    hide Submit, Packet, ReplayFit, Allowed, AfterDraw, RecordOk, DeviceOk, Transportable, Recorded, DrawUploads,
      PayloadData,
      SourcesOf;
    DrawDevice(s, op);
    DrawForm(s, op);
    DrawGrows(s, op);
  }

  lemma {:induction false} StretchSound(s: System, op: Op)
    requires Sound(s) && op.StretchCall? && Allowed(s, op)
    ensures Sound(Next(s, op)) && Follows(s, Next(s, op)) && Next(s, op).arena == s.arena
    ensures Next(s, op).presented == s.presented
  {
    hide ReplayFit, RefHolds, Submit, Packet, RecordOk, Extends, Transportable, Recorded, Valid, FrameIn, HeaderOf,
      AllSized, UploadDraw;
    StretchPacket(s.replay, s.device.sequence, s.device.frameId, op.rects);
    StretchRecord(s.arena, s.replay.frame.frameId, s.device.frameId, op.rects);
    Grown(s, Next(s, op), Stretch(op.rects), Stretched);
  }

  lemma {:induction false} ClearSound(s: System, op: Op)
    requires Sound(s) && op.ClearCall? && Allowed(s, op)
    ensures Sound(Next(s, op)) && Follows(s, Next(s, op)) && Next(s, op).arena == s.arena
    ensures Next(s, op).presented == s.presented
  {
    hide ReplayFit, RefHolds, RecordOk, Submit, Packet, Transportable, Valid, FrameIn, HeaderOf, AllSized, UploadDraw;
    ClearPacket(s.replay, s.device.sequence, s.device.frameId, ClearWords(s, op.rectCount, op.clear));
    SameRecords(s, Next(s, op));
  }

  lemma {:induction false} SameRecords(s: System, t: System)
    requires |s.records| == |s.replay.frame.draws| && t.records == s.records
    requires t.replay.frame.draws == s.replay.frame.draws
    requires t.replay.frame.frameId == s.replay.frame.frameId && s.device.frameId <= t.device.frameId
    ensures Follows(s, t)
  {
    hide RecordOk;
    assert t.records[..|s.records|] == s.records && t.replay.frame.draws[..|s.records|] == s.replay.frame.draws;
  }

  lemma {:induction false} NothingToSend()
    ensures Transportable([])
  {
  }

  lemma {:induction false} BeginSound(s: System, op: Op)
    requires Sound(s) && op.BeginScene? && Allowed(s, op)
    ensures Sound(Next(s, op)) && Follows(s, Next(s, op)) && Next(s, op).arena == s.arena
    ensures Next(s, op).presented == s.presented
  {
    hide ReplayFit, RefHolds, RecordOk, Submit, Packet, Valid, FrameIn, HeaderOf, AllSized, UploadDraw, Transportable;
    BeginPacket(s.replay, s.device.sequence, s.device.frameId);
    NothingToSend();
    var t := Next(s, op);
    if s.device.frameId == s.replay.lastFrame { SameRecords(s, t); }
  }

  lemma {:induction false} DeviceSound(s: System, op: Op)
    requires Sound(s) && Allowed(s, op)
    requires op.WriteObject? || op.SetConstants? || op.Bind? || op.EndScene?
    ensures Sound(Next(s, op)) && Follows(s, Next(s, op)) && Next(s, op).arena == s.arena
    ensures Next(s, op).presented == s.presented
  {
    hide ReplayFit, RefHolds, RecordOk, Valid, FrameIn, HeaderOf, AllSized, UploadDraw, Transportable;
    SameRecords(s, Next(s, op));
  }

  lemma {:induction false} NowhereSound(s: System, op: Op)
    requires Sound(s) && op.PresentNowhere? && Allowed(s, op)
    ensures Sound(Next(s, op)) && Follows(s, Next(s, op)) && Next(s, op).arena == s.arena
    ensures Next(s, op).presented == s.presented
  {
    hide RefHolds, RecordOk, Submit, Packet, Valid, FrameIn, HeaderOf, AllSized, UploadDraw, Transportable;
    PresentPacket(s.replay, s.device.sequence, s.device.frameId, op.target);
    SameRecords(s, Next(s, op));
  }

  lemma {:induction false} PresentReplay(st: State, sequence: u32, frameId: u32)
    requires ReplayFit(st, sequence, frameId) && frameId + 1 < TWO_32
    ensures var t := PresentState(st, frameId);
      && ReplayFit(t, sequence, frameId + 1) && t.frame.frameId == st.frame.frameId && t.frame.draws == st.frame.draws
  {
  }

  lemma {:induction false} PresentForm(s: System, op: Op)
    requires op.PresentFrame? && Allowed(s, op)
    ensures var t := AfterPresent(s, op);
      var sent := Submit(s.replay, Packet(PACKET_PRESENT, s.device.sequence + 1, [s.device.frameId, 0, op.target])).state;
      var cmds := Sent(sent.frame);
      && s.device.sequence + 1 < TWO_32 && s.device.frameId + 1 < TWO_32
      && AllSized(cmds) && FrameIn(op.region, s.arena.mem, cmds)
      && HeaderOf(ReadHeader(op.region), sent, s.device.frameId)
      && t.replay == PresentState(sent, s.device.frameId) && t.arena == s.arena && t.records == s.records
      && t.device == NextFrame(s.device)
      && t.presented
         == s.presented + [Presented(op.region, cmds, if |cmds| <= |s.records| then s.records[..|cmds|] else s.records)]
  {
    hide Submit, Packet, FrameIn, Carries, UploadDraw, SourcesOf, AllSized, PresentState, HeaderOf, ReadHeader;
  }

  lemma {:induction false} PresentSound(s: System, op: Op)
    requires Sound(s) && op.PresentFrame? && Allowed(s, op)
    ensures Sound(Next(s, op)) && Follows(s, Next(s, op)) && Next(s, op).arena == s.arena
  {
    hide Submit, Packet, RecordOk, FrameIn, HeaderOf, RefHolds, Sized, Valid, Allowed, AfterPresent, ReplayFit,
      PresentState,
      Transportable;
    PresentForm(s, op);
    PresentPacket(s.replay, s.device.sequence, s.device.frameId, op.target);
    var sent := Submit(s.replay, Packet(PACKET_PRESENT, s.device.sequence + 1, [s.device.frameId, 0, op.target])).state;
    PresentReplay(sent, s.device.sequence + 1, s.device.frameId);
    SameRecords(s, AfterPresent(s, op));
  }

  // The arena after a call.
  function ArenaAfter(s: System, op: Op): Arena
    requires Allowed(s, op)
  {
    if op.DrawCall? then DrawUploads(s, op).arena else s.arena
  }

  /** Every call keeps the cached constant refs usable, the replay state in step with the
      device, and the stored commands fit to be sent. */
  lemma {:induction false} StepKeepsSound(s: System, op: Op)
    requires Sound(s) && Allowed(s, op)
    ensures Sound(Next(s, op)) && Follows(s, Next(s, op)) && Next(s, op).arena == ArenaAfter(s, op)
    ensures !op.PresentFrame? ==> Next(s, op).presented == s.presented
    ensures op.DrawCall? ==> Next(s, op).device.frameId == s.device.frameId && |s.records| <= |Next(s, op).records|
  {
    hide Sound, Allowed, Next, Follows, DrawUploads;
    match op
    case DrawCall(_, _, _, _) => DrawSound(s, op);
    case StretchCall(_) => StretchSound(s, op);
    case ClearCall(_, _) => ClearSound(s, op);
    case BeginScene => BeginSound(s, op);
    case PresentFrame(_, _) => PresentSound(s, op);
    case PresentNowhere(_) => NowhereSound(s, op);
    case _ => DeviceSound(s, op);
  }

  // What a following state's records say about an arena.
  lemma {:induction false} RecordsFollow(s: System, t: System)
    requires |s.records| == |s.replay.frame.draws| && |t.records| == |t.replay.frame.draws| && Follows(s, t)
    ensures RecordsOk(t.arena, s) ==> RecordsOk(t.arena, t)
    ensures t.device.frameId == s.device.frameId && |t.records| >= |s.records| && RecordsOk(t.arena, t) ==> RecordsOk(t.arena, s)
  {
    hide RecordOk;
    var base, n := s.replay.frame.frameId, |s.records|;
    forall k | RecordsOk(t.arena, s) && 0 <= k < |t.records|
      ensures RecordOk(t.arena, t.replay.frame.frameId, t.device.frameId, t.replay.frame.draws[k], t.records[k])
    {
      if k < n {
        assert t.records[..n][k] == t.records[k] && t.replay.frame.draws[..n][k] == t.replay.frame.draws[k];
        RecordWider(t.arena, base, s.device.frameId, t.device.frameId, s.replay.frame.draws[k], s.records[k]);
      }
    }
    if t.device.frameId == s.device.frameId && |t.records| >= n && RecordsOk(t.arena, t) && n > 0 {
      forall k | 0 <= k < n ensures RecordOk(t.arena, base, s.device.frameId, s.replay.frame.draws[k], s.records[k]) {
        assert t.records[..n][k] == t.records[k] && t.replay.frame.draws[..n][k] == t.replay.frame.draws[k];
      }
    }
  }

  // ---------------------------------------------------------------- presenting

  // The record's bytes are what the payload's source range holds.
  lemma {:induction false} PayloadSource(a: Arena, p: Payload, frame: u32, data: seq<byte>)
    requires PayloadHolds(a, p, frame, data) && p.ref.size > 0
    ensures Backed(p) && Base(p.ref) + p.size <= |a.mem| && SourceBytes(a.mem, p) == data
  {
  }

  lemma {:induction false} PayloadBacked(a: Arena, p: Payload, frame: u32, data: seq<byte>)
    requires PayloadHolds(a, p, frame, data)
    ensures Backed(p)
  {
    if Resolve(p.ref).Some? { PayloadSource(a, p, frame, data); }
  }

  // A placed block of a payload list belongs to a payload that is not empty.
  lemma {:induction false} PlacedNotEmpty(bulk: u32, used: u32, ps: seq<Payload>, k: nat)
    requires k < |ps| && Blocks(bulk, used, ps)[k].size > 0
    ensures ps[k].ref.size > 0 && Blocks(bulk, used, ps)[k].size == ps[k].size
    decreases k
  {
    if k > 0 { PlacedNotEmpty(bulk, Advance(bulk, used, ps[0]), ps[1..], k - 1); }
  }

  lemma {:induction false} CommandPresented(a: Arena, mem: seq<byte>, bulk: u32, used: u32, cmds: seq<Command>,
                                            records: seq<Record>, base: u32, current: u32, j: nat)
    requires AllSized(cmds) && j < |cmds| == |records|
    requires RecordOk(a, base, current, cmds[j], records[j]) && CommandIn(mem, a.mem, bulk, used, cmds, j)
    ensures CommandFaithful(mem, bulk, used, cmds, records, j)
  {
    hide EntryAt, AllGood, Payloads, RefHolds, PayloadHolds, Holding, Sized, UsedBefore, Blocks;
    var bs := BlocksFor(bulk, cmds, j);
    var ps := Payloads(cmds[j]);
    if cmds[j].Draw? {
      forall k | 0 <= k < BLOCKS_PER_DRAW ensures BlockCarries(mem, bulk, bs[k], records[j].data[k]) {
        if bs[k].size > 0 {
          PlacedNotEmpty(bulk, UsedBefore(bulk, cmds, j), ps, k);
          assert PayloadHolds(a, ps[k], records[j].frame, records[j].data[k]);
          PayloadSource(a, ps[k], records[j].frame, records[j].data[k]);
        }
      }
    }
  }

  lemma {:induction false} FramePresented(a: Arena, mem: seq<byte>, cmds: seq<Command>, records: seq<Record>,
                                          base: u32, current: u32)
    requires AllSized(cmds) && |cmds| == |records| && FrameIn(mem, a.mem, cmds)
    requires forall k :: 0 <= k < |cmds| ==> RecordOk(a, base, current, cmds[k], records[k])
    ensures FrameFaithful(mem, cmds, records)
  {
    hide CommandIn, RecordOk, CommandFaithful, ReadHeader, UsedBefore, HeaderOk, Sized;
    var bulk, used := BulkOffset(|cmds|), ReadHeader(mem).bulkUsed;
    forall j | 0 <= j < |cmds| ensures CommandFaithful(mem, bulk, used, cmds, records, j) {
      CommandPresented(a, mem, bulk, used, cmds, records, base, current, j);
    }
  }

  // The frame as it stands when present publishes it.
  lemma {:induction false} PresentPublishes(s: System, op: Op)
    requires Inv(s) && op.PresentFrame? && Allowed(s, op)
    ensures var t := AfterPresent(s, op);
      && t.presented == s.presented + [t.presented[|s.presented|]] && PresentedOk(t.presented[|s.presented|])
  {
    hide Submit, Packet, RecordOk, FrameIn, HeaderOf, FrameFaithful, RefHolds, Sized, Valid, Next, ReplayFit, DeviceOk,
      Allowed,
      AfterPresent, Transportable;
    PresentForm(s, op);
    PresentPacket(s.replay, s.device.sequence, s.device.frameId, op.target);
    var cmds := AfterPresent(s, op).presented[|s.presented|].cmds;
    var records := s.records[..|cmds|];
    var base, current := s.replay.frame.frameId, s.device.frameId;
    forall k | 0 <= k < |cmds| ensures RecordOk(s.arena, base, current, cmds[k], records[k]) {
      assert cmds[k] == s.replay.frame.draws[k];
    }
    FramePresented(s.arena, op.region, cmds, records, base, current);
    RegionSize(op.region, s.arena.mem, cmds);
  }

  lemma {:induction false} RegionSize(mem: seq<byte>, arena: seq<byte>, cmds: seq<Command>)
    requires AllSized(cmds) && FrameIn(mem, arena, cmds)
    ensures |mem| == IPC_SIZE
  {
  }

  lemma {:induction false} PresentedAfter(s: System, op: Op)
    requires Inv(s) && Allowed(s, op)
    ensures forall k :: 0 <= k < |Next(s, op).presented| ==> PresentedOk(Next(s, op).presented[k])
  {
    StepKeepsSound(s, op);
    if op.PresentFrame? {
      PresentPublishes(s, op);
    }
    hide AfterPresent, Allowed, Sound, RecordsOk, PresentedOk, Follows, ArenaAfter;
  }

  /** A call keeps the system's invariant exactly when its uploads leave every stored record as
      it was. */
  lemma {:induction false} StepKeepsInv(s: System, op: Op)
    requires Inv(s) && Allowed(s, op)
    ensures Inv(Next(s, op)) <==> RecordsKept(s, op)
  {
    StepKeepsSound(s, op);
    PresentedAfter(s, op);
    RecordsFollow(s, Next(s, op));
    hide Allowed, Next, RecordOk, PresentedOk, DeviceOk, ReplayFit, Transportable, Extends, DrawUploads;
  }
}
