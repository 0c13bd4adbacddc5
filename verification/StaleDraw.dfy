/**
  Why the frame must be begun anew: a run of device calls after which a stored draw no longer
  has its constants.
 */
module StaleDraw {
  import opened Words
  import opened Packets
  import opened UploadArena
  import opened Replay
  import ReplayProperties
  import opened FrameLayout
  import opened FrameAssembly
  import opened Frontend
  import opened EndToEnd
  import opened Retention
  import opened Fidelity

  const NO_UPLOADS := [false, false, false, false, false, false, false, false]

  // The packet of a draw with nothing bound but both constant files, in a frame of slot 1.
  function PlainWord(k: nat): u32 {
    if k == TARGET_ID || k == VERTEX_BUFFER_ID || k == INDEX_BUFFER_ID || k == FVF then 1
    else if k == CONSTANTS_VS || k == CONSTANTS_PS then 1
    else if k == CONSTANTS_VS + 2 || k == CONSTANTS_PS + 1 || k == CONSTANTS_PS + 2 then CONSTANT_BYTES
    else 0
  }

  function PlainBody(): (body: Body)
    ensures |body| == DRAW_WORDS && forall k :: 0 <= k < DRAW_WORDS ==> body[k] == PlainWord(k)
  {
    seq(DRAW_WORDS, k requires 0 <= k => PlainWord(k))
  }

  function PlainDraw(): Op {
    DrawCall(DrawArgs(0, 0, 0, 0, 0, 0), PlainBody(), NO_UPLOADS, [])
  }

  // Vertex constants are set and used by a draw of a new frame.
  function Opening(before: seq<byte>): seq<Op> {
    [BeginScene, SetConstants(true, before), PlainDraw()]
  }

  // Other vertex constants are set and used.
  function Closing(after: seq<byte>): seq<Op> {
    [SetConstants(true, after), PlainDraw()]
  }

  // In between there are three presents and no BeginScene.
  function StaleRun(before: seq<byte>, after: seq<byte>, p: Op, q: Op, r: Op): seq<Op> {
    Opening(before) + ([p, q, r] + Closing(after))
  }

  predicate IsPresent(op: Op) {
    op.PresentFrame? || op.PresentNowhere?
  }

  // ---------------------------------------------------------------- the uploads of a plain draw

  // A device that draws with nothing bound, and has to upload both constant files to a slot that
  // is still empty.
  ghost predicate Plain(d: Device, a: Arena) {
    && Valid(a) && a.frameId < d.frameId && d.bound == NOTHING_BOUND && d.objects == map[]
    && |d.vsFile| == CONSTANT_BYTES == |d.psFile|
    && (d.vsDirty || d.vsRef.size == 0) && (d.psDirty || d.psRef.size == 0)
  }

  function NoRefs(n: nat): (r: seq<Ref>)
    ensures |r| == n && forall k :: 0 <= k < n ==> r[k] == NO_REF
  {
    seq(n, _ => NO_REF)
  }

  lemma {:induction false} EmptyCopies(a: Arena, frameId: u32, list: seq<seq<byte>>)
    requires Valid(a) && forall k :: 0 <= k < |list| ==> list[k] == []
    ensures CopyAll(a, frameId, list) == CopiedAll(a, NoRefs(|list|))
    decreases |list|
  {
    hide Valid;
    if list != [] {
      assert Copy(a, frameId, list[0]) == Copied(a, NO_REF);
      hide Copy;
      EmptyCopies(a, frameId, list[1..]);
    }
  }

  const NO_SOURCES := Sources([], [], [], [], [], [[], [], [], [], [], [], [], []])

  lemma {:induction false} PlainSources(d: Device)
    requires d.bound == NOTHING_BOUND && d.objects == map[]
    ensures SourcesOf(d, NO_UPLOADS, []) == NO_SOURCES
  {
  }

  // The first two copies of a frame.
  lemma {:induction false} PlainConstants(d: Device, a: Arena)
    requires Plain(d, a)
    ensures var vs := ConstantRef(a, d.frameId, d.vsDirty, d.vsRef, d.vsFile);
      && vs.ref == Ref(d.frameId % SLOTS, 0, CONSTANT_BYTES) && Valid(vs.arena)
      && var ps := ConstantRef(vs.arena, d.frameId, d.psDirty, d.psRef, d.psFile);
         ps.ref == Ref(d.frameId % SLOTS, CONSTANT_BYTES, CONSTANT_BYTES) && Valid(ps.arena) && ps.arena.frameId == d.frameId
  {
    CopyLands(a, d.frameId, d.vsFile);
    CopyLands(Copy(a, d.frameId, d.vsFile).arena, d.frameId, d.psFile);
    hide Copy, Valid, Write;
  }

  lemma {:induction false} PlainUploads(d: Device, a: Arena)
    requires Plain(d, a)
    ensures var u := UploadDraw(d, a, SourcesOf(d, NO_UPLOADS, []));
      && u.arena.frameId == d.frameId
      && u.vs == Ref(d.frameId % SLOTS, 0, CONSTANT_BYTES) && u.ps == Ref(d.frameId % SLOTS, CONSTANT_BYTES, CONSTANT_BYTES)
      && u.refs == NoRefs(3) + [u.vs, u.ps] + NoRefs(10)
  {
    PlainSources(d);
    PlainConstants(d, a);
    hide ConstantRef, Valid;
    var vs := ConstantRef(a, d.frameId, d.vsDirty, d.vsRef, d.vsFile);
    var ps := ConstantRef(vs.arena, d.frameId, d.psDirty, d.psRef, d.psFile);
    EmptyCopies(ps.arena, d.frameId, CopyList(SourcesOf(d, NO_UPLOADS, [])));
    hide CopyAll;
  }

  lemma {:induction false} PlainBodyRefs(k: nat)
    requires k < BLOCKS_PER_DRAW
    ensures Payloads(Draw(PlainBody()))[k].ref ==
      if k == 3 then Ref(1, 0, CONSTANT_BYTES) else if k == 4 then Ref(1, CONSTANT_BYTES, CONSTANT_BYTES) else NO_REF
  {
  }

  lemma {:induction false} PlainOptional(k: nat)
    requires k < |OptionalRefs(PlainBody())|
    ensures EmptyOrInRange(ArenaDesc(SLOTS, SLOT_BYTES), OptionalRefs(PlainBody())[k])
  {
    hide PlainBody;
  }

  lemma {:induction false} PlainAccepted()
    ensures DrawAcceptable(ArenaDesc(SLOTS, SLOT_BYTES), PlainBody())
  {
    hide PlainBody, EmptyOrInRange, OptionalRefs;
    var body := PlainBody();
    forall k | 0 <= k < |OptionalRefs(body)| ensures EmptyOrInRange(ArenaDesc(SLOTS, SLOT_BYTES), OptionalRefs(body)[k]) {
      PlainOptional(k);
    }
  }

  lemma {:induction false} PlainCarries(refs: seq<Ref>)
    requires refs == NoRefs(3) + [Ref(1, 0, CONSTANT_BYTES), Ref(1, CONSTANT_BYTES, CONSTANT_BYTES)] + NoRefs(10)
    ensures Carries(PlainBody(), PlainDraw().args, refs, NO_SOURCES)
  {
    hide PlainBody, Payloads;
    forall k | 0 <= k < BLOCKS_PER_DRAW ensures Payloads(Draw(PlainBody()))[k].ref == refs[k] {
      PlainBodyRefs(k);
    }
  }

  lemma {:induction false} PlainAllowed(s: System)
    requires Plain(s.device, s.arena) && s.device.frameId % SLOTS == 1 && s.device.sequence + 1 < TWO_32
    ensures Allowed(s, PlainDraw())
  {
    hide UploadDraw, SourcesOf, Carries, Valid, NoRefs, PlainBody;
    PlainUploads(s.device, s.arena);
    PlainSources(s.device);
    PlainCarries(DrawUploads(s, PlainDraw()).refs);
  }

  // ---------------------------------------------------------------- the run, step by step

  // A plain draw stores its command with the constants it used.
  lemma {:induction false} PlainStored(s: System)
    requires Sound(s) && Plain(s.device, s.arena) && Allowed(s, PlainDraw()) && |s.replay.frame.draws| < MAX_DRAWS
    ensures var t := Next(s, PlainDraw());
      && t.replay.frame.draws == s.replay.frame.draws + [Draw(PlainBody())] && |t.records| == |s.records| + 1
      && t.records[|s.records|].Drawn? && t.records[|s.records|].frame == s.device.frameId
      && |t.records[|s.records|].data| == BLOCKS_PER_DRAW && t.records[|s.records|].data[3] == s.device.vsFile
      && t.replay.frame.frameId == s.replay.frame.frameId && t.arena == DrawUploads(s, PlainDraw()).arena
      && t.arena.frameId == s.device.frameId && t.device.frameId == s.device.frameId
      && t.device.sequence == s.device.sequence + 1
  {
    hide Submit, Packet, DrawAcceptable, UploadDraw, AfterDraw, Allowed, DeviceOk, Transportable, PlainBody, SourcesOf;
    PlainAccepted();
    PlainUploads(s.device, s.arena);
    DrawForm(s, PlainDraw());
    DrawPacket(s.replay, s.device.sequence, s.device.frameId, PlainBody());
  }

  // A present moves to the next frame and leaves what is stored.
  lemma {:induction false} PresentLeaves(s: System, op: Op)
    requires Sound(s) && IsPresent(op) && Allowed(s, op)
    ensures var t := Next(s, op);
      && Sound(t) && s.device.sequence + 1 < TWO_32 && s.device.frameId + 1 < TWO_32
      && t.device == NextFrame(s.device) && t.arena == s.arena && t.records == s.records
      && t.replay.frame.draws == s.replay.frame.draws && t.replay.frame.frameId == s.replay.frame.frameId
  {
    hide Submit, Packet, FrameIn, HeaderOf, AllSized, AfterPresent, ReplayProperties.PresentState, DeviceOk, Transportable, Follows, Valid, UploadDraw;
    StepKeepsSound(s, op);
    PresentPacket(s.replay, s.device.sequence, s.device.frameId, op.target);
    if op.PresentFrame? {
      PresentForm(s, op);
      PresentReplay(Send(s, PACKET_PRESENT, PresentWords(s, op.target)), s.device.sequence + 1, s.device.frameId);
    }
  }

  lemma {:induction false} RunStep(s: System, a: Op, rest: seq<Op>)
    ensures Possible(s, [a] + rest) <==> Allowed(s, a) && Possible(Next(s, a), rest)
    ensures Possible(s, [a] + rest) ==> Run(s, [a] + rest) == Run(Next(s, a), rest)
  {
    hide Allowed, Next;
    assert ([a] + rest)[0] == a && ([a] + rest)[1..] == rest;
  }

  lemma {:induction false} RunOf2(s: System, a: Op, b: Op)
    ensures Possible(s, [a, b]) <==> Allowed(s, a) && Allowed(Next(s, a), b)
    ensures Possible(s, [a, b]) ==> Run(s, [a, b]) == Next(Next(s, a), b)
  {
    hide Allowed, Next;
    assert [a] + [b] == [a, b] && [b] + [] == [b];
    RunStep(s, a, [b]);
    if Allowed(s, a) { RunStep(Next(s, a), b, []); }
  }

  lemma {:induction false} RunOf3(s: System, a: Op, b: Op, c: Op)
    ensures Possible(s, [a, b, c])
      <==> Allowed(s, a) && Allowed(Next(s, a), b) && Allowed(Next(Next(s, a), b), c)
    ensures Possible(s, [a, b, c]) ==> Run(s, [a, b, c]) == Next(Next(Next(s, a), b), c)
  {
    hide Allowed, Next, Possible, Run;
    assert [a] + [b, c] == [a, b, c];
    RunStep(s, a, [b, c]);
    if Allowed(s, a) { RunOf2(Next(s, a), b, c); }
  }

  lemma {:induction false} RunConcat(s: System, a: seq<Op>, b: seq<Op>)
    ensures Possible(s, a + b) <==> Possible(s, a) && Possible(Run(s, a), b)
    ensures Possible(s, a + b) ==> Run(s, a + b) == Run(Run(s, a), b)
    decreases |a|
  {
    hide Allowed, Next;
    if a == [] {
      assert a + b == b;
    } else {
      assert (a + b)[0] == a[0] && (a + b)[1..] == a[1..] + b;
      if Allowed(s, a[0]) { RunConcat(Next(s, a[0]), a[1..], b); }
    }
  }

  // The plain draw of frame 1 is the first one stored.
  ghost predicate Remembers(s: System, before: seq<byte>) {
    && Sound(s) && Valid(s.arena) && |s.records| == 1 && s.replay.frame.draws[0] == Draw(PlainBody())
    && s.records[0].Drawn? && s.records[0].frame == 1 && |s.records[0].data| == BLOCKS_PER_DRAW
    && s.records[0].data[3] == before
    && s.arena.frameId == 1 && s.device.bound == NOTHING_BOUND && s.device.objects == map[]
    && |s.device.vsFile| == CONSTANT_BYTES == |s.device.psFile|
  }

  lemma {:induction false} BeginFirst(s: System)
    requires Start(s)
    ensures Allowed(s, BeginScene)
    ensures var t := Next(s, BeginScene);
      && Sound(t) && t.device == s.device.(sequence := 1, inScene := true) && t.arena == s.arena
      && t.records == [] && t.replay.frame == EmptyFrame(1)
  {
    hide Submit, Packet, Valid, UploadDraw, FrameIn, HeaderOf, AllSized, Transportable;
    StartInv(s);
    InvSound(s);
    StepKeepsSound(s, BeginScene);
    BeginPacket(s.replay, 0, 1);
  }

  lemma {:induction false} SetVertex(s: System, file: seq<byte>)
    requires Sound(s) && |file| == CONSTANT_BYTES && s.device.sequence + 1 < TWO_32
    ensures Allowed(s, SetConstants(true, file))
    ensures var t := Next(s, SetConstants(true, file));
      Sound(t) && t == s.(device := s.device.(vsFile := file, vsDirty := true))
  {
    hide Valid, UploadDraw, FrameIn, HeaderOf, AllSized, Transportable, Follows, ReplayFit, Submit, Packet;
    StepKeepsSound(s, SetConstants(true, file));
  }

  // The first draw, on an empty frame.
  lemma {:induction false} FirstDraw(s: System)
    requires Sound(s) && Plain(s.device, s.arena) && s.device.frameId == 1 && s.device.sequence == 1
    requires s.records == [] && s.replay.frame == EmptyFrame(1)
    ensures Allowed(s, PlainDraw())
    ensures var t := Next(s, PlainDraw());
      && Remembers(t, s.device.vsFile) && t.device.frameId == 1 && t.device.sequence == 2
  {
    hide Sound, Allowed, Valid, DrawUploads, Recorded, Send, PlainBody;
    PlainAllowed(s);
    StepKeepsSound(s, PlainDraw());
    PlainStored(s);
  }

  lemma {:induction false} OpeningRuns(s: System, before: seq<byte>)
    requires Start(s) && |before| == CONSTANT_BYTES
    ensures Possible(s, Opening(before))
    ensures var t := Run(s, Opening(before));
      && Remembers(t, before) && t.device.frameId == 1 && t.device.sequence == 2
  {
    hide Sound, Allowed, Next, Possible, Run, Valid, DrawUploads, Remembers;
    BeginFirst(s);
    var t := Next(s, BeginScene);
    SetVertex(t, before);
    FirstDraw(Next(t, SetConstants(true, before)));
    RunOf3(s, BeginScene, SetConstants(true, before), PlainDraw());
  }

  lemma {:induction false} PresentsRemember(s: System, p: Op, q: Op, r: Op, before: seq<byte>)
    requires Remembers(s, before) && s.device.frameId == 1 && Possible(s, [p, q, r])
    requires IsPresent(p) && IsPresent(q) && IsPresent(r)
    ensures var t := Run(s, [p, q, r]);
      && Remembers(t, before) && t.device.frameId == 4 && t.device.sequence == s.device.sequence + 3
      && t.device.vsDirty && t.device.psDirty
  {
    RunOf3(s, p, q, r);
    hide Sound, Allowed, Next, Possible, Run;
    PresentLeaves(s, p);
    PresentLeaves(Next(s, p), q);
    PresentLeaves(Next(Next(s, p), q), r);
  }

  // Constants uploaded in frame 4 land on those of frame 1.
  lemma {:induction false} StaleConstants(s: System, before: seq<byte>)
    requires Remembers(s, before) && s.device.frameId == 4 && Plain(s.device, s.arena) && Allowed(s, PlainDraw())
    requires s.device.vsFile != before
    ensures !RecordOk(DrawUploads(s, PlainDraw()).arena, s.replay.frame.frameId, 4, s.replay.frame.draws[0], s.records[0])
  {
    PlainUploads(s.device, s.arena);
    PlainBodyRefs(3);
    hide UploadDraw, Payloads, PlainBody, Valid, SourcesOf, ReplayFit, Transportable, CacheOk, Carries;
    UploadHolds(s.device, s.arena, SourcesOf(s.device, NO_UPLOADS, []));
    assert !PayloadHolds(DrawUploads(s, PlainDraw()).arena, Payloads(Draw(PlainBody()))[3], 1, before);
  }

  /** The discipline is needed. Whatever the two constant files are, as long as they differ: the
      draw made with the first one is still stored after the run, and what its constants resolve
      to is no longer that file. */
  lemma {:induction false} DisciplineNeeded(s: System, before: seq<byte>, after: seq<byte>, p: Op, q: Op, r: Op)
    requires Start(s) && |before| == CONSTANT_BYTES == |after| && before != after
    requires IsPresent(p) && IsPresent(q) && IsPresent(r) && Possible(s, StaleRun(before, after, p, q, r))
    ensures var t := Run(s, StaleRun(before, after, p, q, r));
      && |t.records| == |t.replay.frame.draws| == 2 && t.replay.frame.draws[0] == Draw(PlainBody())
      && t.records[0].Drawn? && t.records[0].frame == 1 && |t.records[0].data| == BLOCKS_PER_DRAW
      && t.records[0].data[3] == before
      && !RecordOk(t.arena, t.replay.frame.frameId, t.device.frameId, t.replay.frame.draws[0], t.records[0])
  {
    hide Sound, Allowed, Next, Possible, Run, Start, DrawUploads, RecordOk;
    var presents := [p, q, r];
    OpeningRuns(s, before);
    RunConcat(s, Opening(before), presents + Closing(after));
    var t := Run(s, Opening(before));
    RunConcat(t, presents, Closing(after));
    PresentsRemember(t, p, q, r, before);
    ClosingStales(Run(t, presents), before, after);
  }

  lemma {:induction false} ClosingStales(s: System, before: seq<byte>, after: seq<byte>)
    requires Remembers(s, before) && s.device.frameId == 4 && s.device.vsDirty && s.device.psDirty && s.device.sequence == 5
    requires |after| == CONSTANT_BYTES && before != after && Possible(s, Closing(after))
    ensures var t := Run(s, Closing(after));
      && |t.records| == |t.replay.frame.draws| == 2
      && t.replay.frame.draws[0] == s.replay.frame.draws[0] && t.records[0] == s.records[0]
      && !RecordOk(t.arena, t.replay.frame.frameId, t.device.frameId, t.replay.frame.draws[0], t.records[0])
  {
    RunOf2(s, SetConstants(true, after), PlainDraw());
    hide Allowed, Next, Possible, Run, RecordOk, DrawUploads;
    SetVertex(s, after);
    var t := Next(s, SetConstants(true, after));
    StaleConstants(t, before);
    PlainStored(t);
    StepKeepsSound(t, PlainDraw());
  }

  lemma {:induction false} NowhereAllowed(s: System)
    requires Sound(s) && s.device.sequence + 1 < TWO_32 && s.device.frameId + 1 < TWO_32
    ensures Allowed(s, PresentNowhere(0))
  {
    hide FrameIn, HeaderOf, AllSized, UploadDraw, Valid, ReplayFit, Transportable, RefHolds;
  }

  lemma {:induction false} PresentsPossible(s: System, before: seq<byte>)
    requires Remembers(s, before) && s.device.frameId == 1 && s.device.sequence == 2
    ensures var p := PresentNowhere(0); Possible(s, [p, p, p])
  {
    var p := PresentNowhere(0);
    hide Sound, Allowed, Next, Possible, Run, Valid;
    NowhereAllowed(s);
    PresentLeaves(s, p);
    var t := Next(s, p);
    NowhereAllowed(t);
    PresentLeaves(t, p);
    NowhereAllowed(Next(t, p));
    RunOf3(s, p, p, p);
  }

  lemma {:induction false} ClosingPossible(s: System, before: seq<byte>, after: seq<byte>)
    requires Remembers(s, before) && s.device.frameId == 4 && s.device.vsDirty && s.device.psDirty && s.device.sequence == 5
    requires |after| == CONSTANT_BYTES
    ensures Possible(s, Closing(after))
  {
    hide Sound, Allowed, Next, Possible, Run, Valid;
    SetVertex(s, after);
    PlainAllowed(Next(s, SetConstants(true, after)));
    RunOf2(s, SetConstants(true, after), PlainDraw());
  }

  /** Such a run exists: with nowhere to present to, every call of it can be made. */
  lemma {:induction false} StaleRunPossible(s: System, before: seq<byte>, after: seq<byte>)
    requires Start(s) && |before| == CONSTANT_BYTES == |after|
    ensures var p := PresentNowhere(0); Possible(s, StaleRun(before, after, p, p, p))
  {
    var p := PresentNowhere(0);
    hide Remembers, Possible, Run, Start, Next, Allowed;
    OpeningRuns(s, before);
    var t := Run(s, Opening(before));
    PresentsPossible(t, before);
    PresentsRemember(t, p, p, p, before);
    ClosingPossible(Run(t, [p, p, p]), before, after);
    RunConcat(t, [p, p, p], Closing(after));
    RunConcat(s, Opening(before), [p, p, p] + Closing(after));
  }
}
