/**
  End-to-end fidelity: the viewer accepts the frames that the device's calls asked for, command
  by command, with the bytes that every draw's sources held when the draw was made.
 */
module Fidelity {
  import opened Words
  import opened Packets
  import opened UploadArena
  import opened Replay
  import opened FrameLayout
  import opened FrameAssembly
  import opened Frontend
  import opened EndToEnd
  import opened Publishing
  import opened Retention
  import opened CallHistory
  import opened ViewerReading
  import opened Options
  import SnapshotProtocol

  // ---------------------------------------------------------------- runs of the system

  // A new device, arena and bridge.
  ghost predicate Start(s: System) {
    && Valid(s.arena) && s.arena.frameId == 0
    && s.device.frameId == 1 && !s.device.inScene && s.device.sequence == 0
    && !s.device.vsDirty && !s.device.psDirty && s.device.vsRef == NO_REF && s.device.psRef == NO_REF
    && |s.device.vsFile| == CONSTANT_BYTES == |s.device.psFile|
    && s.device.objects == map[] && s.device.bound == NOTHING_BOUND
    && s.replay == Initial(ArenaDesc(SLOTS, SLOT_BYTES)) && s.records == [] && s.presented == []
  }

  ghost predicate Possible(s: System, ops: seq<Op>)
    decreases |ops|
  {
    ops == [] || (Allowed(s, ops[0]) && Possible(Next(s, ops[0]), ops[1..]))
  }

  ghost function Run(s: System, ops: seq<Op>): System
    requires Possible(s, ops)
    decreases |ops|
  {
    if ops == [] then s else Run(Next(s, ops[0]), ops[1..])
  }

  // Every draw of the run is harmless.
  ghost predicate Careful(s: System, ops: seq<Op>)
    requires Possible(s, ops)
    decreases |ops|
  {
    ops == [] || (Sound(s) && Harmless(s, ops[0]) && Careful(Next(s, ops[0]), ops[1..]))
  }

  // Every draw of the run adds to a frame that was begun fewer than three frames ago, as it
  // does when BeginScene is called between presents.
  ghost predicate Disciplined(s: System, ops: seq<Op>)
    requires Possible(s, ops)
    decreases |ops|
  {
    ops == [] ||
    ((ops[0].DrawCall? ==> s.device.frameId < s.replay.frame.frameId + SLOTS) && Disciplined(Next(s, ops[0]), ops[1..]))
  }

  // The invariant holds before the run and after every call of it.
  ghost predicate InvThroughout(s: System, ops: seq<Op>)
    requires Possible(s, ops)
    decreases |ops|
  {
    Inv(s) && (ops == [] || InvThroughout(Next(s, ops[0]), ops[1..]))
  }

  lemma {:induction false} StartInv(s: System)
    requires Start(s)
    ensures Inv(s)
  {
  }

  lemma {:induction false} RunSound(s: System, ops: seq<Op>)
    requires Sound(s) && Possible(s, ops)
    ensures Sound(Run(s, ops))
    decreases |ops|
  {
    hide Sound, Allowed, Next, Follows, ArenaAfter;
    if ops != [] {
      StepKeepsSound(s, ops[0]);
      RunSound(Next(s, ops[0]), ops[1..]);
    }
  }

  /** A run keeps the invariant at every call exactly when all its draws are harmless. */
  lemma {:induction false} RunKeepsInvExactly(s: System, ops: seq<Op>)
    requires Inv(s) && Possible(s, ops)
    ensures InvThroughout(s, ops) <==> Careful(s, ops)
    ensures Careful(s, ops) ==> Inv(Run(s, ops))
    decreases |ops|
  {
    hide Inv, Sound, Allowed, Next, Harmless, Follows, ArenaAfter;
    InvSound(s);
    if ops != [] {
      StepKeepsSound(s, ops[0]);
      StepKeepsInvExactly(s, ops[0]);
      if Harmless(s, ops[0]) { RunKeepsInvExactly(Next(s, ops[0]), ops[1..]); }
      else { NotThroughout(Next(s, ops[0]), ops[1..]); }
    }
  }

  lemma {:induction false} InvSound(s: System)
    requires Inv(s)
    ensures Sound(s)
  {
  }

  lemma {:induction false} NotThroughout(s: System, ops: seq<Op>)
    requires Possible(s, ops) && !Inv(s)
    ensures !InvThroughout(s, ops)
  {
  }

  /** The discipline is enough for a run to be careful. */
  lemma {:induction false} DisciplineSuffices(s: System, ops: seq<Op>)
    requires Inv(s) && Possible(s, ops) && Disciplined(s, ops)
    ensures Careful(s, ops)
    decreases |ops|
  {
    hide Inv, Sound, Allowed, Next, Harmless, Follows, ArenaAfter;
    InvSound(s);
    if ops != [] {
      NearDrawsHarmless(s, ops[0]);
      StepKeepsSound(s, ops[0]);
      StepKeepsInvExactly(s, ops[0]);
      DisciplineSuffices(Next(s, ops[0]), ops[1..]);
    }
  }

  /** The constant cache: in every run, whatever its presents and however full the arena, the
      constant refs that a draw sends are empty or resolve to the constant files as they are at
      that draw. */
  lemma {:induction false} ConstantCacheCoherent(s: System, ops: seq<Op>, op: Op)
    requires Start(s) && Possible(s, ops) && op.DrawCall? && Allowed(Run(s, ops), op)
    ensures var t := Run(s, ops);
      var u := DrawUploads(t, op);
      RefHolds(u.arena, t.device.frameId, u.vs, t.device.vsFile) && RefHolds(u.arena, t.device.frameId, u.ps, t.device.psFile)
  {
    StartInv(s);
    RunSound(s, ops);
    var t := Run(s, ops);
    hide Run, Possible, Start, RefHolds, UploadDraw, RecordsOk, PresentedOk, ReplayFit, Transportable;
    UploadHolds(t.device, t.arena, SourcesOf(t.device, op.uploads, op.synthesised));
  }

  /** A constant file is uploaded once: after a draw whose upload of it succeeded, another draw
      takes the same ref and copies nothing, until the file is set or the frame turns. */
  lemma {:induction false} ConstantsUploadedOnce(s: System, op: Op)
    requires Sound(s) && op.DrawCall? && Allowed(s, op)
    ensures var u, t := DrawUploads(s, op), Next(s, op);
      && Valid(t.arena)
      && (u.vs.size > 0 ==>
            ConstantRef(t.arena, t.device.frameId, t.device.vsDirty, t.device.vsRef, t.device.vsFile) == Copied(t.arena, u.vs))
      && (u.ps.size > 0 ==>
            ConstantRef(t.arena, t.device.frameId, t.device.psDirty, t.device.psRef, t.device.psFile) == Copied(t.arena, u.ps))
  {
    hide UploadDraw, SourcesOf, Carries, Copy, Submit, Packet, Recorded, PayloadData, Transportable, CacheOk;
  }

  // ---------------------------------------------------------------- the composition

  // The regions of the frames presented, in order.
  function Regions(presented: seq<Presented>): (regions: seq<seq<byte>>)
    ensures |regions| == |presented| && forall k :: 0 <= k < |presented| ==> regions[k] == presented[k].region
  {
    seq(|presented|, k requires 0 <= k < |presented| => presented[k].region)
  }

  // An accepted snapshot is the frame that was presented under its number.
  lemma {:induction false} SnapshotShows(a: SnapshotProtocol.Accepted, published: seq<seq<byte>>, p: Presented,
                                         sh: Shown)
    requires SnapshotProtocol.Faithful(published, a) && published[a.sequence - 1] == p.region && PresentedOk(p)
    requires TellsShown(sh, p)
    ensures Shows(a.snapshot, sh)
  {
    hide FrameFaithful, ReadHeader, Sized, Shows, AllStem, TellsHeader;
    SnapshotLength(a, published, p);
    PrefixFaithful(p.region, |a.snapshot|, p.cmds, p.records);
    PrefixHeader(p.region, |a.snapshot|);
    FaithfulShows(a.snapshot, sh, p.cmds, p.records);
  }

  lemma {:induction false} SnapshotLength(a: SnapshotProtocol.Accepted, published: seq<seq<byte>>, p: Presented)
    requires SnapshotProtocol.Faithful(published, a) && published[a.sequence - 1] == p.region && PresentedOk(p)
    ensures var h := ReadHeader(p.region);
      |a.snapshot| == h.bulkOffset + h.bulkUsed <= |p.region| && a.snapshot == p.region[..|a.snapshot|]
    ensures |p.cmds| == |p.records| && HEADER_BYTES <= |a.snapshot|
  {
    hide ReadHeader, CommandFaithful, UsedBefore, Sized, BulkOffset;
    assert a.header == p.region[..HEADER_BYTES];
    PrefixHeader(p.region, HEADER_BYTES);
  }

  // ---------------------------------------------------------------- what a run asked for

  // Before the first call.
  function Untold(s: System): History {
    History(Settings(map[], NOTHING_BOUND, s.device.vsFile, s.device.psFile), 1, false, false, None, [], [])
  }

  ghost function Told(h: History, s: System, ops: seq<Op>): History
    requires Possible(s, ops)
    decreases |ops|
  {
    if ops == [] then h else Told(Noted(h, s, ops[0]), Next(s, ops[0]), ops[1..])
  }

  // The frames that a run of a new device presented.
  ghost function Asked(s: System, ops: seq<Op>): seq<Shown>
    requires Possible(s, ops)
  {
    Told(Untold(s), s, ops).shown
  }

  lemma {:induction false} StartTold(s: System)
    requires Start(s)
    ensures Tells(Untold(s), s)
  {
    hide Valid;
  }

  lemma {:induction false} RunTold(h: History, s: System, ops: seq<Op>)
    requires Sound(s) && Tells(h, s) && Possible(s, ops)
    ensures Tells(Told(h, s, ops), Run(s, ops))
    decreases |ops|
  {
    hide Sound, Tells, Allowed, Next, Noted, Follows, ArenaAfter;
    if ops != [] {
      StepKeepsSound(s, ops[0]);
      StepTold(h, s, ops[0]);
      RunTold(Noted(h, s, ops[0]), Next(s, ops[0]), ops[1..]);
    }
  }

  lemma {:induction false} AskedAndPresented(s: System, ops: seq<Op>)
    requires Start(s) && Possible(s, ops)
    ensures |Asked(s, ops)| == |Run(s, ops).presented|
    ensures forall k :: 0 <= k < |Asked(s, ops)| ==> TellsShown(Asked(s, ops)[k], Run(s, ops).presented[k])
  {
    StartTold(s);
    StartInv(s);
    InvSound(s);
    RunTold(Untold(s), s, ops);
    hide Start, Told, Run, Possible, TellsShown, Sound;
  }

  // ---------------------------------------------------------------- the two main results

  /** End to end: take any run of device calls whose draws are harmless, the stores by which its
      frames were published, and any interleaving of those stores with the reader. Every snapshot
      the viewer accepts is the frame presented under its sequence number, as its calls asked for
      it: the header has the frame's number, target and last clear; the entries are the frame's
      commands, in order, with every field as it was given; and every payload the viewer reads is
      what was bound for the draw at the draw, whatever was written to it before the present.
      Accepted frames are in order. */
  lemma {:induction false} EndToEndFidelity(s: System, ops: seq<Op>, traces: seq<seq<Stored>>,
                                            w: SnapshotProtocol.World,
                                            steps: seq<SnapshotProtocol.Step>)
    requires Start(s) && Possible(s, ops) && Careful(s, ops)
    requires SnapshotProtocol.Init(w) && SnapshotProtocol.Interleaving(w, steps)
    requires FramesPublished(w.mem, 0, traces, Regions(Run(s, ops).presented)) && Writers(steps) <= Plan(traces)
    ensures var v, asked := SnapshotProtocol.After(w, steps), Asked(s, ops);
      && (forall i :: 0 <= i < |v.accepted| ==>
            1 <= v.accepted[i].sequence <= |asked| && Shows(v.accepted[i].snapshot, asked[v.accepted[i].sequence - 1]))
      && (forall i, j :: 0 <= i < j < |v.accepted| ==> v.accepted[i].sequence < v.accepted[j].sequence)
  {
    hide Possible, Start, Careful, Shows, PresentedOk, SnapshotProtocol.Init, SnapshotProtocol.Interleaving,
      SnapshotProtocol.Faithful, FramesPublished, Writers, Plan, Run, SnapshotProtocol.After, Regions, Asked, TellsShown;
    SnapshotProtocol.SnapshotSafety(w, steps);
    PresentedFaithful(s, ops);
    AskedAndPresented(s, ops);
    var v, presented := SnapshotProtocol.After(w, steps), Run(s, ops).presented;
    InitPublished(w, steps, traces, Regions(presented));
    forall i | 0 <= i < |v.accepted|
      ensures 1 <= v.accepted[i].sequence <= |presented|
      ensures Shows(v.accepted[i].snapshot, Asked(s, ops)[v.accepted[i].sequence - 1])
    {
      AcceptedShows(v.accepted[i], v.published, presented, Asked(s, ops));
    }
  }

  /** And frames do arrive: whenever no frame is being published and the last one is new to the
      waiting viewer, a poll that nothing disturbs accepts it, and shows it as it was asked for. */
  lemma {:induction false} NewFrameIsShown(s: System, ops: seq<Op>, traces: seq<seq<Stored>>, w: SnapshotProtocol.World,
                                           steps: seq<SnapshotProtocol.Step>, poll: seq<SnapshotProtocol.Step>)
    requires Start(s) && Possible(s, ops) && Careful(s, ops)
    requires SnapshotProtocol.Init(w) && SnapshotProtocol.Interleaving(w, steps)
    requires FramesPublished(w.mem, 0, traces, Regions(Run(s, ops).presented)) && Writers(steps) <= Plan(traces)
    requires var v := SnapshotProtocol.After(w, steps);
      !v.writing && v.reader.Waiting? && v.lastSequence < |v.published| && SnapshotProtocol.Poll(v, poll)
    ensures var v, asked := SnapshotProtocol.After(w, steps), Asked(s, ops);
      && SnapshotProtocol.Interleaving(v, poll) && |v.published| <= |asked|
      && var u := SnapshotProtocol.After(v, poll);
         && |u.accepted| == |v.accepted| + 1 && u.accepted[..|v.accepted|] == v.accepted
         && u.accepted[|v.accepted|].sequence == |v.published|
         && Shows(u.accepted[|v.accepted|].snapshot, asked[|v.published| - 1])
  {
    hide Possible, Start, Careful, Shows, PresentedOk, SnapshotProtocol.Init, SnapshotProtocol.Interleaving,
      SnapshotProtocol.Faithful, FramesPublished, Writers, Plan, Run, SnapshotProtocol.After, Regions, Asked, TellsShown,
      SnapshotProtocol.Poll, SnapshotProtocol.Pollable, SnapshotProtocol.Inv, SnapshotProtocol.InMemory;
    PresentedFaithful(s, ops);
    AskedAndPresented(s, ops);
    var v, presented := SnapshotProtocol.After(w, steps), Run(s, ops).presented;
    InitPublished(w, steps, traces, Regions(presented));
    InitInv(w);
    SnapshotProtocol.InvAfter(w, steps);
    LastIsPollable(v, presented);
    SnapshotProtocol.PollOutcome(v, poll);
    var a := SnapshotProtocol.InMemory(v);
    MemoryFaithful(v);
    AcceptedShows(a, v.published, presented, Asked(s, ops));
  }

  lemma {:induction false} InitInv(w: SnapshotProtocol.World)
    requires SnapshotProtocol.Init(w)
    ensures SnapshotProtocol.Inv(w)
  {
  }

  // The last frame published is in memory, and passes the reader's checks.
  lemma {:induction false} LastIsPollable(v: SnapshotProtocol.World, presented: seq<Presented>)
    requires SnapshotProtocol.Inv(v) && !v.writing && v.lastSequence < |v.published|
    requires v.published <= Regions(presented)
    requires forall k :: 0 <= k < |presented| ==> PresentedOk(presented[k])
    ensures SnapshotProtocol.Pollable(v) && |v.mem| == IPC_SIZE
  {
    hide FrameFaithful, ReadHeader, HeaderOk, Word;
    var n := |v.published| - 1;
    assert v.published[n] == Regions(presented)[n];
    assert PresentedOk(presented[n]);
    FaithfulHeader(presented[n].region, presented[n].cmds, presented[n].records);
  }

  lemma {:induction false} FaithfulHeader(mem: seq<byte>, cmds: seq<Command>, records: seq<Record>)
    requires AllSized(cmds) && FrameFaithful(mem, cmds, records)
    ensures |mem| >= HEADER_BYTES && HeaderOk(ReadHeader(mem))
  {
    hide ReadHeader, CommandFaithful;
  }

  lemma {:induction false} MemoryFaithful(v: SnapshotProtocol.World)
    requires SnapshotProtocol.Inv(v) && !v.writing && v.published != [] && SnapshotProtocol.Pollable(v)
    ensures SnapshotProtocol.Faithful(v.published, SnapshotProtocol.InMemory(v))
    ensures SnapshotProtocol.InMemory(v).sequence == |v.published|
  {
    hide ReadHeader, Word, SnapshotProtocol.ReaderInv, SnapshotProtocol.AcceptedInv;
    MemoryHeader(v);
    assert v.mem == v.published[|v.published| - 1];
    var a := SnapshotProtocol.InMemory(v);
    assert a.snapshot[..HEADER_BYTES] == v.mem[..HEADER_BYTES];
  }

  lemma {:induction false} MemoryHeader(v: SnapshotProtocol.World)
    requires SnapshotProtocol.Pollable(v)
    ensures var h, a := ReadHeader(v.mem), SnapshotProtocol.InMemory(v);
      && ReadHeader(a.header) == h && HEADER_BYTES <= |a.snapshot| == h.bulkOffset + h.bulkUsed <= IPC_SIZE
      && ReadHeader(a.snapshot) == h && h.sequence == SnapshotProtocol.Load(v.mem)
  {
    SnapshotProtocol.HeaderOfPrefix(v.mem);
    PrefixHeader(v.mem, |SnapshotProtocol.InMemory(v).snapshot|);
    hide Word;
  }

  lemma {:induction false} InitPublished(w: SnapshotProtocol.World, steps: seq<SnapshotProtocol.Step>,
                                         traces: seq<seq<Stored>>, regions: seq<seq<byte>>)
    requires SnapshotProtocol.Init(w) && SnapshotProtocol.Interleaving(w, steps)
    requires FramesPublished(w.mem, 0, traces, regions) && Writers(steps) <= Plan(traces)
    ensures SnapshotProtocol.After(w, steps).published <= regions
  {
    hide SnapshotProtocol.Interleaving, SnapshotProtocol.After, FramesPublished, Writers, Plan;
    PublishedInOrder(w, steps, traces, regions);
    assert w.published + regions == regions;
  }

  lemma {:induction false} AcceptedShows(a: SnapshotProtocol.Accepted, published: seq<seq<byte>>,
                                         presented: seq<Presented>,
                                         asked: seq<Shown>)
    requires SnapshotProtocol.Faithful(published, a) && published <= Regions(presented) && |asked| == |presented|
    requires forall k :: 0 <= k < |presented| ==> PresentedOk(presented[k])
    requires forall k :: 0 <= k < |asked| ==> TellsShown(asked[k], presented[k])
    ensures 1 <= a.sequence <= |presented| && Shows(a.snapshot, asked[a.sequence - 1])
  {
    hide Shows, PresentedOk, SnapshotProtocol.Faithful, TellsShown;
    FaithfulNumber(published, a);
    assert published[a.sequence - 1] == Regions(presented)[a.sequence - 1];
    SnapshotShows(a, published, presented[a.sequence - 1], asked[a.sequence - 1]);
  }

  lemma {:induction false} PresentedFaithful(s: System, ops: seq<Op>)
    requires Start(s) && Possible(s, ops) && Careful(s, ops)
    ensures forall k :: 0 <= k < |Run(s, ops).presented| ==> PresentedOk(Run(s, ops).presented[k])
  {
    StartInv(s);
    RunKeepsInvExactly(s, ops);
    hide Start, Run, Possible, PresentedOk, Sound, Careful, InvThroughout;
  }

  lemma {:induction false} FaithfulNumber(published: seq<seq<byte>>, a: SnapshotProtocol.Accepted)
    requires SnapshotProtocol.Faithful(published, a)
    ensures 1 <= a.sequence <= |published|
  {
  }
}
