/**
  What the packet loop guarantees: it is a fold over the packets of the buffer, batches can
  be split at packet boundaries, and the frame it builds is the log of what was accepted.
 */
module ReplayProperties {
  import opened Words
  import opened Packets
  import opened Replay

  // ---------------------------------------------------------------- a buffer is its packets

  function Join(ps: seq<seq<byte>>): seq<byte> {
    if ps == [] then [] else ps[0] + Join(ps[1..])
  }

  predicate AllFramed(ps: seq<seq<byte>>) {
    forall k :: 0 <= k < |ps| ==> IsFramed(ps[k])
  }

  lemma {:induction false} PacketStands(b: seq<byte>, at: nat, p: seq<byte>)
    requires IsFramed(p) && at + |p| <= |b| && b[at..at + |p|] == p
    ensures FramedAt(b, at) && PacketAt(b, at) == p
  {
    assert b[at + 2] == p[2] && b[at + 3] == p[3];
  }

  /** Submitting a buffer made of framed packets folds the packet step over them, whether or
      not one of them is refused. */
  lemma {:induction false} SubmitFolds(s: State, b: seq<byte>, at: nat, ps: seq<seq<byte>>)
    requires AllFramed(ps) && at <= |b| && b[at..] == Join(ps)
    ensures SubmitFrom(s, b, at) == FoldPackets(s, ps)
    decreases |ps|
  {
    hide Step, IsFramed;
    if ps == [] {
      assert at == |b|;
    } else {
      var p := ps[0];
      FramedLength(p);
      assert b[at..] == p + Join(ps[1..]);
      assert b[at..at + |p|] == b[at..][..|p|] == p;
      PacketStands(b, at, p);
      var r := Step(s, p);
      if r.ok {
        assert b[at + |p|..] == b[at..][|p|..] == Join(ps[1..]);
        SubmitFolds(r.state, b, at + |p|, ps[1..]);
      }
    }
  }

  lemma {:induction false} FramedLength(p: seq<byte>)
    requires IsFramed(p)
    ensures |p| >= HEADER_SIZE
  {
  }

  // The packets accepted from an offset on.
  function AcceptedFrom(s: State, b: seq<byte>, at: nat): (ps: seq<seq<byte>>)
    requires at <= |b|
    ensures AllFramed(ps)
    decreases |b| - at
  {
    if !FramedAt(b, at) then []
    else
      var p := PacketAt(b, at);
      var r := Step(s, p);
      if r.ok then [p] + AcceptedFrom(r.state, b, at + |p|) else []
  }

  // What the first packet that is not accepted, if any, leaves of the state.
  function AfterRefusal(s: State, rest: seq<byte>): State {
    if FramedAt(rest, 0) && Admitted(s, PacketAt(rest, 0)) then Counted(s, PacketAt(rest, 0)) else s
  }

  // The packets ps are the accepted prefix of the buffer from an offset on.
  ghost predicate Explains(s: State, b: seq<byte>, at: nat, ps: seq<seq<byte>>)
    requires at <= |b|
  {
    && AllFramed(ps)
    && at + |Join(ps)| <= |b| && b[at..at + |Join(ps)|] == Join(ps)
    && FoldPackets(s, ps).ok
    && var rest, t, out := b[at + |Join(ps)|..], FoldPackets(s, ps).state, SubmitFrom(s, b, at);
       (out.ok <==> rest == []) && out.state == if out.ok then t else AfterRefusal(t, rest)
  }

  lemma {:induction false} ExplainsNext(s: State, b: seq<byte>, at: nat, p: seq<byte>, qs: seq<seq<byte>>)
    requires at <= |b| && FramedAt(b, at) && p == PacketAt(b, at) && Step(s, p).ok
    requires Explains(Step(s, p).state, b, at + |p|, qs)
    ensures Explains(s, b, at, [p] + qs)
  {
    hide Step, AfterRefusal, IsFramed;
    var ps := [p] + qs;
    assert ps[0] == p && ps[1..] == qs;
    assert b[at..at + |Join(ps)|] == p + b[at + |p|..at + |p| + |Join(qs)|];
  }

  lemma {:induction false} AcceptedPrefix(s: State, b: seq<byte>, at: nat)
    requires at <= |b|
    ensures Explains(s, b, at, AcceptedFrom(s, b, at))
    decreases |b| - at
  {
    hide Step, Explains;
    if FramedAt(b, at) && Step(s, PacketAt(b, at)).ok {
      var p := PacketAt(b, at);
      var t := Step(s, p).state;
      AcceptedPrefix(t, b, at + |p|);
      ExplainsNext(s, b, at, p, AcceptedFrom(t, b, at + |p|));
    } else {
      ExplainsNothing(s, b, at);
    }
  }

  lemma {:induction false} ExplainsNothing(s: State, b: seq<byte>, at: nat)
    requires at <= |b| && !(FramedAt(b, at) && Step(s, PacketAt(b, at)).ok)
    ensures Explains(s, b, at, AcceptedFrom(s, b, at))
  {
    hide Step;
    assert b[at..at] == [];
    if FramedAt(b, at) {
      RefusedHere(s, b, at);
    } else {
      NotFramedHere(b, at);
    }
  }

  lemma {:induction false} RefusedHere(s: State, b: seq<byte>, at: nat)
    requires at <= |b| && FramedAt(b, at) && !Step(s, PacketAt(b, at)).ok
    ensures Step(s, PacketAt(b, at)).state == AfterRefusal(s, b[at..])
  {
    hide Admitted, Acceptable, Act, Counted;
    var rest := b[at..];
    assert rest[2] == b[at + 2] && rest[3] == b[at + 3];
    assert PacketAt(rest, 0) == PacketAt(b, at);
  }

  lemma {:induction false} NotFramedHere(b: seq<byte>, at: nat)
    requires at <= |b| && !FramedAt(b, at)
    ensures !FramedAt(b[at..], 0)
  {
    if at + HEADER_SIZE <= |b| {
      assert b[at..][2] == b[at + 2] && b[at..][3] == b[at + 3];
    }
  }

  /** The packet loop returns success exactly when the buffer partitions into packets that are
      all accepted. Its final state folds the packet step over the accepted prefix; when it
      stops early, the offending packet has left its sequence number and its count behind if it
      passed the sequence check, and nothing else. */
  lemma {:induction false} SubmitPartitions(s: State, b: seq<byte>)
    requires s.ready
    ensures Submit(s, b).ok <==> exists ps :: AllFramed(ps) && Join(ps) == b && FoldPackets(s, ps).ok
    ensures forall ps :: AllFramed(ps) && Join(ps) == b ==> Submit(s, b) == FoldPackets(s, ps)
    ensures !Submit(s, b).ok ==> exists ps, rest ::
      AllFramed(ps) && Join(ps) + rest == b && FoldPackets(s, ps).ok
      && Submit(s, b).state == AfterRefusal(FoldPackets(s, ps).state, rest)
  {
    assert b[0..] == b;
    forall ps | AllFramed(ps) && Join(ps) == b ensures Submit(s, b) == FoldPackets(s, ps) {
      SubmitFolds(s, b, 0, ps);
    }
    AcceptedPrefix(s, b, 0);
    var ps := AcceptedFrom(s, b, 0);
    var rest := b[|Join(ps)|..];
    hide AcceptedFrom, SubmitFrom, FoldPackets, AfterRefusal, AllFramed, Join;
    assert b[0..|Join(ps)|] == b[..|Join(ps)|];
    assert b == Join(ps) + rest;
    if Submit(s, b).ok {
      assert Join(ps) == b;
    }
  }

  lemma {:induction false} FoldJoin(s: State, ps: seq<seq<byte>>, qs: seq<seq<byte>>)
    requires forall k :: 0 <= k < |ps| ==> |ps[k]| >= HEADER_SIZE
    requires forall k :: 0 <= k < |qs| ==> |qs[k]| >= HEADER_SIZE
    ensures var r := FoldPackets(s, ps);
      FoldPackets(s, ps + qs) == if r.ok then FoldPackets(r.state, qs) else r
    decreases |ps|
  {
    hide Step;
    if ps == [] {
      assert ps + qs == qs;
    } else {
      assert (ps + qs)[1..] == ps[1..] + qs;
      if Step(s, ps[0]).ok {
        FoldJoin(Step(s, ps[0]).state, ps[1..], qs);
      }
    }
  }

  lemma {:induction false} JoinAppend(ps: seq<seq<byte>>, qs: seq<seq<byte>>)
    ensures Join(ps + qs) == Join(ps) + Join(qs)
  {
    if ps == [] {
      assert ps + qs == qs;
    } else {
      assert (ps + qs)[1..] == ps[1..] + qs;
      JoinAppend(ps[1..], qs);
    }
  }

  /** Splitting a batch at a packet boundary changes nothing. */
  lemma {:induction false} SplitBatch(s: State, ps: seq<seq<byte>>, qs: seq<seq<byte>>)
    requires s.ready && AllFramed(ps) && AllFramed(qs)
    ensures var first := Submit(s, Join(ps));
      Submit(s, Join(ps) + Join(qs)) == if first.ok then Submit(first.state, Join(qs)) else first
  {
    assert AllFramed(ps + qs);
    assert Join(ps)[0..] == Join(ps) && Join(qs)[0..] == Join(qs) && (Join(ps) + Join(qs))[0..] == Join(ps) + Join(qs);
    JoinAppend(ps, qs);
    FoldJoin(s, ps, qs);
    SubmitFolds(s, Join(ps), 0, ps);
    SubmitFolds(s, Join(ps) + Join(qs), 0, ps + qs);
    ReadyStays(s, ps);
    SubmitFolds(FoldPackets(s, ps).state, Join(qs), 0, qs);
  }

  lemma {:induction false} ReadyStays(s: State, ps: seq<seq<byte>>)
    requires forall k :: 0 <= k < |ps| ==> |ps[k]| >= HEADER_SIZE
    ensures FoldPackets(s, ps).state.ready == s.ready && FoldPackets(s, ps).state.upload == s.upload
    decreases |ps|
  {
    hide Acceptable, DrawBody, StretchBody, Word;
    if ps != [] && Step(s, ps[0]).ok {
      ReadyStays(Step(s, ps[0]).state, ps[1..]);
    }
  }

  // ---------------------------------------------------------------- whole runs

  datatype Call = SubmitCall(b: seq<byte>) | BeginFrameCall(frameId: u32) | PresentCall(frameId: u32)

  // What present does to the frame state besides publishing it.
  function PresentState(s: State, frameId: u32): State {
    if s.frame.havePresent && s.frame.presentFrame != frameId then s
    else s.(frameOpen := false, lastFrame := frameId, frame := s.frame.(havePresent := false))
  }

  function Apply(s: State, c: Call): State {
    match c
    case SubmitCall(b) => Submit(s, b).state
    case BeginFrameCall(id) => BeginFrame(s, id)
    case PresentCall(id) => PresentState(s, id)
  }

  function Run(s: State, calls: seq<Call>): State
    decreases |calls|
  {
    if calls == [] then s else Run(Apply(s, calls[0]), calls[1..])
  }

  // The commands accepted since the frame was last reset.
  ghost function LogBegin(s: State, log: seq<Command>, frameId: u32): seq<Command> {
    if frameId == s.lastFrame then log else []
  }

  ghost function LogPacket(s: State, log: seq<Command>, p: seq<byte>): seq<Command>
    requires |p| >= HEADER_SIZE
  {
    if !Step(s, p).ok then log
    else if Kind(p) == PACKET_DRAW then log + [Draw(DrawBody(p))]
    else if Kind(p) == PACKET_STRETCH then log + [Stretch(StretchBody(p))]
    else if Kind(p) == PACKET_BEGIN_FRAME then LogBegin(s, log, Word(p, 8))
    else log
  }

  ghost function LogFrom(s: State, log: seq<Command>, b: seq<byte>, at: nat): seq<Command>
    requires at <= |b|
    decreases |b| - at
  {
    if !FramedAt(b, at) then log
    else
      var p := PacketAt(b, at);
      var next := LogPacket(s, log, p);
      if Step(s, p).ok then LogFrom(Step(s, p).state, next, b, at + |p|) else next
  }

  ghost function LogCall(s: State, log: seq<Command>, c: Call): seq<Command> {
    match c
    case SubmitCall(b) => if s.ready then LogFrom(s, log, b, 0) else log
    case BeginFrameCall(id) => LogBegin(s, log, id)
    case PresentCall(_) => log
  }

  ghost function Log(s: State, log: seq<Command>, calls: seq<Call>): seq<Command>
    decreases |calls|
  {
    if calls == [] then log else Log(Apply(s, calls[0]), LogCall(s, log, calls[0]), calls[1..])
  }

  predicate Sound(upload: ArenaDesc, c: Command) {
    match c
    case Draw(body) => |body| == DRAW_WORDS && DrawAcceptable(upload, body)
    case Stretch(rects) => |rects| == STRETCH_WORDS
  }

  // The frame holds the first 8192 commands of the log and counts the others.
  ghost predicate FrameIsLog(upload: ArenaDesc, f: Frame, log: seq<Command>) {
    && f.draws == (if |log| <= MAX_DRAWS then log else log[..MAX_DRAWS])
    && f.total == |log| % TWO_32
    && f.dropped == (|log| - |f.draws|) % TWO_32
    && forall k :: 0 <= k < |log| ==> Sound(upload, log[k])
  }

  lemma {:induction false} RecordIsLog(upload: ArenaDesc, f: Frame, log: seq<Command>, c: Command)
    requires FrameIsLog(upload, f, log) && Sound(upload, c)
    ensures FrameIsLog(upload, Record(f, c), log + [c])
  {
    hide Sound;
    assert Sound(upload, c);
    AddOne(|log|);
    if |log| >= MAX_DRAWS {
      AddOne(|log| - MAX_DRAWS);
      assert (log + [c])[..MAX_DRAWS] == log[..MAX_DRAWS];
    } else {
      assert f.dropped == 0;
    }
  }

  lemma {:induction false} AddOne(n: nat)
    ensures Add32(n % TWO_32, 1) == (n + 1) % TWO_32
  {
    var q, r := n / TWO_32, n % TWO_32;
    if r + 1 < TWO_32 {
      DivMod(n + 1, TWO_32, q, r + 1);
    } else {
      DivMod(n + 1, TWO_32, q + 1, 0);
    }
  }

  lemma {:induction false} BeginIsLog(s: State, log: seq<Command>, frameId: u32)
    requires FrameIsLog(s.upload, s.frame, log)
    ensures FrameIsLog(s.upload, BeginFrame(s, frameId).frame, LogBegin(s, log, frameId))
  {
  }

  lemma {:induction false} PacketIsLog(s: State, log: seq<Command>, p: seq<byte>)
    requires |p| >= HEADER_SIZE && FrameIsLog(s.upload, s.frame, log)
    ensures FrameIsLog(s.upload, Step(s, p).state.frame, LogPacket(s, log, p))
    ensures Step(s, p).state.upload == s.upload && Step(s, p).state.ready == s.ready
  {
    hide FrameIsLog, Record, BeginFrame, DrawAcceptable, Admitted, Word, WordsAt;
    if Step(s, p).ok {
      if Kind(p) == PACKET_DRAW {
        RecordIsLog(s.upload, s.frame, log, Draw(DrawBody(p)));
      } else if Kind(p) == PACKET_STRETCH {
        RecordIsLog(s.upload, s.frame, log, Stretch(StretchBody(p)));
      } else if Kind(p) == PACKET_BEGIN_FRAME {
        BeginIsLog(Counted(s, p), log, Word(p, 8));
        BeginUpload(Counted(s, p), Word(p, 8));
      } else {
        SameLog(s.upload, s.frame, Step(s, p).state.frame, log);
      }
    }
  }

  lemma {:induction false} BeginUpload(s: State, frameId: u32)
    ensures BeginFrame(s, frameId).upload == s.upload && BeginFrame(s, frameId).ready == s.ready
  {
  }

  lemma {:induction false} SameLog(upload: ArenaDesc, f: Frame, g: Frame, log: seq<Command>)
    requires FrameIsLog(upload, f, log) && g.draws == f.draws && g.total == f.total && g.dropped == f.dropped
    ensures FrameIsLog(upload, g, log)
  {
  }

  lemma {:induction false} BufferIsLog(s: State, log: seq<Command>, b: seq<byte>, at: nat)
    requires at <= |b| && FrameIsLog(s.upload, s.frame, log)
    ensures var t := SubmitFrom(s, b, at).state;
      FrameIsLog(s.upload, t.frame, LogFrom(s, log, b, at)) && t.upload == s.upload && t.ready == s.ready
    decreases |b| - at
  {
    hide FrameIsLog, Step, LogPacket;
    if FramedAt(b, at) {
      var p := PacketAt(b, at);
      PacketIsLog(s, log, p);
      if Step(s, p).ok {
        BufferIsLog(Step(s, p).state, LogPacket(s, log, p), b, at + |p|);
      }
    }
  }

  lemma {:induction false} CallIsLog(s: State, log: seq<Command>, c: Call)
    requires FrameIsLog(s.upload, s.frame, log)
    ensures FrameIsLog(s.upload, Apply(s, c).frame, LogCall(s, log, c))
    ensures Apply(s, c).upload == s.upload
  {
    hide FrameIsLog;
    match c
    case SubmitCall(b) => BufferIsLog(s, log, b, 0);
    case BeginFrameCall(id) => BeginIsLog(s, log, id);
    case PresentCall(id) => SameLog(s.upload, s.frame, PresentState(s, id).frame, log);
  }

  lemma {:induction false} RunIsLog(s: State, log: seq<Command>, calls: seq<Call>)
    requires FrameIsLog(s.upload, s.frame, log)
    ensures FrameIsLog(s.upload, Run(s, calls).frame, Log(s, log, calls))
    decreases |calls|
  {
    hide FrameIsLog, Apply, LogCall;
    if calls != [] {
      CallIsLog(s, log, calls[0]);
      RunIsLog(Apply(s, calls[0]), LogCall(s, log, calls[0]), calls[1..]);
    }
  }

  /** In every run from initialisation: the counters add up to the accepted draws and
      stretch-rects since the last reset, commands are dropped only when the store is full, the
      store is the first part of the log in order, and every stored draw has its state ids,
      constant refs in range, and other refs empty or in range. */
  lemma {:induction false} ReplayInvariant(upload: ArenaDesc, calls: seq<Call>)
    ensures var f, log := Run(Initial(upload), calls).frame, Log(Initial(upload), [], calls);
      && f.total == |log| % TWO_32
      && f.total == Add32(|f.draws| % TWO_32, f.dropped)
      && (f.dropped > 0 ==> |f.draws| == MAX_DRAWS)
      && |f.draws| <= MAX_DRAWS && f.draws <= log
      && forall k :: 0 <= k < |f.draws| ==> Sound(upload, f.draws[k])
  {
    hide Run, Log, Sound, Add32;
    RunIsLog(Initial(upload), [], calls);
    var f, log := Run(Initial(upload), calls).frame, Log(Initial(upload), [], calls);
    StoredAndDropped(|log|, |f.draws|);
  }

  lemma {:induction false} StoredAndDropped(total: nat, stored: nat)
    requires stored <= total && stored <= MAX_DRAWS
    ensures total % TWO_32 == Add32(stored % TWO_32, (total - stored) % TWO_32)
    ensures stored == total ==> (total - stored) % TWO_32 == 0
  {
    var extra := total - stored;
    var q := extra / TWO_32;
    var sum := stored + extra % TWO_32;
    assert total == TWO_32 * q + sum;
    DivMod(total, TWO_32, q + sum / TWO_32, sum % TWO_32);
  }
}
