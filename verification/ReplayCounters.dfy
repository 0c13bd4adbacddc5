/**
  What the backend counts and remembers of a frame's packets, against the list of the packets it
  took since the frame was begun.
 */
module ReplayCounters {
  import opened Words
  import opened Packets
  import opened Replay
  import opened ReplayProperties

  // A packet that passed the sequence check, and whether it was then acted on.
  datatype Heard = Heard(packet: seq<byte>, ok: bool)

  // Where a clear packet has its arguments.
  const CLEAR_FLAGS := 16
  const CLEAR_COLOR := 20
  const CLEAR_Z := 24
  const CLEAR_STENCIL := 28

  ghost predicate IsHeard(h: Heard, kind: u16) {
    h.ok && |h.packet| >= HEADER_SIZE && Kind(h.packet) == kind
  }

  ghost function Count(log: seq<Heard>, kind: u16): nat {
    if log == [] then 0 else Count(log[..|log| - 1], kind) + if IsHeard(log[|log| - 1], kind) then 1 else 0
  }

  function ClearOf(p: seq<byte>): Clear
    requires |p| >= CLEAR_SIZE
  {
    Clear(Word(p, CLEAR_COLOR), Word(p, CLEAR_FLAGS), Word(p, CLEAR_Z), Word(p, CLEAR_STENCIL))
  }

  // A word of a draw packet's body.
  function BodyWord(p: seq<byte>, k: nat): u32
    requires |p| >= DRAW_SIZE && k < DRAW_WORDS
  {
    Word(p, HEADER_SIZE + 4 * k)
  }

  function DrawOf(p: seq<byte>): LastDraw
    requires |p| >= DRAW_SIZE
  {
    LastDraw(BodyWord(p, STATE_HASH), BodyWord(p, PRIMITIVE_TYPE), BodyWord(p, PRIMITIVE_COUNT))
  }

  // The last clear and the last draw in the list.
  ghost function LastClear(log: seq<Heard>): Clear {
    if log == [] then NO_CLEAR
    else
      var h := log[|log| - 1];
      if IsHeard(h, PACKET_CLEAR) && |h.packet| >= CLEAR_SIZE then ClearOf(h.packet) else LastClear(log[..|log| - 1])
  }

  ghost function LastDrawn(log: seq<Heard>): LastDraw {
    if log == [] then NO_DRAW
    else
      var h := log[|log| - 1];
      if IsHeard(h, PACKET_DRAW) && |h.packet| >= DRAW_SIZE then DrawOf(h.packet) else LastDrawn(log[..|log| - 1])
  }

  // ---------------------------------------------------------------- the list

  ghost function HearBegin(s: State, log: seq<Heard>, frameId: u32): seq<Heard> {
    if frameId == s.lastFrame then log else []
  }

  ghost function Hear(s: State, log: seq<Heard>, p: seq<byte>): seq<Heard>
    requires |p| >= HEADER_SIZE
  {
    if !Admitted(s, p) then log
    else if Step(s, p).ok && Kind(p) == PACKET_BEGIN_FRAME then HearBegin(s, log + [Heard(p, true)], Word(p, 8))
    else log + [Heard(p, Step(s, p).ok)]
  }

  ghost function HearFrom(s: State, log: seq<Heard>, b: seq<byte>, at: nat): seq<Heard>
    requires at <= |b|
    decreases |b| - at
  {
    if !FramedAt(b, at) then log
    else
      var p := PacketAt(b, at);
      if Step(s, p).ok then HearFrom(Step(s, p).state, Hear(s, log, p), b, at + |p|) else Hear(s, log, p)
  }

  ghost function HearCall(s: State, log: seq<Heard>, c: Call): seq<Heard> {
    match c
    case SubmitCall(b) => if s.ready then HearFrom(s, log, b, 0) else log
    case BeginFrameCall(id) => HearBegin(s, log, id)
    case PresentCall(_) => log
  }

  ghost function HearAll(s: State, log: seq<Heard>, calls: seq<Call>): seq<Heard>
    decreases |calls|
  {
    if calls == [] then log else HearAll(ReplayProperties.Apply(s, calls[0]), HearCall(s, log, calls[0]), calls[1..])
  }

  // ---------------------------------------------------------------- the counters

  ghost predicate Counts(s: State, log: seq<Heard>) {
    && s.packetCount == |log| % TWO_32
    && s.drawCount == Count(log, PACKET_DRAW) % TWO_32 && s.clearCount == Count(log, PACKET_CLEAR) % TWO_32
    && s.clear == LastClear(log) && (s.frame.haveClear <==> Count(log, PACKET_CLEAR) > 0)
    && s.lastDraw == LastDrawn(log)
  }

  lemma {:induction false} NothingHeard(s: State)
    requires s.packetCount == 0 && s.drawCount == 0 && s.clearCount == 0 && s.clear == NO_CLEAR && s.lastDraw == NO_DRAW
    requires !s.frame.haveClear
    ensures Counts(s, [])
  {
  }

  lemma {:induction false} MoreHeard(log: seq<Heard>, h: Heard)
    ensures forall kind: u16 :: Count(log + [h], kind) == Count(log, kind) + if IsHeard(h, kind) then 1 else 0
    ensures LastClear(log + [h]) ==
      if IsHeard(h, PACKET_CLEAR) && |h.packet| >= CLEAR_SIZE then ClearOf(h.packet) else LastClear(log)
    ensures LastDrawn(log + [h]) ==
      if IsHeard(h, PACKET_DRAW) && |h.packet| >= DRAW_SIZE then DrawOf(h.packet) else LastDrawn(log)
  {
    var more := log + [h];
    assert more[|more| - 1] == h && more[..|more| - 1] == log;
    hide Word, Kind;
  }

  lemma {:induction false} BeginCounts(s: State, log: seq<Heard>, frameId: u32)
    requires Counts(s, log)
    ensures Counts(BeginFrame(s, frameId), HearBegin(s, log, frameId))
  {
    hide LastClear, LastDrawn;
    if frameId != s.lastFrame { NothingHeard(BeginFrame(s, frameId)); }
  }

  // A packet that is counted and refused.
  lemma {:induction false} RefusedCounts(s: State, log: seq<Heard>, p: seq<byte>)
    requires |p| >= HEADER_SIZE && Counts(s, log)
    ensures Counts(Counted(s, p), log + [Heard(p, false)])
  {
    hide LastClear, LastDrawn, Count, Kind, Word;
    MoreHeard(log, Heard(p, false));
    AddOne(|log|);
  }

  lemma {:induction false} AcceptedCounts(s: State, log: seq<Heard>, p: seq<byte>)
    requires |p| >= HEADER_SIZE && Counts(s, log) && Acceptable(s.upload, p) && Kind(p) != PACKET_BEGIN_FRAME
    ensures Counts(Act(Counted(s, p), p), log + [Heard(p, true)])
  {
    hide LastClear, LastDrawn, Count, Word, DrawAcceptable, StretchBody;
    MoreHeard(log, Heard(p, true));
    AddOne(|log|);
    AddOne(Count(log, PACKET_DRAW));
    AddOne(Count(log, PACKET_CLEAR));
    if Kind(p) == PACKET_DRAW {
      assert DrawBody(p)[STATE_HASH] == BodyWord(p, STATE_HASH);
      assert DrawBody(p)[PRIMITIVE_TYPE] == BodyWord(p, PRIMITIVE_TYPE);
      assert DrawBody(p)[PRIMITIVE_COUNT] == BodyWord(p, PRIMITIVE_COUNT);
    }
    hide Kind;
  }

  lemma {:induction false} BeganCounts(s: State, log: seq<Heard>, p: seq<byte>)
    requires |p| >= BEGIN_FRAME_SIZE && Counts(s, log) && Kind(p) == PACKET_BEGIN_FRAME
    ensures Counts(BeginFrame(Counted(s, p), Word(p, 8)), HearBegin(s, log + [Heard(p, true)], Word(p, 8)))
  {
    hide LastClear, LastDrawn, Count, Word;
    MoreHeard(log, Heard(p, true));
    AddOne(|log|);
    BeginCounts(Counted(s, p), log + [Heard(p, true)], Word(p, 8));
  }

  lemma {:induction false} PacketCounts(s: State, log: seq<Heard>, p: seq<byte>)
    requires |p| >= HEADER_SIZE && Counts(s, log)
    ensures Counts(Step(s, p).state, Hear(s, log, p))
  {
    hide Counts, Admitted, Act, HearBegin, Counted, DrawAcceptable, Word;
    if Admitted(s, p) {
      CountedUpload(s, p);
      if !Acceptable(s.upload, p) { RefusedCounts(s, log, p); }
      else if Kind(p) != PACKET_BEGIN_FRAME { AcceptedCounts(s, log, p); }
      else { BeganCounts(s, log, p); BeganActs(Counted(s, p), p); }
    }
  }

  lemma {:induction false} CountedUpload(s: State, p: seq<byte>)
    requires |p| >= HEADER_SIZE
    ensures Counted(s, p).upload == s.upload
  {
  }

  lemma {:induction false} BeganActs(s: State, p: seq<byte>)
    requires |p| >= HEADER_SIZE && Acceptable(s.upload, p) && Kind(p) == PACKET_BEGIN_FRAME
    ensures |p| >= BEGIN_FRAME_SIZE && Act(s, p) == BeginFrame(s, Word(p, 8))
  {
  }

  lemma {:induction false} BufferCounts(s: State, log: seq<Heard>, b: seq<byte>, at: nat)
    requires at <= |b| && Counts(s, log)
    ensures Counts(SubmitFrom(s, b, at).state, HearFrom(s, log, b, at))
    decreases |b| - at
  {
    hide Counts, Step, Hear;
    if FramedAt(b, at) {
      var p := PacketAt(b, at);
      PacketCounts(s, log, p);
      if Step(s, p).ok { BufferCounts(Step(s, p).state, Hear(s, log, p), b, at + |p|); }
    }
  }

  lemma {:induction false} CallCounts(s: State, log: seq<Heard>, c: Call)
    requires Counts(s, log)
    ensures Counts(ReplayProperties.Apply(s, c), HearCall(s, log, c))
  {
    match c
    case SubmitCall(b) => hide Counts; BufferCounts(s, log, b, 0);
    case BeginFrameCall(id) => BeginCounts(s, log, id);
    case PresentCall(id) => hide LastClear, LastDrawn, Count;
  }

  lemma {:induction false} RunCounts(s: State, log: seq<Heard>, calls: seq<Call>)
    requires Counts(s, log)
    ensures Counts(Run(s, calls), HearAll(s, log, calls))
    decreases |calls|
  {
    hide Counts, ReplayProperties.Apply, HearCall;
    if calls != [] {
      CallCounts(s, log, calls[0]);
      RunCounts(ReplayProperties.Apply(s, calls[0]), HearCall(s, log, calls[0]), calls[1..]);
    }
  }

  /** In every run from initialisation: the packet, draw and clear counts are the numbers of the
      packets taken, of the draws and of the clears acted on since the frame was begun, and the
      clear and the last draw remembered are those of the last such packets, field by field. */
  lemma {:induction false} CountersAreRight(upload: ArenaDesc, calls: seq<Call>)
    ensures var s, log := Run(Initial(upload), calls), HearAll(Initial(upload), [], calls);
      && s.packetCount == |log| % TWO_32
      && s.drawCount == Count(log, PACKET_DRAW) % TWO_32 && s.clearCount == Count(log, PACKET_CLEAR) % TWO_32
      && s.clear == LastClear(log) && (s.frame.haveClear <==> Count(log, PACKET_CLEAR) > 0)
      && s.lastDraw == LastDrawn(log)
  {
    NothingHeard(Initial(upload));
    RunCounts(Initial(upload), [], calls);
    hide Run, HearAll, LastClear, LastDrawn, Count;
  }
}
