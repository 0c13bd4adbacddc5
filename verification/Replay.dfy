/**
  The backend's frame state and the packet loop that drives it: what one packet does, and
  what a buffer of packets does.
 */
module Replay {
  import opened Words
  import opened Packets

  const MAX_DRAWS := 8192

  datatype Command = Draw(body: Body) | Stretch(rects: seq<u32>)

  const NO_COMMAND := Draw([])

  datatype Clear = Clear(color: u32, flags: u32, z: u32, stencil: u32)
  datatype LastDraw = LastDraw(stateHash: u32, primitiveType: u32, primitiveCount: u32)

  // 1.0 as a float.
  const FLOAT_ONE: u32 := 0x3F80_0000

  const NO_CLEAR := Clear(0, 0, FLOAT_ONE, 0)
  const NO_DRAW := LastDraw(0, 0, 0)

  // The commands of the frame being assembled.
  datatype Frame = Frame(
    frameId: u32, total: u32, dropped: u32, haveClear: bool, havePresent: bool,
    presentFrame: u32, presentTarget: u32, draws: seq<Command>)

  function EmptyFrame(frameId: u32): Frame {
    Frame(frameId, 0, 0, false, false, 0, 0, [])
  }

  datatype State = State(
    ready: bool, upload: ArenaDesc, frameOpen: bool, lastFrame: u32, lastSequence: u32,
    packetCount: u32, drawCount: u32, clearCount: u32, clear: Clear, lastDraw: LastDraw, frame: Frame)

  // What bridge initialisation leaves.
  function Initial(upload: ArenaDesc): State {
    State(true, upload, false, 0, 0, 0, 0, 0, NO_CLEAR, NO_DRAW, EmptyFrame(0))
  }

  // ---------------------------------------------------------------- one packet

  function BeginFrame(s: State, frameId: u32): State {
    if frameId == s.lastFrame then s.(frameOpen := true)
    else s.(frameOpen := true, lastFrame := frameId, packetCount := 0, drawCount := 0, clearCount := 0,
            clear := NO_CLEAR, lastDraw := NO_DRAW, frame := EmptyFrame(frameId))
  }

  function Record(f: Frame, c: Command): Frame {
    if |f.draws| >= MAX_DRAWS then f.(total := Add32(f.total, 1), dropped := Add32(f.dropped, 1))
    else f.(total := Add32(f.total, 1), draws := f.draws + [c])
  }

  // Whether a packet passes the checks made before its sequence number is taken.
  predicate Admitted(s: State, p: seq<byte>)
    requires |p| >= HEADER_SIZE
  {
    && 1 <= Kind(p) <= PACKET_STRETCH
    && Sequence(p) != 0 && (s.lastSequence != 0 ==> Sequence(p) > s.lastSequence)
  }

  // The sequence number and the packet count are taken before the type is looked at.
  function Counted(s: State, p: seq<byte>): State
    requires |p| >= HEADER_SIZE
  {
    s.(lastSequence := Sequence(p), packetCount := Add32(s.packetCount, 1))
  }

  function DrawBody(p: seq<byte>): (body: Body)
    requires |p| >= DRAW_SIZE
    ensures |body| == DRAW_WORDS
  {
    WordsAt(p, HEADER_SIZE, DRAW_WORDS)
  }

  function StretchBody(p: seq<byte>): (rects: seq<u32>)
    requires |p| >= STRETCH_SIZE
    ensures |rects| == STRETCH_WORDS
  {
    WordsAt(p, HEADER_SIZE + 4, STRETCH_WORDS)
  }

  // Whether an admitted packet is acted on.
  predicate Acceptable(upload: ArenaDesc, p: seq<byte>)
    requires |p| >= HEADER_SIZE
  {
    if Kind(p) == PACKET_DRAW then |p| >= DRAW_SIZE && DrawAcceptable(upload, DrawBody(p))
    else if Kind(p) == PACKET_CLEAR then |p| >= CLEAR_SIZE
    else if Kind(p) == PACKET_BEGIN_FRAME then |p| >= BEGIN_FRAME_SIZE
    else if Kind(p) == PACKET_PRESENT then |p| >= PRESENT_SIZE
    else if Kind(p) == PACKET_STRETCH then |p| >= STRETCH_SIZE
    else true
  }

  function RecordDraw(s: State, body: Body): State
    requires |body| == DRAW_WORDS
  {
    s.(lastDraw := LastDraw(body[STATE_HASH], body[PRIMITIVE_TYPE], body[PRIMITIVE_COUNT]),
       frame := Record(s.frame, Draw(body)), drawCount := Add32(s.drawCount, 1))
  }

  function RecordClear(s: State, p: seq<byte>): State
    requires |p| >= CLEAR_SIZE
  {
    s.(clearCount := Add32(s.clearCount, 1),
       clear := Clear(Word(p, 20), Word(p, 16), Word(p, 24), Word(p, 28)),
       frame := s.frame.(haveClear := true))
  }

  function RecordPresent(s: State, p: seq<byte>): State
    requires |p| >= PRESENT_SIZE
  {
    s.(frame := s.frame.(havePresent := true, presentFrame := Word(p, 8), presentTarget := Word(p, 16)))
  }

  // What an admitted and acceptable packet does after it was counted.
  function Act(s: State, p: seq<byte>): State
    requires |p| >= HEADER_SIZE && Acceptable(s.upload, p)
  {
    if Kind(p) == PACKET_DRAW then RecordDraw(s, DrawBody(p))
    else if Kind(p) == PACKET_CLEAR then RecordClear(s, p)
    else if Kind(p) == PACKET_BEGIN_FRAME then BeginFrame(s, Word(p, 8))
    else if Kind(p) == PACKET_PRESENT then RecordPresent(s, p)
    else if Kind(p) == PACKET_STRETCH then s.(frame := Record(s.frame, Stretch(StretchBody(p))))
    else s
  }

  datatype Outcome = Outcome(ok: bool, state: State)

  function Step(s: State, p: seq<byte>): Outcome
    requires |p| >= HEADER_SIZE
  {
    if !Admitted(s, p) then Outcome(false, s)
    else if !Acceptable(s.upload, p) then Outcome(false, Counted(s, p))
    else Outcome(true, Act(Counted(s, p), p))
  }

  // The pure meaning of a packet list: each packet acts in turn, up to the first refusal.
  function FoldPackets(s: State, ps: seq<seq<byte>>): Outcome
    requires forall k :: 0 <= k < |ps| ==> |ps[k]| >= HEADER_SIZE
    decreases |ps|
  {
    if ps == [] then Outcome(true, s)
    else
      var r := Step(s, ps[0]);
      if r.ok then FoldPackets(r.state, ps[1..]) else r
  }

  // ---------------------------------------------------------------- a buffer

  // The packet at an offset, when the header there frames one inside the buffer.
  predicate FramedAt(b: seq<byte>, at: nat) {
    at + HEADER_SIZE <= |b| && Half(b, at + 2) >= HEADER_SIZE && at + Half(b, at + 2) <= |b|
  }

  function PacketAt(b: seq<byte>, at: nat): (p: seq<byte>)
    requires FramedAt(b, at)
    ensures IsFramed(p)
  {
    b[at..at + Half(b, at + 2)]
  }

  function SubmitFrom(s: State, b: seq<byte>, at: nat): Outcome
    requires at <= |b|
    decreases |b| - at
  {
    if at + HEADER_SIZE > |b| then Outcome(at == |b|, s)
    else if !FramedAt(b, at) then Outcome(false, s)
    else
      var r := Step(s, PacketAt(b, at));
      if r.ok then SubmitFrom(r.state, b, at + |PacketAt(b, at)|) else r
  }

  function Submit(s: State, b: seq<byte>): Outcome {
    if !s.ready then Outcome(false, s) else SubmitFrom(s, b, 0)
  }

  // ---------------------------------------------------------------- the bridge itself

  /** The bridge's state as the backend keeps it; the command store is filled in place. */
  class Bridge {
    var ready: bool
    var upload: ArenaDesc
    var frameOpen: bool
    var lastFrame: u32
    var lastSequence: u32
    var packetCount: u32
    var drawCount: u32
    var clearCount: u32
    var clear: Clear
    var lastDraw: LastDraw
    var frameId: u32
    var total: u32
    var stored: u32
    var dropped: u32
    var haveClear: bool
    var havePresent: bool
    var presentFrame: u32
    var presentTarget: u32
    const draws: array<Command>

    ghost predicate Valid()
      reads this
    {
      draws.Length == MAX_DRAWS && stored <= MAX_DRAWS
    }

    ghost function FrameValue(): Frame
      reads this, draws
      requires Valid()
    {
      Frame(frameId, total, dropped, haveClear, havePresent, presentFrame, presentTarget, draws[..stored])
    }

    ghost function Value(): State
      reads this, draws
      requires Valid()
    {
      State(ready, upload, frameOpen, lastFrame, lastSequence, packetCount, drawCount, clearCount, clear,
            lastDraw, FrameValue())
    }

    /** Bridge initialisation. */
    constructor (desc: ArenaDesc)
      ensures Valid() && Value() == Initial(desc) && fresh(draws)
    {
      ready, upload, frameOpen := true, desc, false;
      lastFrame, lastSequence := 0, 0;
      packetCount, drawCount, clearCount := 0, 0, 0;
      clear, lastDraw := NO_CLEAR, NO_DRAW;
      frameId, total, stored, dropped := 0, 0, 0, 0;
      haveClear, havePresent, presentFrame, presentTarget := false, false, 0, 0;
      draws := new Command[MAX_DRAWS](_ => NO_COMMAND);
    }

    method ResetFrameStats()
      modifies `packetCount, `drawCount, `clearCount, `clear, `lastDraw
      ensures packetCount == drawCount == clearCount == 0 && clear == NO_CLEAR && lastDraw == NO_DRAW
    {
      packetCount, drawCount, clearCount := 0, 0, 0;
      clear, lastDraw := NO_CLEAR, NO_DRAW;
    }

    method ResetReplayState(id: u32)
      requires Valid()
      modifies `frameId, `total, `stored, `dropped, `haveClear, `havePresent, `presentFrame, `presentTarget
      ensures Valid() && FrameValue() == EmptyFrame(id)
    {
      frameId, total, stored, dropped := id, 0, 0, 0;
      haveClear, havePresent, presentFrame, presentTarget := false, false, 0, 0;
    }

    // A frame that is new.
    method NewFrame(id: u32)
      requires Valid() && id != lastFrame && frameOpen
      modifies this
      ensures Valid() && Value() == BeginFrame(old(Value()), id)
    {
      ResetFrameStats();
      ResetReplayState(id);
      lastFrame := id;
    }

    method BeginFrameCall(id: u32)
      requires Valid()
      modifies this
      ensures Valid() && Value() == BeginFrame(old(Value()), id)
    {
      frameOpen := true;
      if id != lastFrame { NewFrame(id); }
    }

    // The common part of the two record functions.
    method Store(c: Command)
      requires Valid()
      modifies this, draws
      ensures Valid() && Value() == old(Value()).(frame := Record(old(FrameValue()), c))
    {
      total := Add32(total, 1);
      if stored >= MAX_DRAWS {
        dropped := Add32(dropped, 1);
        return;
      }
      draws[stored] := c;
      stored := stored + 1;
    }

    method ValidateRef(r: Ref) returns (ok: bool)
      ensures ok == InRange(upload, r)
    {
      if r.size == 0 { return false; }
      if upload.slotCount == 0 || upload.bytesPerSlot == 0 { return false; }
      if r.slot >= upload.slotCount { return false; }
      if r.size > upload.bytesPerSlot || r.offset > upload.bytesPerSlot - r.size { return false; }
      ok := true;
    }

    method ValidateDraw(body: Body) returns (ok: bool)
      requires |body| == DRAW_WORDS
      ensures ok == DrawAcceptable(upload, body)
    {
      hide InRange;
      if body[TARGET_ID] == 0 || body[VERTEX_BUFFER_ID] == 0 || body[INDEX_BUFFER_ID] == 0
         || (body[DECL_ID] == 0 && body[FVF] == 0) {
        return false;
      }
      var vs := ValidateRef(RefAt(body, CONSTANTS_VS));
      if !vs { return false; }
      var ps := ValidateRef(RefAt(body, CONSTANTS_PS));
      if !ps { return false; }
      var refs := OptionalRefs(body);
      hide OptionalRefs;
      for k := 0 to |refs|
        invariant forall j :: 0 <= j < k ==> EmptyOrInRange(upload, refs[j])
      {
        if refs[k].size > 0 {
          var good := ValidateRef(refs[k]);
          if !good {
            assert !EmptyOrInRange(upload, refs[k]);
            return false;
          }
        }
      }
      ok := true;
    }

    method HandleDraw(body: Body) returns (ok: bool)
      requires Valid() && |body| == DRAW_WORDS
      modifies this, draws
      ensures Valid() && ok == DrawAcceptable(old(upload), body)
      ensures Value() == if ok then RecordDraw(old(Value()), body) else old(Value())
    {
      hide DrawAcceptable, Record;
      ok := ValidateDraw(body);
      if ok {
        Store(Draw(body));
        lastDraw := LastDraw(body[STATE_HASH], body[PRIMITIVE_TYPE], body[PRIMITIVE_COUNT]);
        drawCount := Add32(drawCount, 1);
      }
    }

    method HandleClear(p: seq<byte>)
      requires Valid() && |p| >= CLEAR_SIZE
      modifies this
      ensures Valid() && Value() == RecordClear(old(Value()), p)
    {
      clearCount := Add32(clearCount, 1);
      clear := Clear(Word(p, 20), Word(p, 16), Word(p, 24), Word(p, 28));
      haveClear := true;
    }

    method HandlePresent(p: seq<byte>)
      requires Valid() && |p| >= PRESENT_SIZE
      modifies this
      ensures Valid() && Value() == RecordPresent(old(Value()), p)
    {
      havePresent, presentFrame, presentTarget := true, Word(p, 8), Word(p, 16);
    }

    // One packet that passed the sequence check.
    method HandlePacket(p: seq<byte>) returns (ok: bool)
      requires Valid() && |p| >= HEADER_SIZE
      modifies this, draws
      ensures Valid() && ok == Acceptable(old(upload), p)
      ensures Value() == if ok then Act(old(Value()), p) else old(Value())
    {
      hide DrawAcceptable, RecordDraw, RecordClear, RecordPresent, BeginFrame, Record, FrameValue, Word;
      var kind := Kind(p);
      if kind == PACKET_DRAW {
        if |p| < DRAW_SIZE { return false; }
        ok := HandleDraw(DrawBody(p));
        return;
      }
      if kind == PACKET_CLEAR {
        if |p| < CLEAR_SIZE { return false; }
        HandleClear(p);
      } else if kind == PACKET_BEGIN_FRAME {
        if |p| < BEGIN_FRAME_SIZE { return false; }
        BeginFrameCall(Word(p, 8));
      } else if kind == PACKET_PRESENT {
        if |p| < PRESENT_SIZE { return false; }
        HandlePresent(p);
      } else if kind == PACKET_STRETCH {
        if |p| < STRETCH_SIZE { return false; }
        Store(Stretch(StretchBody(p)));
      }
      ok := true;
    }

    // The checks that come before the packet's own, and then the packet.
    method TakePacket(p: seq<byte>) returns (ok: bool)
      requires Valid() && |p| >= HEADER_SIZE
      modifies this, draws
      ensures Valid() && Outcome(ok, Value()) == Step(old(Value()), p)
    {
      hide Acceptable, Act, Kind, Sequence;
      if Kind(p) < 1 || Kind(p) > PACKET_STRETCH { return false; }
      if Sequence(p) == 0 || (lastSequence != 0 && Sequence(p) <= lastSequence) { return false; }
      lastSequence := Sequence(p);
      packetCount := Add32(packetCount, 1);
      ok := HandlePacket(p);
    }

    /** The packet loop, on a buffer short enough that the offset arithmetic does not wrap. */
    method SubmitPackets(b: seq<byte>) returns (r: int)
      requires Valid() && |b| < TWO_32 - 0x1_0000
      modifies this, draws
      ensures Valid() && (r == 0 || r == -1)
      ensures r == 0 <==> Submit(old(Value()), b).ok
      ensures Value() == Submit(old(Value()), b).state
    {
      hide Step, Half;
      if !ready { return -1; }
      if |b| == 0 { return 0; }
      var offset: nat := 0;
      while offset + HEADER_SIZE <= |b|
        invariant Valid() && offset <= |b|
        invariant SubmitFrom(Value(), b, offset) == SubmitFrom(old(Value()), b, 0)
      {
        var size := Half(b, offset + 2);
        if size < HEADER_SIZE || offset + size > |b| { return -1; }
        var ok := TakePacket(PacketAt(b, offset));
        if !ok { return -1; }
        offset := offset + size;
      }
      r := if offset != |b| then -1 else 0;
    }
  }
}
