/**
  The packet stream from the frontend to the backend: framing, the word layout of draw
  packets, and the upload refs inside them.
 */
module Packets {
  import opened Words

  const HEADER_SIZE := 8

  const PACKET_INIT := 1
  const PACKET_BEGIN_FRAME := 2
  const PACKET_DRAW := 3
  const PACKET_PRESENT := 4
  const PACKET_SHUTDOWN := 5
  const PACKET_CLEAR := 6
  const PACKET_STRETCH := 7

  const BEGIN_FRAME_SIZE := 12
  const DRAW_SIZE := 876
  const PRESENT_SIZE := 20
  const CLEAR_SIZE := 32
  const STRETCH_SIZE := 88

  // The body of a draw packet is its words after the header; these are word positions in it.
  const DRAW_WORDS := 217
  const STATE_HASH := 0
  const PRIMITIVE_TYPE := 1
  const BASE_VERTEX := 2
  const MIN_VERTEX_INDEX := 3
  const NUM_VERTICES := 4
  const START_INDEX := 5
  const PRIMITIVE_COUNT := 6
  const TARGET_ID := 7
  const TARGET_TEXTURE := 9
  const TARGET_WIDTH := 10
  const TARGET_HEIGHT := 11
  const TARGET_FORMAT := 12
  const VERTEX_BUFFER_ID := 13
  const INDEX_BUFFER_ID := 14
  const DECL_ID := 15
  const VERTEX_SHADER_ID := 16
  const PIXEL_SHADER_ID := 17
  const FVF := 18
  const STREAM_OFFSET := 19
  const STREAM_STRIDE := 20
  const TEX_ID := 26
  const TEX_GENERATION := 34
  const TEX_DATA := 74
  const SAMPLERS := 98
  const CONSTANTS_VS := 159
  const CONSTANTS_PS := 162
  const VIEWPORT := 165
  const SCISSOR := 171
  const VERTEX_DATA := 175
  const VERTEX_SIZE := 178
  const INDEX_DATA := 179
  const INDEX_SIZE := 182
  const INDEX_FORMAT := 183
  const DECL_DATA := 184
  const DECL_COUNT := 187
  const VS_BYTECODE := 188
  const PS_BYTECODE := 192
  const RENDER_STATES := 196

  const STAGES := 8

  // The body of a stretch-rect packet after its frame id.
  const STRETCH_WORDS := 19

  // A range of one slot of the upload arena.
  datatype Ref = Ref(slot: u16, offset: u32, size: u32)

  const NO_REF := Ref(0, 0, 0)

  datatype ArenaDesc = ArenaDesc(slotCount: u32, bytesPerSlot: u32)

  type Body = seq<u32>

  function WordsAt(b: seq<byte>, at: nat, n: nat): (w: seq<u32>)
    requires at + 4 * n <= |b|
    ensures |w| == n && forall k :: 0 <= k < n ==> w[k] == Word(b, at + 4 * k)
  {
    seq(n, k requires 0 <= k < n => Word(b, at + 4 * k))
  }

  function RefAt(body: Body, i: nat): Ref
    requires i + 3 <= |body|
  {
    Ref(Low16(body[i]), body[i + 1], body[i + 2])
  }

  function TextureRef(body: Body, stage: nat): Ref
    requires |body| == DRAW_WORDS && stage < STAGES
  {
    RefAt(body, TEX_DATA + 3 * stage)
  }

  function DeclBytes(body: Body): u32
    requires |body| == DRAW_WORDS
  {
    8 * Low16(body[DECL_COUNT])
  }

  predicate IsFramed(p: seq<byte>) {
    |p| >= HEADER_SIZE && Half(p, 2) == |p|
  }

  function Kind(p: seq<byte>): u16
    requires |p| >= HEADER_SIZE
  {
    Half(p, 0)
  }

  function Sequence(p: seq<byte>): u32
    requires |p| >= HEADER_SIZE
  {
    Word(p, 4)
  }

  predicate InRange(desc: ArenaDesc, r: Ref) {
    && r.size != 0
    && desc.slotCount != 0 && desc.bytesPerSlot != 0
    && r.slot < desc.slotCount
    && r.size <= desc.bytesPerSlot && r.offset <= desc.bytesPerSlot - r.size
  }

  predicate EmptyOrInRange(desc: ArenaDesc, r: Ref) {
    r.size > 0 ==> InRange(desc, r)
  }

  // The refs of a draw that may be empty.
  function OptionalRefs(body: Body): seq<Ref>
    requires |body| == DRAW_WORDS
  {
    [RefAt(body, VERTEX_DATA), RefAt(body, INDEX_DATA), RefAt(body, DECL_DATA), RefAt(body, VS_BYTECODE),
     RefAt(body, PS_BYTECODE), TextureRef(body, 0), TextureRef(body, 1), TextureRef(body, 2), TextureRef(body, 3),
     TextureRef(body, 4), TextureRef(body, 5), TextureRef(body, 6), TextureRef(body, 7)]
  }

  // The object ids a draw cannot do without.
  predicate HasStateIds(body: Body)
    requires |body| == DRAW_WORDS
  {
    && body[TARGET_ID] != 0 && body[VERTEX_BUFFER_ID] != 0 && body[INDEX_BUFFER_ID] != 0
    && (body[DECL_ID] != 0 || body[FVF] != 0)
  }

  predicate RefsValid(desc: ArenaDesc, body: Body)
    requires |body| == DRAW_WORDS
  {
    && InRange(desc, RefAt(body, CONSTANTS_VS)) && InRange(desc, RefAt(body, CONSTANTS_PS))
    && forall k :: 0 <= k < |OptionalRefs(body)| ==> EmptyOrInRange(desc, OptionalRefs(body)[k])
  }

  predicate DrawAcceptable(desc: ArenaDesc, body: Body)
    requires |body| == DRAW_WORDS
  {
    HasStateIds(body) && RefsValid(desc, body)
  }
}
