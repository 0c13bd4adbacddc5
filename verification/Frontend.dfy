/**
  The frontend device: bound objects, cached constant refs, and the uploads that a draw makes
  before its packet is submitted.
 */
module Frontend {
  import opened Options
  import opened Words
  import opened Packets
  import opened UploadArena
  import opened FrameLayout
  import opened Replay

  const CONSTANT_BYTES := 4096

  // Object contents by id; id 0 and unknown ids have none.
  type Objects = map<nat, seq<byte>>

  function Content(objects: Objects, id: nat): seq<byte> {
    if id in objects then objects[id] else []
  }

  // The ids of what is bound; a texture id stands for the level that would be uploaded.
  datatype Bindings = Bindings(vertices: nat, indices: nat, declaration: nat, vertexShader: nat, pixelShader: nat,
                               textures: seq<nat>)

  const NOTHING_BOUND := Bindings(0, 0, 0, 0, 0, [0, 0, 0, 0, 0, 0, 0, 0])

  datatype Device = Device(
    frameId: u32, inScene: bool, sequence: u32, vsDirty: bool, psDirty: bool, vsRef: Ref, psRef: Ref,
    vsFile: seq<byte>, psFile: seq<byte>, objects: Objects, bound: Bindings)

  // The turn to the next frame forgets the cached constant refs.
  function Advanced(d: Device): Device
    requires d.frameId + 1 < TWO_32
  {
    d.(frameId := d.frameId + 1, vsRef := NO_REF, psRef := NO_REF, vsDirty := true, psDirty := true)
  }

  // After a present packet.
  function NextFrame(d: Device): Device
    requires d.sequence + 1 < TWO_32 && d.frameId + 1 < TWO_32
  {
    Advanced(d.(sequence := d.sequence + 1))
  }

  // ---------------------------------------------------------------- packets

  // A packet: type, size, sequence number, and a body of words.
  function Packet(kind: u16, sequence: u32, words: seq<u32>): (p: seq<byte>)
    requires |words| < 0x3FFE
    ensures |p| == HEADER_SIZE + 4 * |words|
  {
    HalfBytes(kind) + HalfBytes(HEADER_SIZE + 4 * |words|) + WordBytes(sequence) + Bytes(words)
  }

  lemma {:induction false} HalfReads(h: u16)
    ensures Half(HalfBytes(h), 0) == h
  {
  }

  /** A packet reads back as it was made. */
  lemma {:induction false} PacketReads(kind: u16, sequence: u32, words: seq<u32>)
    requires |words| < 0x3FFE
    ensures var p := Packet(kind, sequence, words);
      && IsFramed(p) && Kind(p) == kind && Sequence(p) == sequence
      && forall k :: 0 <= k < |words| ==> Word(p, HEADER_SIZE + 4 * k) == words[k]
  {
    var p := Packet(kind, sequence, words);
    HalfReads(kind);
    HalfReads(HEADER_SIZE + 4 * |words|);
    var size, number, body := HalfBytes(HEADER_SIZE + 4 * |words|), WordBytes(sequence), Bytes(words);
    hide HalfBytes, WordBytes, Bytes;
    assert p[0] == HalfBytes(kind)[0] && p[1] == HalfBytes(kind)[1];
    assert p[2] == size[0] && p[3] == size[1];
    assert p[4] == number[0] && p[5] == number[1] && p[6] == number[2] && p[7] == number[3];
    assert p == (HalfBytes(kind) + size + number) + body + [];
    forall k | 0 <= k < |words| ensures Word(p, HEADER_SIZE + 4 * k) == words[k] {
      BytesWord(words, k);
      WordInside(HalfBytes(kind) + size + number, body, [], 4 * k);
    }
  }

  // ---------------------------------------------------------------- uploads

  // The constant file's ref: the cached one while it is clean and not empty.
  function ConstantRef(a: Arena, frameId: u32, dirty: bool, cached: Ref, file: seq<byte>): Copied
    requires Valid(a)
  {
    if dirty || cached.size == 0 then Copy(a, frameId, file) else Copied(a, cached)
  }

  datatype CopiedAll = CopiedAll(arena: Arena, refs: seq<Ref>)

  function CopyAll(a: Arena, frameId: u32, list: seq<seq<byte>>): (c: CopiedAll)
    requires Valid(a)
    ensures Valid(c.arena) && |c.refs| == |list|
    decreases |list|
  {
    CopyValid(a, frameId, if list == [] then [] else list[0]);
    if list == [] then CopiedAll(a, [])
    else
      var first := Copy(a, frameId, list[0]);
      var rest := CopyAll(first.arena, frameId, list[1..]);
      CopiedAll(rest.arena, [first.ref] + rest.refs)
  }

  // What a draw sends: object contents at this moment, with no bytes for a stage that the
  // texture cache does not upload and the synthesised declaration when none is bound.
  datatype Sources = Sources(vertices: seq<byte>, indices: seq<byte>, declaration: seq<byte>,
                             vsCode: seq<byte>, psCode: seq<byte>, textures: seq<seq<byte>>)

  function StageBytes(d: Device, uploads: seq<bool>, s: nat): seq<byte>
    requires |d.bound.textures| == STAGES && |uploads| == STAGES && s < STAGES
  {
    if uploads[s] then Content(d.objects, d.bound.textures[s]) else []
  }

  function SourcesOf(d: Device, uploads: seq<bool>, synthesised: seq<byte>): (s: Sources)
    requires |d.bound.textures| == STAGES && |uploads| == STAGES
    ensures |s.textures| == STAGES
  {
    var declaration := Content(d.objects, d.bound.declaration);
    Sources(Content(d.objects, d.bound.vertices), Content(d.objects, d.bound.indices),
            if declaration != [] then declaration else synthesised,
            Content(d.objects, d.bound.vertexShader), Content(d.objects, d.bound.pixelShader),
            [StageBytes(d, uploads, 0), StageBytes(d, uploads, 1), StageBytes(d, uploads, 2), StageBytes(d, uploads, 3),
             StageBytes(d, uploads, 4), StageBytes(d, uploads, 5), StageBytes(d, uploads, 6), StageBytes(d, uploads, 7)])
  }

  // The copies a draw makes after the constants, in order.
  function CopyList(s: Sources): (list: seq<seq<byte>>)
    requires |s.textures| == STAGES
    ensures |list| == 5 + STAGES
  {
    [s.vsCode, s.psCode, s.vertices, s.indices, s.declaration] + s.textures
  }

  // The bytes behind each of the fifteen payloads of a draw, in payload order.
  function PayloadData(d: Device, s: Sources): (data: seq<seq<byte>>)
    requires |s.textures| == STAGES
    ensures |data| == BLOCKS_PER_DRAW
  {
    [s.vertices, s.indices, s.declaration, d.vsFile, d.psFile] + s.textures + [s.vsCode, s.psCode]
  }

  // The refs of a draw in payload order, given the refs of its copy list.
  function PayloadRefs(vs: Ref, ps: Ref, refs: seq<Ref>): (r: seq<Ref>)
    requires |refs| == 5 + STAGES
    ensures |r| == BLOCKS_PER_DRAW
  {
    [refs[2], refs[3], refs[4], vs, ps] + refs[5..] + [refs[0], refs[1]]
  }

  datatype Uploaded = Uploaded(arena: Arena, vs: Ref, ps: Ref, refs: seq<Ref>)

  function UploadDraw(d: Device, a: Arena, s: Sources): (u: Uploaded)
    requires Valid(a) && |s.textures| == STAGES
    ensures Valid(u.arena) && |u.refs| == BLOCKS_PER_DRAW
  {
    CopyValid(a, d.frameId, d.vsFile);
    var vs := ConstantRef(a, d.frameId, d.vsDirty, d.vsRef, d.vsFile);
    CopyValid(vs.arena, d.frameId, d.psFile);
    var ps := ConstantRef(vs.arena, d.frameId, d.psDirty, d.psRef, d.psFile);
    var all := CopyAll(ps.arena, d.frameId, CopyList(s));
    Uploaded(all.arena, vs.ref, ps.ref, PayloadRefs(vs.ref, ps.ref, all.refs))
  }

  // The arguments of a draw call; a negative base vertex is its 32-bit pattern.
  datatype DrawArgs = DrawArgs(primitiveType: u32, baseVertex: u32, minVertexIndex: u32, numVertices: u32,
                               startIndex: u32, primitiveCount: u32)

  // The packet body carries the arguments, the refs, and the sizes of what they were made from.
  predicate Carries(body: Body, args: DrawArgs, refs: seq<Ref>, s: Sources)
    requires |refs| == BLOCKS_PER_DRAW
  {
    && |body| == DRAW_WORDS
    && args == DrawArgs(body[PRIMITIVE_TYPE], body[BASE_VERTEX], body[MIN_VERTEX_INDEX], body[NUM_VERTICES],
                        body[START_INDEX], body[PRIMITIVE_COUNT])
    && (forall k :: 0 <= k < BLOCKS_PER_DRAW ==> Payloads(Draw(body))[k].ref == refs[k])
    && body[VERTEX_SIZE] == |s.vertices| && body[INDEX_SIZE] == |s.indices| && DeclBytes(body) == |s.declaration|
  }
}
