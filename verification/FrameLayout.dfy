/**
  The layout of a frame in the shared-memory region: header, draw entries, and the bulk
  blocks that the entries point to.
 */
module FrameLayout {
  import opened Options
  import opened Words
  import opened Packets
  import opened Replay
  import opened UploadArena

  const IPC_SIZE := 0x1000_0000
  const IPC_MAGIC: u32 := 0xDEAD_9001
  const HEADER_BYTES := 60
  const HEADER_WORDS := 15
  const ENTRY_BYTES := 808
  const ENTRY_WORDS := 202
  const MAX_IPC_DRAWS := 2048
  const BLOCKS_PER_DRAW := 15

  // ---------------------------------------------------------------- what a command carries

  // Bytes to copy from where a ref points; the count need not be the ref's own size.
  datatype Payload = Payload(ref: Ref, size: u32)

  predicate Sized(c: Command) {
    match c
    case Draw(body) => |body| == DRAW_WORDS
    case Stretch(rects) => |rects| == STRETCH_WORDS
  }

  function Whole(r: Ref): Payload {
    Payload(r, r.size)
  }

  // The payloads of a command in the order they are copied.
  function Payloads(c: Command): (ps: seq<Payload>)
    requires Sized(c)
    ensures c.Draw? ==> |ps| == BLOCKS_PER_DRAW
    ensures c.Stretch? ==> |ps| == 0
  {
    match c
    case Stretch(_) => []
    case Draw(body) =>
      [Payload(RefAt(body, VERTEX_DATA), body[VERTEX_SIZE]), Payload(RefAt(body, INDEX_DATA), body[INDEX_SIZE]),
       Payload(RefAt(body, DECL_DATA), DeclBytes(body)), Whole(RefAt(body, CONSTANTS_VS)), Whole(RefAt(body, CONSTANTS_PS)),
       Whole(TextureRef(body, 0)), Whole(TextureRef(body, 1)), Whole(TextureRef(body, 2)), Whole(TextureRef(body, 3)),
       Whole(TextureRef(body, 4)), Whole(TextureRef(body, 5)), Whole(TextureRef(body, 6)), Whole(TextureRef(body, 7)),
       Whole(RefAt(body, VS_BYTECODE)), Whole(RefAt(body, PS_BYTECODE))]
  }

  // What would be copied lies inside the arena; the count may differ from the ref's size.
  predicate Backed(p: Payload) {
    Resolve(p.ref).Some? ==> Base(p.ref) + p.size <= SLOTS * SLOT_BYTES
  }

  predicate AllBacked(ps: seq<Payload>) {
    forall k :: 0 <= k < |ps| ==> Backed(ps[k])
  }

  function AllPayloads(cmds: seq<Command>): seq<Payload>
    requires forall k :: 0 <= k < |cmds| ==> Sized(cmds[k])
  {
    if cmds == [] then [] else Payloads(cmds[0]) + AllPayloads(cmds[1..])
  }

  // ---------------------------------------------------------------- placing blocks

  function Align32(n: u32): u32 {
    AlignUp16(n) % TWO_32
  }

  predicate Takes(bulk: u32, used: u32, p: Payload) {
    Resolve(p.ref).Some? && p.size > 0 && Add32(Add32(bulk, used), p.size) <= IPC_SIZE
  }

  function Advance(bulk: u32, used: u32, p: Payload): u32 {
    if Takes(bulk, used, p) then Add32(used, Align32(p.size)) else used
  }

  // A block's offset in the bulk region and its size; zeros when it was not placed.
  datatype Block = Block(offset: u32, size: u32)

  function BlockOf(bulk: u32, used: u32, p: Payload): Block {
    if Takes(bulk, used, p) then Block(used, p.size) else Block(0, 0)
  }

  function Blocks(bulk: u32, used: u32, ps: seq<Payload>): (bs: seq<Block>)
    ensures |bs| == |ps|
    decreases |ps|
  {
    if ps == [] then [] else [BlockOf(bulk, used, ps[0])] + Blocks(bulk, Advance(bulk, used, ps[0]), ps[1..])
  }

  function UsedAfter(bulk: u32, used: u32, ps: seq<Payload>): u32
    decreases |ps|
  {
    if ps == [] then used else UsedAfter(bulk, Advance(bulk, used, ps[0]), ps[1..])
  }

  function BulkOffset(count: nat): (bulk: u32)
    requires count <= MAX_IPC_DRAWS
    ensures HEADER_BYTES + ENTRY_BYTES * count <= bulk <= IPC_SIZE && bulk % 16 == 0
  {
    AlignUp16(HEADER_BYTES + ENTRY_BYTES * count)
  }

  // The position of the bulk cursor is sane: everything placed so far fits.
  predicate Room(bulk: u32, used: u32) {
    bulk % 16 == 0 && used % 16 == 0 && bulk + used <= IPC_SIZE
  }

  /** Placing a backed payload: no sum wraps, the block lies at the cursor, and the cursor
      stays inside the region after rounding up. */
  lemma {:induction false} PlaceOne(bulk: u32, used: u32, p: Payload)
    requires Room(bulk, used) && Backed(p)
    ensures Takes(bulk, used, p) <==> Resolve(p.ref).Some? && p.size > 0 && bulk + used + p.size <= IPC_SIZE
    ensures Room(bulk, Advance(bulk, used, p)) && used <= Advance(bulk, used, p)
    ensures Takes(bulk, used, p) ==> used + p.size <= Advance(bulk, used, p)
  {
    var r := AlignUp16(p.size);
    RoundedFits(bulk + used, p.size);
    hide AlignUp16, Resolve, Base, Add32;
    Add32Small(bulk, used);
    if Resolve(p.ref).Some? {
      Add32Small(bulk + used, p.size);
      SmallWord(r);
      if Takes(bulk, used, p) {
        Add32Small(used, r);
        Sixteens(used, r);
      }
    }
  }

  /** Without that, the room check can pass for a block that does not fit: for any payload that
      resolves, the check protects the region exactly when the sum does not wrap to a small one. */
  lemma {:induction false} RoomCheckExactly(bulk: u32, used: u32, p: Payload)
    requires Room(bulk, used) && Resolve(p.ref).Some? && p.size > 0
    ensures (Takes(bulk, used, p) ==> bulk + used + p.size <= IPC_SIZE)
      <==> !(TWO_32 <= bulk + used + p.size <= TWO_32 + IPC_SIZE)
  {
    hide Resolve;
    var sum := bulk + used + p.size;
    Add32Small(bulk, used);
    if sum < TWO_32 {
      DivMod(sum, TWO_32, 0, sum);
    } else {
      DivMod(sum, TWO_32, 1, sum - TWO_32);
    }
  }

  lemma {:induction false} Add32Small(a: u32, b: u32)
    requires a + b < TWO_32
    ensures Add32(a, b) == a + b
  {
  }

  lemma {:induction false} SmallWord(n: nat)
    requires n < TWO_32
    ensures n % TWO_32 == n
  {
  }

  lemma {:induction false} RoundedFits(at: nat, size: nat)
    requires at % 16 == 0
    ensures at + size <= IPC_SIZE <==> at + AlignUp16(size) <= IPC_SIZE
  {
  }

  lemma {:induction false} Sixteens(a: nat, b: nat)
    requires a % 16 == 0 && b % 16 == 0
    ensures (a + b) % 16 == 0
  {
  }

  // What is claimed of every block: aligned, in range, after the blocks before it.
  predicate GoodBlock(bulk: u32, lo: u32, hi: u32, b: Block) {
    b.size > 0 ==> b.offset % 16 == 0 && lo <= b.offset && b.offset + b.size <= hi && bulk + b.offset + b.size <= IPC_SIZE
  }

  // Every earlier block ends before a later one begins.
  ghost predicate InOrder(bs: seq<Block>) {
    forall j, k :: 0 <= j < k < |bs| && bs[j].size > 0 && bs[k].size > 0 ==> bs[j].offset + bs[j].size <= bs[k].offset
  }

  ghost predicate AllGood(bulk: u32, lo: u32, hi: u32, bs: seq<Block>) {
    forall k :: 0 <= k < |bs| ==> GoodBlock(bulk, lo, hi, bs[k])
  }

  /** Bulk layout: all blocks are 16-byte aligned and inside the region; each lies after every
      earlier one; and bulk offset plus bytes used never exceeds the region. */
  lemma {:induction false} LayoutSound(bulk: u32, used: u32, ps: seq<Payload>)
    requires Room(bulk, used) && AllBacked(ps)
    ensures var bs, end := Blocks(bulk, used, ps), UsedAfter(bulk, used, ps);
      Room(bulk, end) && used <= end && AllGood(bulk, used, end, bs) && InOrder(bs)
    decreases |ps|
  {
    if ps != [] {
      var next := Advance(bulk, used, ps[0]);
      PlaceOne(bulk, used, ps[0]);
      FirstBlock(bulk, used, ps);
      hide Room, Backed, Takes, BlockOf;
      LayoutSound(bulk, next, ps[1..]);
      var rest, end := Blocks(bulk, next, ps[1..]), UsedAfter(bulk, next, ps[1..]);
      MoreBlocks(bulk, used, next, end, BlockOf(bulk, used, ps[0]), rest);
    }
  }

  lemma {:induction false} MoreBlocks(bulk: u32, lo: u32, mid: u32, hi: u32, b: Block, rest: seq<Block>)
    requires lo <= mid <= hi && GoodBlock(bulk, lo, mid, b) && AllGood(bulk, mid, hi, rest) && InOrder(rest)
    ensures AllGood(bulk, lo, hi, [b] + rest) && InOrder([b] + rest)
  {
    var bs := [b] + rest;
    forall k | 0 <= k < |bs| ensures GoodBlock(bulk, lo, hi, bs[k]) {
      if k > 0 { assert GoodBlock(bulk, mid, hi, rest[k - 1]); }
    }
    forall j, k | 0 <= j < k < |bs| && bs[j].size > 0 && bs[k].size > 0
      ensures bs[j].offset + bs[j].size <= bs[k].offset
    {
      assert bs[k] == rest[k - 1];
      assert GoodBlock(bulk, mid, hi, rest[k - 1]);
      if j > 0 { assert bs[j] == rest[j - 1]; }
    }
  }

  lemma {:induction false} FirstBlock(bulk: u32, used: u32, ps: seq<Payload>)
    requires ps != [] && Room(bulk, used) && AllBacked(ps)
    ensures GoodBlock(bulk, used, Advance(bulk, used, ps[0]), BlockOf(bulk, used, ps[0]))
  {
    PlaceOne(bulk, used, ps[0]);
  }

  /** A payload is placed exactly when its ref resolves, it is not empty, and the room left is
      enough. */
  lemma {:induction false} PlacedExactly(bulk: u32, used: u32, ps: seq<Payload>, k: nat)
    requires Room(bulk, used) && AllBacked(ps) && k < |ps|
    ensures var at := UsedAfter(bulk, used, ps[..k]);
      Room(bulk, at) && Blocks(bulk, used, ps)[k]
      == if Resolve(ps[k].ref).Some? && ps[k].size > 0 && bulk + at + ps[k].size <= IPC_SIZE then Block(at, ps[k].size) else Block(0, 0)
    decreases k
  {
    hide Backed, Takes, Room, Resolve;
    PlaceOne(bulk, used, ps[0]);
    if k > 0 {
      PlacedExactly(bulk, Advance(bulk, used, ps[0]), ps[1..], k - 1);
      assert ps[..k][1..] == ps[1..][..k - 1];
    }
  }

  // ---------------------------------------------------------------- a draw entry

  function StretchWord(rects: seq<u32>, k: nat): u32
    requires |rects| == STRETCH_WORDS && k < ENTRY_WORDS
  {
    if k == 0 then 1
    else if 7 <= k <= 11 then rects[k + 2]
    else if 12 <= k <= 20 then rects[k - 12]
    else if 21 <= k <= 25 then rects[k - 7]
    else 0
  }

  function OffsetOf(bs: seq<Block>, k: nat): u32 {
    if k < |bs| then bs[k].offset else 0
  }

  function SizeOf(bs: seq<Block>, k: nat): u32 {
    if k < |bs| then bs[k].size else 0
  }

  // Word k of the entry of a draw whose payloads went to the blocks bs.
  function DrawWord(body: Body, bs: seq<Block>, k: nat): u32
    requires |body| == DRAW_WORDS && k < ENTRY_WORDS
  {
    if k == 0 then 0
    else if k <= 6 then body[k]
    else if k == 7 then body[TARGET_ID]
    else if k <= 11 then body[k + 1]
    else if k <= 25 then 0
    else if k <= 35 then body[VIEWPORT + (k - 26)]
    else if k == 36 then body[FVF]
    else if k == 37 then body[PIXEL_SHADER_ID]
    else if k <= 39 then body[STREAM_OFFSET + (k - 38)]
    else if k == 40 then body[INDEX_FORMAT]
    else if k <= 88 then body[TEX_ID + (k - 41)]
    else if k <= 149 then body[SAMPLERS + (k - 89)]
    else if k <= 153 then if k % 2 == 0 then OffsetOf(bs, (k - 150) / 2) else SizeOf(bs, (k - 150) / 2)
    else if k <= 161 then OffsetOf(bs, 5 + (k - 154))
    else if k <= 169 then SizeOf(bs, 5 + (k - 162))
    else if k == 170 then OffsetOf(bs, 2)
    else if k == 171 then if SizeOf(bs, 2) > 0 then Low16(body[DECL_COUNT]) else 0
    else if k <= 175 then if k % 2 == 0 then OffsetOf(bs, 3 + (k - 172) / 2) else SizeOf(bs, 3 + (k - 172) / 2)
    else if k == 176 then body[VERTEX_SHADER_ID]
    else if k <= 180 then if k % 2 == 1 then OffsetOf(bs, 13 + (k - 177) / 2) else SizeOf(bs, 13 + (k - 177) / 2)
    else body[RENDER_STATES + (k - 181)]
  }

  function EntryWord(c: Command, bs: seq<Block>, k: nat): u32
    requires Sized(c) && k < ENTRY_WORDS
  {
    match c
    case Draw(body) => DrawWord(body, bs, k)
    case Stretch(rects) => StretchWord(rects, k)
  }

  // The entry as the viewer reads it: word k at byte 4 * k.
  ghost predicate EntryAt(mem: seq<byte>, at: nat, c: Command, bs: seq<Block>)
    requires Sized(c)
  {
    at + ENTRY_BYTES <= |mem| && forall k :: 0 <= k < ENTRY_WORDS ==> Word(mem, at + 4 * k) == EntryWord(c, bs, k)
  }

  // ---------------------------------------------------------------- the header

  datatype Header = Header(
    magic: u32, sequence: u32, width: u32, height: u32, clear: Clear, haveClear: u32, drawCount: u32,
    replayHash: u32, frameId: u32, presentTarget: u32, bulkOffset: u32, bulkUsed: u32)

  function ReadHeader(mem: seq<byte>): Header
    requires |mem| >= HEADER_BYTES
  {
    Header(Word(mem, 0), Word(mem, 4), Word(mem, 8), Word(mem, 12),
           Clear(Word(mem, 16), Word(mem, 20), Word(mem, 24), Word(mem, 28)), Word(mem, 32), Word(mem, 36),
           Word(mem, 40), Word(mem, 44), Word(mem, 48), Word(mem, 52), Word(mem, 56))
  }

  // The checks the viewer makes on a copied header before it copies the rest.
  predicate HeaderOk(h: Header) {
    && h.magic == IPC_MAGIC && h.drawCount <= MAX_IPC_DRAWS
    && h.bulkOffset >= HEADER_BYTES + ENTRY_BYTES * h.drawCount
    && h.bulkOffset <= IPC_SIZE && h.bulkUsed <= IPC_SIZE - h.bulkOffset
  }

  // The viewer's check of one block before it reads it.
  predicate BulkRangeValid(bulkOffset: u32, bulkUsed: u32, offset: u32, size: u32) {
    && size != 0 && bulkOffset <= IPC_SIZE
    && offset <= bulkUsed && size <= bulkUsed - offset
    && offset <= IPC_SIZE - bulkOffset && size <= IPC_SIZE - bulkOffset - offset
  }

  /** For every frame of backed commands: the header passes the viewer's checks and every
      nonempty block passes its range check. */
  lemma {:induction false} ViewerChecksPass(count: nat, ps: seq<Payload>, h: Header)
    requires count <= MAX_IPC_DRAWS && AllBacked(ps)
    requires h.magic == IPC_MAGIC && h.drawCount == count && h.bulkOffset == BulkOffset(count)
    requires h.bulkUsed == UsedAfter(BulkOffset(count), 0, ps)
    ensures HeaderOk(h)
    ensures forall k :: 0 <= k < |ps| && Blocks(h.bulkOffset, 0, ps)[k].size > 0 ==>
      BulkRangeValid(h.bulkOffset, h.bulkUsed, Blocks(h.bulkOffset, 0, ps)[k].offset, Blocks(h.bulkOffset, 0, ps)[k].size)
  {
    LayoutSound(h.bulkOffset, 0, ps);
    hide Blocks, UsedAfter, Backed, BulkOffset;
    var bs := Blocks(h.bulkOffset, 0, ps);
    forall k | 0 <= k < |ps| && bs[k].size > 0
      ensures BulkRangeValid(h.bulkOffset, h.bulkUsed, bs[k].offset, bs[k].size)
    {
      assert GoodBlock(h.bulkOffset, 0, h.bulkUsed, bs[k]);
    }
  }
}
