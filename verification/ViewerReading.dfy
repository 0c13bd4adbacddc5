/**
  What the viewer reads: a prefix of a published region is enough, and every entry and block it
  reads there is what the frame's calls asked for.
 */
module ViewerReading {
  import opened Options
  import opened Words
  import opened Packets
  import opened UploadArena
  import opened Replay
  import opened FrameLayout
  import opened FrameAssembly
  import opened Frontend
  import opened EndToEnd
  import opened EntryFields
  import opened CallHistory

  // ---------------------------------------------------------------- a prefix is enough

  lemma {:induction false} PrefixHolding(mem: seq<byte>, n: nat, at: nat, data: seq<byte>)
    requires n <= |mem| && Holding(mem, at, data) && at + |data| <= n
    ensures Holding(mem[..n], at, data)
  {
    assert mem[..n][at..at + |data|] == mem[at..at + |data|];
  }

  lemma {:induction false} PrefixEntry(mem: seq<byte>, n: nat, at: nat, c: Command, bs: seq<Block>)
    requires Sized(c) && EntryAt(mem, at, c, bs) && at + ENTRY_BYTES <= n <= |mem|
    ensures EntryAt(mem[..n], at, c, bs)
  {
    hide EntryWord;
    forall k | 0 <= k < ENTRY_WORDS ensures Word(mem[..n], at + 4 * k) == EntryWord(c, bs, k) {
      assert Word(mem, at + 4 * k) == EntryWord(c, bs, k);
      PrefixWord(mem, n, at + 4 * k);
    }
  }

  lemma {:induction false} PrefixWord(mem: seq<byte>, n: nat, at: nat)
    requires at + 4 <= n <= |mem|
    ensures Word(mem[..n], at) == Word(mem, at)
  {
  }

  lemma {:induction false} PrefixCommand(mem: seq<byte>, n: nat, bulk: u32, used: u32, cmds: seq<Command>,
                                         records: seq<Record>, j: nat)
    requires AllSized(cmds) && j < |cmds| == |records| && CommandFaithful(mem, bulk, used, cmds, records, j)
    requires EntryOffset(|cmds|) <= bulk && bulk + used == n <= |mem|
    ensures CommandFaithful(mem[..n], bulk, used, cmds, records, j)
  {
    hide EntryAt, Holding, Sized, BlocksFor;
    var bs := BlocksFor(bulk, cmds, j);
    assert EntryOffset(j) + ENTRY_BYTES <= EntryOffset(|cmds|);
    PrefixEntry(mem, n, EntryOffset(j), cmds[j], bs);
    if cmds[j].Draw? {
      forall k | 0 <= k < BLOCKS_PER_DRAW ensures BlockCarries(mem[..n], bulk, bs[k], records[j].data[k]) {
        assert GoodBlock(bulk, 0, used, bs[k]);
        assert BlockCarries(mem, bulk, bs[k], records[j].data[k]);
        if bs[k].size > 0 {
          PrefixHolding(mem, n, bulk + bs[k].offset, records[j].data[k]);
        }
      }
    }
  }

  lemma {:induction false} PrefixHeader(mem: seq<byte>, n: nat)
    requires HEADER_BYTES <= n <= |mem|
    ensures ReadHeader(mem[..n]) == ReadHeader(mem)
  {
    forall k | 0 <= k < HEADER_WORDS ensures Word(mem[..n], 4 * k) == Word(mem, 4 * k) { PrefixWord(mem, n, 4 * k); }
    hide Word;
    assert Word(mem[..n], 4 * 0) == Word(mem, 4 * 0) && Word(mem[..n], 4 * 1) == Word(mem, 4 * 1);
    assert Word(mem[..n], 4 * 2) == Word(mem, 4 * 2) && Word(mem[..n], 4 * 3) == Word(mem, 4 * 3);
    assert Word(mem[..n], 4 * 4) == Word(mem, 4 * 4) && Word(mem[..n], 4 * 5) == Word(mem, 4 * 5);
    assert Word(mem[..n], 4 * 6) == Word(mem, 4 * 6) && Word(mem[..n], 4 * 7) == Word(mem, 4 * 7);
    assert Word(mem[..n], 4 * 8) == Word(mem, 4 * 8) && Word(mem[..n], 4 * 9) == Word(mem, 4 * 9);
    assert Word(mem[..n], 4 * 10) == Word(mem, 4 * 10) && Word(mem[..n], 4 * 11) == Word(mem, 4 * 11);
    assert Word(mem[..n], 4 * 12) == Word(mem, 4 * 12) && Word(mem[..n], 4 * 13) == Word(mem, 4 * 13);
    assert Word(mem[..n], 4 * 14) == Word(mem, 4 * 14);
  }

  lemma {:induction false} PrefixFaithful(mem: seq<byte>, n: nat, cmds: seq<Command>, records: seq<Record>)
    requires AllSized(cmds) && FrameFaithful(mem, cmds, records)
    requires n == ReadHeader(mem).bulkOffset + ReadHeader(mem).bulkUsed <= |mem|
    ensures FrameFaithful(mem[..n], cmds, records)
  {
    hide CommandFaithful, ReadHeader, UsedBefore, Sized;
    var bulk, used := ReadHeader(mem).bulkOffset, ReadHeader(mem).bulkUsed;
    PrefixHeader(mem, n);
    forall j | 0 <= j < |cmds| ensures CommandFaithful(mem[..n], bulk, used, cmds, records, j) {
      PrefixCommand(mem, n, bulk, used, cmds, records, j);
    }
  }

  // ---------------------------------------------------------------- what the viewer reads

  // The entry words that give payload k of a draw: its offset, and its size or element count.
  function OffsetWord(k: nat): nat {
    if k < 2 then 150 + 2 * k else if k == 2 then 170 else if k < 5 then 166 + 2 * k
    else if k < 13 then 149 + k else 151 + 2 * k
  }

  function SizeWord(k: nat): nat {
    if 5 <= k < 13 then 157 + k else OffsetWord(k) + 1
  }

  // A payload of the draw whose entry starts at a byte offset, as the viewer reads it.
  function ViewerBlock(mem: seq<byte>, entry: nat, k: nat): Block
    requires k < BLOCKS_PER_DRAW && entry + ENTRY_BYTES <= |mem|
  {
    var size := Word(mem, entry + 4 * SizeWord(k));
    Block(Word(mem, entry + 4 * OffsetWord(k)), if k == 2 then 8 * Low16(size) else size)
  }

  lemma {:induction false} ViewerReads(mem: seq<byte>, entry: nat, c: Command, bs: seq<Block>, k: nat)
    requires c.Draw? && Sized(c) && EntryAt(mem, entry, c, bs) && k < BLOCKS_PER_DRAW == |bs|
    requires bs[2].size > 0 ==> bs[2].size == DeclBytes(c.body)
    ensures ViewerBlock(mem, entry, k) == bs[k]
  {
    hide Word, EntryWord;
    assert Word(mem, entry + 4 * OffsetWord(k)) == EntryWord(c, bs, OffsetWord(k));
    assert Word(mem, entry + 4 * SizeWord(k)) == EntryWord(c, bs, SizeWord(k));
    EntryBlocks(c, bs, k);
  }

  lemma {:induction false} EntryBlocks(c: Command, bs: seq<Block>, k: nat)
    requires c.Draw? && Sized(c) && k < BLOCKS_PER_DRAW == |bs|
    ensures EntryWord(c, bs, OffsetWord(k)) == bs[k].offset
    ensures k != 2 ==> EntryWord(c, bs, SizeWord(k)) == bs[k].size
    ensures EntryWord(c, bs, SizeWord(2)) == if bs[2].size > 0 then Low16(c.body[DECL_COUNT]) else 0
  {
  }

  // A block that holds data passes the viewer's range check.
  ghost predicate SeenBlock(mem: seq<byte>, bulk: u32, used: u32, b: Block, data: seq<byte>) {
    b.size > 0 ==>
      (BulkRangeValid(bulk, used, b.offset, b.size) && b.size == |data| && Holding(mem, bulk + b.offset, data))
  }

  // Every payload of draw entry j, as the viewer reads it, is empty or passes the viewer's
  // range check and holds the recorded bytes.
  ghost predicate ViewerSees(mem: seq<byte>, j: nat, data: seq<seq<byte>>)
    requires |mem| >= HEADER_BYTES && EntryOffset(j) + ENTRY_BYTES <= |mem| && |data| == BLOCKS_PER_DRAW
  {
    var h := ReadHeader(mem);
    forall k :: 0 <= k < BLOCKS_PER_DRAW ==>
      SeenBlock(mem, h.bulkOffset, h.bulkUsed, ViewerBlock(mem, EntryOffset(j), k), data[k])
  }

  lemma {:induction false} FaithfulIsSeen(mem: seq<byte>, cmds: seq<Command>, records: seq<Record>, j: nat)
    requires AllSized(cmds) && FrameFaithful(mem, cmds, records) && j < |cmds| && cmds[j].Draw?
    ensures records[j].Drawn? && |records[j].data| == BLOCKS_PER_DRAW && EntryOffset(j) + ENTRY_BYTES <= |mem|
    ensures ViewerSees(mem, j, records[j].data)
  {
    var h := ReadHeader(mem);
    var bulk, used := h.bulkOffset, h.bulkUsed;
    assert CommandFaithful(mem, bulk, used, cmds, records, j);
    hide ReadHeader, EntryAt, Sized, Holding, BlocksFor, Payloads, EntryWord, Word;
    var bs := BlocksFor(bulk, cmds, j);
    DeclarationSize(bulk, cmds, j);
    EntryInside(mem, EntryOffset(j), cmds[j], bs);
    forall k | 0 <= k < BLOCKS_PER_DRAW
      ensures SeenBlock(mem, bulk, used, ViewerBlock(mem, EntryOffset(j), k), records[j].data[k])
    {
      ViewerReads(mem, EntryOffset(j), cmds[j], bs, k);
      assert GoodBlock(bulk, 0, used, bs[k]);
      assert BlockCarries(mem, bulk, bs[k], records[j].data[k]);
    }
  }

  lemma {:induction false} EntryInside(mem: seq<byte>, at: nat, c: Command, bs: seq<Block>)
    requires Sized(c) && EntryAt(mem, at, c, bs)
    ensures at + ENTRY_BYTES <= |mem|
  {
  }

  lemma {:induction false} DeclarationSize(bulk: u32, cmds: seq<Command>, j: nat)
    requires AllSized(cmds) && j < |cmds| && cmds[j].Draw?
    ensures var b := BlocksFor(bulk, cmds, j)[2];
      b.size > 0 ==> b.size == DeclBytes(cmds[j].body)
  {
    var ps := Payloads(cmds[j]);
    assert ps[2].size == DeclBytes(cmds[j].body);
    hide Payloads, Blocks, UsedBefore, Sized;
    if BlocksFor(bulk, cmds, j)[2].size > 0 {
      PlacedNotEmpty(bulk, UsedBefore(bulk, cmds, j), ps, 2);
    }
  }

  // ---------------------------------------------------------------- room in the region

  // The bytes that a frame's payloads take, each rounded up.
  function FrameBytes(calls: seq<Call>): nat {
    if calls == [] then 0
    else FrameBytes(calls[..|calls| - 1]) + CallBytes(calls[|calls| - 1])
  }

  function CallBytes(call: Call): nat {
    match call
    case DrawMade(_, _, wants, _) => Rounded(wants)
    case StretchMade(_) => 0
  }

  // The region is long enough for all of them.
  predicate FrameRoom(calls: seq<Call>) {
    |calls| <= MAX_IPC_DRAWS && BulkOffset(|calls|) + FrameBytes(calls) <= IPC_SIZE
  }

  lemma {:induction false} MoreBytes(calls: seq<Call>, j: nat)
    requires j <= |calls|
    ensures FrameBytes(calls[..j]) <= FrameBytes(calls)
    decreases |calls|
  {
    if j == |calls| {
      assert calls[..j] == calls;
    } else {
      var n := |calls| - 1;
      MoreBytes(calls[..n], j);
      assert calls[..n][..j] == calls[..j];
    }
  }

  // A payload that fits is placed, and the cursor moves by its rounded size at most.
  lemma {:induction false} PlacedWithin(bulk: u32, used: u32, p: Payload, data: seq<byte>, fits: bool)
    requires Accounts(p, data, fits) && bulk + used + AlignUp16(|data|) <= IPC_SIZE
    ensures Advance(bulk, used, p) <= used + AlignUp16(|data|)
    ensures fits ==> BlockOf(bulk, used, p).size == |data|
  {
    hide AlignUp16;
    Add32Small(bulk, used);
    if Takes(bulk, used, p) {
      SmallWord(AlignUp16(p.size));
      Add32Small(used, AlignUp16(p.size));
    } else if p.ref.size > 0 {
      Add32Small(bulk + used, p.size);
    }
  }

  lemma {:induction false} AllPlaced(bulk: u32, used: u32, ps: seq<Payload>, wants: seq<seq<byte>>, fits: bool)
    requires |ps| == |wants| && bulk + used + Rounded(wants) <= IPC_SIZE
    requires forall k :: 0 <= k < |ps| ==> Accounts(ps[k], wants[k], fits)
    ensures UsedAfter(bulk, used, ps) <= used + Rounded(wants)
    ensures fits ==> forall k :: 0 <= k < |ps| ==> Blocks(bulk, used, ps)[k].size == |wants[k]|
    decreases |ps|
  {
    hide Accounts, Advance, BlockOf, AlignUp16;
    if ps != [] {
      PlacedWithin(bulk, used, ps[0], wants[0], fits);
      AllPlaced(bulk, Advance(bulk, used, ps[0]), ps[1..], wants[1..], fits);
      var rest := Blocks(bulk, Advance(bulk, used, ps[0]), ps[1..]);
      if fits {
        forall k | 0 <= k < |ps| ensures Blocks(bulk, used, ps)[k].size == |wants[k]| {
          if k > 0 { assert Blocks(bulk, used, ps)[k] == rest[k - 1] && wants[k] == wants[1..][k - 1]; }
        }
      }
    }
  }

  lemma {:induction false} UsedWithin(bulk: u32, calls: seq<Call>, cmds: seq<Command>, records: seq<Record>, j: nat)
    requires AllStem(calls, cmds, records) && AllSized(cmds) && j <= |calls| && bulk + FrameBytes(calls) <= IPC_SIZE
    ensures UsedBefore(bulk, cmds, j) <= FrameBytes(calls[..j])
    decreases j
  {
    hide Payloads, UsedAfter, Sized, Accounts;
    if j == 0 {
      NothingUsed(bulk, cmds);
    } else {
      UsedWithin(bulk, calls, cmds, records, j - 1);
      MoreBytes(calls, j);
      UsedNext(bulk, cmds, j - 1);
      var used := UsedBefore(bulk, cmds, j - 1);
      assert calls[..j][..j - 1] == calls[..j - 1];
      assert Stems(calls[j - 1], cmds[j - 1], records[j - 1]);
      match calls[j - 1]
      case DrawMade(_, _, wants, fits) => AllPlaced(bulk, used, Payloads(cmds[j - 1]), wants, fits);
      case StretchMade(_) => NoPayloads(bulk, used, cmds[j - 1]);
    }
  }

  lemma {:induction false} NothingUsed(bulk: u32, cmds: seq<Command>)
    requires AllSized(cmds)
    ensures UsedBefore(bulk, cmds, 0) == 0
  {
    assert cmds[..0] == [];
  }

  lemma {:induction false} NoPayloads(bulk: u32, used: u32, c: Command)
    requires c.Stretch? && Sized(c)
    ensures UsedAfter(bulk, used, Payloads(c)) == used
  {
  }

  // In a frame that has room, a draw whose uploads fitted has every payload in the region.
  lemma {:induction false} BlocksWhole(bulk: u32, calls: seq<Call>, cmds: seq<Command>, records: seq<Record>, j: nat)
    requires AllStem(calls, cmds, records) && AllSized(cmds) && j < |calls| && bulk + FrameBytes(calls) <= IPC_SIZE
    requires calls[j].DrawMade? && calls[j].fits
    ensures |calls[j].wants| == BLOCKS_PER_DRAW == |BlocksFor(bulk, cmds, j)|
    ensures forall k :: 0 <= k < BLOCKS_PER_DRAW ==> BlocksFor(bulk, cmds, j)[k].size == |calls[j].wants[k]|
  {
    hide Payloads, UsedAfter, Sized, Accounts, Rounded;
    UsedWithin(bulk, calls, cmds, records, j);
    MoreBytes(calls, j + 1);
    assert calls[..j + 1][..j] == calls[..j];
    assert Stems(calls[j], cmds[j], records[j]);
    AllPlaced(bulk, UsedBefore(bulk, cmds, j), Payloads(cmds[j]), calls[j].wants, true);
  }

  // ---------------------------------------------------------------- a frame that is shown

  // Payload k of the draw entry at a byte offset is empty, or passes the range check and holds
  // the data; when all had room it is the data.
  ghost predicate ShowsPayload(mem: seq<byte>, at: nat, k: nat, data: seq<byte>, whole: bool)
    requires |mem| >= HEADER_BYTES && at + ENTRY_BYTES <= |mem| && k < BLOCKS_PER_DRAW
  {
    var h, b := ReadHeader(mem), ViewerBlock(mem, at, k);
    SeenBlock(mem, h.bulkOffset, h.bulkUsed, b, data) && (whole ==> b.size == |data|)
  }

  // The arguments of a draw, as the viewer reads them.
  function ArgsAt(mem: seq<byte>, at: nat): DrawArgs
    requires at + ENTRY_BYTES <= |mem|
  {
    DrawArgs(Word(mem, at + 4 * Primitive(PrimitiveType).InEntry()), Word(mem, at + 4 * Primitive(BaseVertex).InEntry()),
             Word(mem, at + 4 * Primitive(MinVertexIndex).InEntry()), Word(mem, at + 4 * Primitive(NumVertices).InEntry()),
             Word(mem, at + 4 * Primitive(StartIndex).InEntry()), Word(mem, at + 4 * Primitive(PrimitiveCount).InEntry()))
  }

  ghost predicate ShowsCall(mem: seq<byte>, at: nat, call: Call, room: bool)
    requires |mem| >= HEADER_BYTES
  {
    at + ENTRY_BYTES <= |mem| &&
    match call
    case StretchMade(rects) => |rects| == STRETCH_WORDS && SaysStretch(mem, at, rects)
    case DrawMade(args, body, wants, fits) =>
      && |body| == DRAW_WORDS && |wants| == BLOCKS_PER_DRAW
      && SaysDraw(mem, at, body) && ArgsAt(mem, at) == args
      && forall k :: 0 <= k < BLOCKS_PER_DRAW ==> ShowsPayload(mem, at, k, wants[k], fits && room)
  }

  // The bytes are this frame: its header, and one entry for every call, in order.
  ghost predicate Shows(mem: seq<byte>, sh: Shown) {
    && |mem| >= HEADER_BYTES && HeaderOk(ReadHeader(mem)) && TellsHeader(sh, ReadHeader(mem))
    && ReadHeader(mem).drawCount == |sh.calls|
    && forall j :: 0 <= j < |sh.calls| ==> ShowsCall(mem, EntryOffset(j), sh.calls[j], FrameRoom(sh.calls))
  }

  lemma {:induction false} ArgsSaid(mem: seq<byte>, at: nat, body: Body)
    requires |body| == DRAW_WORDS && SaysDraw(mem, at, body)
    ensures ArgsAt(mem, at) == DrawArgs(body[PRIMITIVE_TYPE], body[BASE_VERTEX], body[MIN_VERTEX_INDEX], body[NUM_VERTICES],
                                        body[START_INDEX], body[PRIMITIVE_COUNT])
  {
    hide Word;
    assert DrawValue(body, Primitive(PrimitiveType)) == body[PRIMITIVE_TYPE];
    assert DrawValue(body, Primitive(BaseVertex)) == body[BASE_VERTEX];
    assert DrawValue(body, Primitive(MinVertexIndex)) == body[MIN_VERTEX_INDEX];
    assert DrawValue(body, Primitive(NumVertices)) == body[NUM_VERTICES];
    assert DrawValue(body, Primitive(StartIndex)) == body[START_INDEX];
    assert DrawValue(body, Primitive(PrimitiveCount)) == body[PRIMITIVE_COUNT];
    hide DrawField.InEntry, DrawValue;
  }

  lemma {:induction false} StretchShown(mem: seq<byte>, calls: seq<Call>, cmds: seq<Command>, records: seq<Record>,
                                        j: nat)
    requires AllStem(calls, cmds, records) && AllSized(cmds) && FrameFaithful(mem, cmds, records) && j < |calls|
    requires calls[j].StretchMade?
    ensures ShowsCall(mem, EntryOffset(j), calls[j], FrameRoom(calls))
  {
    assert Stems(calls[j], cmds[j], records[j]);
    var h := ReadHeader(mem);
    assert CommandFaithful(mem, h.bulkOffset, h.bulkUsed, cmds, records, j);
    hide ReadHeader, EntryWord, Word, Sized, SaysStretch, BlocksFor;
    EntryInside(mem, EntryOffset(j), cmds[j], BlocksFor(h.bulkOffset, cmds, j));
    EntrySaysStretch(mem, EntryOffset(j), calls[j].rects, BlocksFor(h.bulkOffset, cmds, j));
  }

  lemma {:induction false} DrawShown(mem: seq<byte>, calls: seq<Call>, cmds: seq<Command>, records: seq<Record>, j: nat)
    requires AllStem(calls, cmds, records) && AllSized(cmds) && FrameFaithful(mem, cmds, records) && j < |calls|
    requires calls[j].DrawMade?
    ensures ShowsCall(mem, EntryOffset(j), calls[j], FrameRoom(calls))
  {
    assert Stems(calls[j], cmds[j], records[j]);
    var h := ReadHeader(mem);
    var at, call := EntryOffset(j), calls[j];
    assert CommandFaithful(mem, h.bulkOffset, h.bulkUsed, cmds, records, j);
    FaithfulIsSeen(mem, cmds, records, j);
    hide ReadHeader, EntryAt, SeenBlock, Word, Sized, SaysDraw, BlocksFor, Payloads, FrameRoom, ViewerBlock, HeaderOk;
    var bs := BlocksFor(h.bulkOffset, cmds, j);
    EntrySaysDraw(mem, at, call.body, bs);
    ArgsSaid(mem, at, call.body);
    forall k | 0 <= k < BLOCKS_PER_DRAW ensures ShowsPayload(mem, at, k, call.wants[k], call.fits && FrameRoom(calls)) {
      if call.fits && FrameRoom(calls) { PayloadWhole(mem, calls, cmds, records, j, k); }
    }
  }

  lemma {:induction false} PayloadWhole(mem: seq<byte>, calls: seq<Call>, cmds: seq<Command>, records: seq<Record>,
                                        j: nat, k: nat)
    requires AllStem(calls, cmds, records) && AllSized(cmds) && FrameFaithful(mem, cmds, records) && j < |calls|
    requires calls[j].DrawMade? && calls[j].fits && FrameRoom(calls) && k < BLOCKS_PER_DRAW
    ensures |calls[j].wants| == BLOCKS_PER_DRAW && EntryOffset(j) + ENTRY_BYTES <= |mem|
    ensures ViewerBlock(mem, EntryOffset(j), k).size == |calls[j].wants[k]|
  {
    assert Stems(calls[j], cmds[j], records[j]);
    var h := ReadHeader(mem);
    assert CommandFaithful(mem, h.bulkOffset, h.bulkUsed, cmds, records, j);
    hide ReadHeader, EntryAt, Sized, Payloads, ViewerBlock, HeaderOk, FrameBytes, Accounts;
    BlocksWhole(h.bulkOffset, calls, cmds, records, j);
    DeclarationSize(h.bulkOffset, cmds, j);
    hide BlocksFor;
    EntryInside(mem, EntryOffset(j), cmds[j], BlocksFor(h.bulkOffset, cmds, j));
    ViewerReads(mem, EntryOffset(j), cmds[j], BlocksFor(h.bulkOffset, cmds, j), k);
  }

  /** A frame whose commands stem from calls shows those calls: every field of every entry, every
      payload's bytes, and, when there was room for all of them, every payload. */
  lemma {:induction false} FaithfulShows(mem: seq<byte>, sh: Shown, cmds: seq<Command>, records: seq<Record>)
    requires AllSized(cmds) && FrameFaithful(mem, cmds, records) && AllStem(sh.calls, cmds, records)
    requires TellsHeader(sh, ReadHeader(mem))
    ensures Shows(mem, sh)
  {
    hide ReadHeader, CommandFaithful, Stems, ShowsCall, Sized, TellsHeader, HeaderOk;
    forall j | 0 <= j < |sh.calls| ensures ShowsCall(mem, EntryOffset(j), sh.calls[j], FrameRoom(sh.calls)) {
      if sh.calls[j].DrawMade? { DrawShown(mem, sh.calls, cmds, records, j); }
      else { StretchShown(mem, sh.calls, cmds, records, j); }
    }
  }
}
