/**
  Publishing a frame: the assembly loop that writes header, entries and bulk blocks into the
  shared-memory region, and what the region then holds.
 */
module FrameAssembly {
  import opened Options
  import opened Words
  import opened Packets
  import opened Replay
  import opened UploadArena
  import opened FrameLayout
  import opened FnvHash
  import opened ReplayHash
  import opened ReplayProperties

  // ---------------------------------------------------------------- what the region holds

  // The bytes a payload is copied from.
  function SourceBytes(arena: seq<byte>, p: Payload): seq<byte>
    requires Base(p.ref) + p.size <= |arena|
  {
    arena[Base(p.ref)..Base(p.ref) + p.size]
  }

  ghost predicate Holding(mem: seq<byte>, at: nat, data: seq<byte>) {
    at + |data| <= |mem| && mem[at..at + |data|] == data
  }

  // Every placed block holds its payload's bytes.
  ghost predicate BlocksIn(mem: seq<byte>, bulk: u32, bs: seq<Block>, ps: seq<Payload>, arena: seq<byte>) {
    |bs| == |ps| && forall k :: 0 <= k < |bs| && bs[k].size > 0 ==>
      && bs[k].size == ps[k].size && Base(ps[k].ref) + ps[k].size <= |arena|
      && Holding(mem, bulk + bs[k].offset, SourceBytes(arena, ps[k]))
  }

  predicate AllSized(cmds: seq<Command>) {
    forall k :: 0 <= k < |cmds| ==> Sized(cmds[k])
  }

  predicate Transportable(cmds: seq<Command>) {
    AllSized(cmds) && forall k :: 0 <= k < |cmds| ==> AllBacked(Payloads(cmds[k]))
  }

  function UsedBefore(bulk: u32, cmds: seq<Command>, j: nat): u32
    requires AllSized(cmds) && j <= |cmds|
  {
    UsedAfter(bulk, 0, AllPayloads(cmds[..j]))
  }

  // The blocks of command j.
  function BlocksFor(bulk: u32, cmds: seq<Command>, j: nat): (bs: seq<Block>)
    requires AllSized(cmds) && j < |cmds|
    ensures |bs| == |Payloads(cmds[j])|
  {
    Blocks(bulk, UsedBefore(bulk, cmds, j), Payloads(cmds[j]))
  }

  function EntryOffset(j: nat): nat {
    HEADER_BYTES + ENTRY_BYTES * j
  }

  // Command j is in the region: its entry, and its blocks below the bulk cursor.
  ghost predicate CommandIn(mem: seq<byte>, arena: seq<byte>, bulk: u32, used: u32, cmds: seq<Command>, j: nat)
    requires AllSized(cmds) && j < |cmds|
  {
    && EntryAt(mem, EntryOffset(j), cmds[j], BlocksFor(bulk, cmds, j))
    && AllGood(bulk, 0, used, BlocksFor(bulk, cmds, j))
    && BlocksIn(mem, bulk, BlocksFor(bulk, cmds, j), Payloads(cmds[j]), arena)
  }

  // The region holds the commands: this is what a published frame is.
  ghost predicate FrameIn(mem: seq<byte>, arena: seq<byte>, cmds: seq<Command>)
    requires AllSized(cmds)
  {
    && |cmds| <= MAX_IPC_DRAWS && |mem| == IPC_SIZE
    && var bulk, h := BulkOffset(|cmds|), ReadHeader(mem);
       && HeaderOk(h) && h.drawCount == |cmds| && h.bulkOffset == bulk
       && h.bulkUsed == UsedBefore(bulk, cmds, |cmds|)
       && forall j :: 0 <= j < |cmds| ==> CommandIn(mem, arena, bulk, h.bulkUsed, cmds, j)
  }

  // ---------------------------------------------------------------- frames of writes

  lemma {:induction false} UsedJoin(bulk: u32, used: u32, a: seq<Payload>, b: seq<Payload>)
    ensures UsedAfter(bulk, used, a + b) == UsedAfter(bulk, UsedAfter(bulk, used, a), b)
    decreases |a|
  {
    if a == [] {
      assert a + b == b;
    } else {
      assert (a + b)[1..] == a[1..] + b;
      UsedJoin(bulk, Advance(bulk, used, a[0]), a[1..], b);
    }
  }

  lemma {:induction false} AllPayloadsJoin(a: seq<Command>, b: seq<Command>)
    requires AllSized(a) && AllSized(b)
    ensures AllSized(a + b) && AllPayloads(a + b) == AllPayloads(a) + AllPayloads(b)
  {
    hide Payloads, Sized;
    if a == [] {
      assert a + b == b;
    } else {
      assert (a + b)[1..] == a[1..] + b;
      AllPayloadsJoin(a[1..], b);
    }
  }

  lemma {:induction false} UsedNext(bulk: u32, cmds: seq<Command>, j: nat)
    requires AllSized(cmds) && j < |cmds|
    ensures UsedBefore(bulk, cmds, j + 1) == UsedAfter(bulk, UsedBefore(bulk, cmds, j), Payloads(cmds[j]))
  {
    hide Payloads, UsedAfter, Sized;
    assert cmds[..j + 1] == cmds[..j] + [cmds[j]];
    AllPayloadsJoin(cmds[..j], [cmds[j]]);
    assert AllPayloads([cmds[j]]) == Payloads(cmds[j]) by { OnePayloads(cmds[j]); }
    UsedJoin(bulk, 0, AllPayloads(cmds[..j]), Payloads(cmds[j]));
  }

  lemma {:induction false} OnePayloads(c: Command)
    requires Sized(c)
    ensures AllPayloads([c]) == Payloads(c)
  {
    hide Payloads;
    assert AllPayloads([c]) == Payloads(c) + AllPayloads([]);
  }

  // Two memories agree on a range.
  ghost predicate Agree(m: seq<byte>, n: seq<byte>, lo: nat, hi: nat) {
    |m| == |n| && forall k :: lo <= k < hi && k < |m| ==> m[k] == n[k]
  }

  lemma {:induction false} HoldingStays(m: seq<byte>, n: seq<byte>, lo: nat, hi: nat, at: nat, data: seq<byte>)
    requires Holding(m, at, data) && Agree(m, n, lo, hi) && lo <= at && at + |data| <= hi
    ensures Holding(n, at, data)
  {
    assert n[at..at + |data|] == m[at..at + |data|];
  }

  lemma {:induction false} BlocksStay(m: seq<byte>, n: seq<byte>, bulk: u32, used: u32, bs: seq<Block>, ps: seq<Payload>, arena: seq<byte>)
    requires BlocksIn(m, bulk, bs, ps, arena) && AllGood(bulk, 0, used, bs) && Agree(m, n, bulk, bulk + used)
    ensures BlocksIn(n, bulk, bs, ps, arena)
  {
    hide Holding;
    forall k | 0 <= k < |bs| && bs[k].size > 0
      ensures Holding(n, bulk + bs[k].offset, SourceBytes(arena, ps[k]))
    {
      assert GoodBlock(bulk, 0, used, bs[k]);
      HoldingStays(m, n, bulk, bulk + used, bulk + bs[k].offset, SourceBytes(arena, ps[k]));
    }
  }

  lemma {:induction false} EntryStays(m: seq<byte>, n: seq<byte>, at: nat, c: Command, bs: seq<Block>)
    requires Sized(c) && EntryAt(m, at, c, bs) && Agree(m, n, at, at + ENTRY_BYTES)
    ensures EntryAt(n, at, c, bs)
  {
    hide EntryWord;
    forall k | 0 <= k < ENTRY_WORDS ensures Word(n, at + 4 * k) == EntryWord(c, bs, k) {
      assert Word(m, at + 4 * k) == EntryWord(c, bs, k);
      SameWord(m, n, at + 4 * k);
    }
  }

  lemma {:induction false} SameWord(m: seq<byte>, n: seq<byte>, at: nat)
    requires |m| == |n| && at + 4 <= |m| && Agree(m, n, at, at + 4)
    ensures Word(n, at) == Word(m, at)
  {
  }

  lemma {:induction false} CommandStays(m: seq<byte>, n: seq<byte>, arena: seq<byte>, bulk: u32, used: u32, end: u32,
                     cmds: seq<Command>, j: nat)
    requires AllSized(cmds) && j < |cmds| && used <= end
    requires CommandIn(m, arena, bulk, used, cmds, j)
    requires Agree(m, n, EntryOffset(j), EntryOffset(j + 1)) && Agree(m, n, bulk, bulk + used)
    ensures CommandIn(n, arena, bulk, end, cmds, j)
  {
    hide BlocksFor, BlocksIn, EntryAt, Agree, Sized;
    var bs := BlocksFor(bulk, cmds, j);
    EntryStays(m, n, EntryOffset(j), cmds[j], bs);
    BlocksStay(m, n, bulk, used, bs, Payloads(cmds[j]), arena);
    WiderGood(bulk, 0, used, end, bs);
  }

  lemma {:induction false} WiderGood(bulk: u32, lo: u32, hi: u32, end: u32, bs: seq<Block>)
    requires AllGood(bulk, lo, hi, bs) && hi <= end
    ensures AllGood(bulk, 0, end, bs)
  {
    forall k | 0 <= k < |bs| ensures GoodBlock(bulk, 0, end, bs[k]) {
      assert GoodBlock(bulk, lo, hi, bs[k]);
    }
  }

  // ---------------------------------------------------------------- writing

  lemma {:induction false} WriteAgrees(m: seq<byte>, at: nat, data: seq<byte>, lo: nat, hi: nat)
    requires at + |data| <= |m| && (hi <= at || at + |data| <= lo)
    ensures Agree(m, Write(m, at, data), lo, hi)
  {
  }

  lemma {:induction false} AgreeTwice(l: seq<byte>, m: seq<byte>, n: seq<byte>, lo: nat, hi: nat)
    requires Agree(l, m, lo, hi) && Agree(m, n, lo, hi)
    ensures Agree(l, n, lo, hi)
  {
  }

  lemma {:induction false} AgreeWithin(m: seq<byte>, n: seq<byte>, lo: nat, hi: nat, lo': nat, hi': nat)
    requires Agree(m, n, lo, hi) && lo <= lo' && hi' <= hi
    ensures Agree(m, n, lo', hi')
  {
  }

  lemma {:induction false} WordWritten(m: seq<byte>, at: nat, w: u32)
    requires at + 4 <= |m|
    ensures Word(Write(m, at, WordBytes(w)), at) == w
  {
    var n := Write(m, at, WordBytes(w));
    var b := WordBytes(w);
    hide WordBytes, Write;
    assert n[at] == b[0] && n[at + 1] == b[1] && n[at + 2] == b[2] && n[at + 3] == b[3];
  }

  method WriteWord(region: array<byte>, at: nat, w: u32)
    requires at + 4 <= region.Length
    modifies region
    ensures region[..] == Write(old(region[..]), at, WordBytes(w))
    ensures Word(region[..], at) == w
    ensures Agree(old(region[..]), region[..], 0, at) && Agree(old(region[..]), region[..], at + 4, region.Length)
  {
    WordWritten(region[..], at, w);
    hide WordBytes, Word;
    CopyInto(region, at, WordBytes(w));
  }

  // ---------------------------------------------------------------- stores, one after the other

  // A store to the region: a word or a run of bytes.
  datatype Stored = Stored(at: nat, data: seq<byte>)

  // Inside the region, and away from the sequence number.
  predicate Outside(s: Stored) {
    s.at + |s.data| <= IPC_SIZE && (s.at + |s.data| <= 4 || 8 <= s.at)
  }

  predicate AllOutside(stores: seq<Stored>) {
    forall k :: 0 <= k < |stores| ==> Outside(stores[k])
  }

  function Apply(mem: seq<byte>, stores: seq<Stored>): (r: seq<byte>)
    requires |mem| == IPC_SIZE && AllOutside(stores)
    ensures |r| == IPC_SIZE
    decreases |stores|
  {
    if stores == [] then mem
    else
      assert Outside(stores[0]);
      Apply(Write(mem, stores[0].at, stores[0].data), stores[1..])
  }

  // The stores, none of which touches the sequence number, turn m into n.
  ghost predicate Leads(m: seq<byte>, stores: seq<Stored>, n: seq<byte>) {
    |m| == IPC_SIZE && AllOutside(stores) && n == Apply(m, stores)
  }

  lemma {:induction false} LeadsNowhere(m: seq<byte>)
    requires |m| == IPC_SIZE
    ensures Leads(m, [], m)
  {
  }

  lemma {:induction false} LeadsJoin(l: seq<byte>, a: seq<Stored>, m: seq<byte>, b: seq<Stored>, n: seq<byte>)
    requires Leads(l, a, m) && Leads(m, b, n)
    ensures Leads(l, a + b, n)
    decreases |a|
  {
    hide Outside, Write;
    if a == [] {
      assert a + b == b;
    } else {
      assert Outside(a[0]);
      assert (a + b)[1..] == a[1..] + b;
      OutsideFits(a[0]);
      LeadsJoin(Write(l, a[0].at, a[0].data), a[1..], m, b, n);
    }
  }

  lemma {:induction false} OutsideFits(s: Stored)
    requires Outside(s)
    ensures s.at + |s.data| <= IPC_SIZE
  {
  }

  lemma {:induction false} LeadsMore(l: seq<byte>, a: seq<Stored>, m: seq<byte>, at: nat, data: seq<byte>)
    requires Leads(l, a, m) && Outside(Stored(at, data))
    ensures |m| == IPC_SIZE && Leads(l, a + [Stored(at, data)], Write(m, at, data))
  {
    OutsideFits(Stored(at, data));
    var n := Write(m, at, data);
    assert [Stored(at, data)][1..] == [];
    assert Apply(n, []) == n;
    assert Leads(m, [Stored(at, data)], n);
    LeadsJoin(l, a, m, [Stored(at, data)], n);
  }

  /** The words of a draw entry. */
  method WriteEntry(region: array<byte>, at: nat, c: Command, bs: seq<Block>) returns (ghost stores: seq<Stored>)
    requires HEADER_BYTES <= at && at + ENTRY_BYTES <= region.Length == IPC_SIZE && Sized(c)
    modifies region
    ensures Leads(old(region[..]), stores, region[..])
    ensures EntryAt(region[..], at, c, bs)
    ensures Agree(old(region[..]), region[..], 0, at)
    ensures Agree(old(region[..]), region[..], at + ENTRY_BYTES, region.Length)
  {
    hide EntryWord, WordBytes, Sized, Leads, Write;
    stores := [];
    LeadsNowhere(region[..]);
    for k := 0 to ENTRY_WORDS
      invariant Leads(old(region[..]), stores, region[..])
      invariant forall j :: 0 <= j < k ==> Word(region[..], at + 4 * j) == EntryWord(c, bs, j)
      invariant Agree(old(region[..]), region[..], 0, at)
      invariant Agree(old(region[..]), region[..], at + ENTRY_BYTES, region.Length)
    {
      ghost var before := region[..];
      WriteWord(region, at + 4 * k, EntryWord(c, bs, k));
      ghost var after := region[..];
      LeadsMore(old(region[..]), stores, before, at + 4 * k, WordBytes(EntryWord(c, bs, k)));
      stores := stores + [Stored(at + 4 * k, WordBytes(EntryWord(c, bs, k)))];
      hide Word;
      forall j | 0 <= j < k ensures Word(after, at + 4 * j) == EntryWord(c, bs, j) {
        AgreeWithin(before, after, 0, at + 4 * k, at + 4 * j, at + 4 * j + 4);
        SameWord(before, after, at + 4 * j);
      }
      AgreeWithin(before, after, 0, at + 4 * k, 0, at);
      AgreeTwice(old(region[..]), before, after, 0, at);
      AgreeWithin(before, after, at + 4 * k + 4, region.Length, at + ENTRY_BYTES, region.Length);
      AgreeTwice(old(region[..]), before, after, at + ENTRY_BYTES, region.Length);
    }
  }

  lemma {:induction false} BlocksNext(bulk: u32, used: u32, ps: seq<Payload>, k: nat)
    requires k < |ps|
    ensures Blocks(bulk, used, ps[..k + 1])
         == Blocks(bulk, used, ps[..k]) + [BlockOf(bulk, UsedAfter(bulk, used, ps[..k]), ps[k])]
    ensures UsedAfter(bulk, used, ps[..k + 1]) == Advance(bulk, UsedAfter(bulk, used, ps[..k]), ps[k])
    decreases k
  {
    hide BlockOf, Advance;
    if k == 0 {
      assert ps[..1] == [ps[0]];
      assert ps[..1][1..] == [] && ps[..0] == [];
    } else {
      assert ps[..k + 1][1..] == ps[1..][..k] && ps[..k][1..] == ps[1..][..k - 1];
      BlocksNext(bulk, Advance(bulk, used, ps[0]), ps[1..], k - 1);
    }
  }

  lemma {:induction false} PrefixBacked(ps: seq<Payload>, k: nat)
    requires AllBacked(ps) && k <= |ps|
    ensures AllBacked(ps[..k])
  {
  }

  // One more block: its bytes were just written at the cursor.
  lemma {:induction false} BlockAdded(m: seq<byte>, n: seq<byte>, bulk: u32, used: u32, next: u32, bs: seq<Block>, ps: seq<Payload>,
                   arena: seq<byte>, b: Block, p: Payload)
    requires BlocksIn(m, bulk, bs, ps, arena) && AllGood(bulk, 0, used, bs) && Agree(m, n, bulk, bulk + used)
    requires b.size > 0 ==>
      b.size == p.size && Base(p.ref) + p.size <= |arena| && Holding(n, bulk + b.offset, SourceBytes(arena, p))
    ensures BlocksIn(n, bulk, bs + [b], ps + [p], arena)
  {
    BlocksStay(m, n, bulk, used, bs, ps, arena);
    hide Holding, Agree, AllGood;
  }

  /** The copies of one command's payloads, in order, each when it has bytes and fits. */
  method CopyPayloads(region: array<byte>, arena: array<byte>, bulk: u32, used: u32, ps: seq<Payload>)
    returns (bs: seq<Block>, end: u32, ghost stores: seq<Stored>)
    requires region != arena && region.Length == IPC_SIZE && arena.Length == SLOTS * SLOT_BYTES
    requires Room(bulk, used) && HEADER_BYTES <= bulk && AllBacked(ps)
    modifies region
    ensures Leads(old(region[..]), stores, region[..])
    ensures bs == Blocks(bulk, used, ps) && end == UsedAfter(bulk, used, ps)
    ensures BlocksIn(region[..], bulk, bs, ps, arena[..])
    ensures Agree(old(region[..]), region[..], 0, bulk + used)
  {
    hide Backed, Room, Takes, BlockOf, BlocksIn, Holding, AllGood, Agree, GoodBlock, Leads;
    bs, end, stores := [], used, [];
    LeadsNowhere(region[..]);
    BlocksInNothing(region[..], bulk, arena[..]);
    AgreeSelf(region[..], 0, bulk + used);
    assert ps[..0] == [];
    for k := 0 to |ps|
      invariant bs == Blocks(bulk, used, ps[..k]) && end == UsedAfter(bulk, used, ps[..k])
      invariant BlocksIn(region[..], bulk, bs, ps[..k], arena[..])
      invariant Agree(old(region[..]), region[..], 0, bulk + used)
      invariant Leads(old(region[..]), stores, region[..])
    {
      var p := ps[k];
      PrefixBacked(ps, k);
      LayoutSound(bulk, used, ps[..k]);
      BlocksNext(bulk, used, ps, k);
      assert ps[..k + 1] == ps[..k] + [p];
      WiderGood(bulk, used, end, end, bs);
      ghost var before := region[..];
      var b, next, more := CopyPayload(region, arena, bulk, used, end, bs, ps[..k], p);
      AgreeTwice(old(region[..]), before, region[..], 0, bulk + used);
      LeadsJoin(old(region[..]), stores, before, more, region[..]);
      bs, end, stores := bs + [b], next, stores + more;
    }
    assert ps[..|ps|] == ps;
  }

  lemma {:induction false} BlocksInNothing(mem: seq<byte>, bulk: u32, arena: seq<byte>)
    ensures BlocksIn(mem, bulk, [], [], arena)
  {
  }

  lemma {:induction false} AgreeSelf(mem: seq<byte>, lo: nat, hi: nat)
    ensures Agree(mem, mem, lo, hi)
  {
  }

  // One payload at the cursor.
  method CopyPayload(region: array<byte>, arena: array<byte>, bulk: u32, start: u32, used: u32,
                     ghost bs: seq<Block>, ghost ps: seq<Payload>, p: Payload)
    returns (b: Block, next: u32, ghost stores: seq<Stored>)
    requires region != arena && region.Length == IPC_SIZE && arena.Length == SLOTS * SLOT_BYTES
    requires Room(bulk, used) && HEADER_BYTES <= bulk && start <= used && Backed(p)
    requires BlocksIn(region[..], bulk, bs, ps, arena[..]) && AllGood(bulk, 0, used, bs)
    modifies region
    ensures Leads(old(region[..]), stores, region[..])
    ensures b == BlockOf(bulk, used, p) && next == Advance(bulk, used, p)
    ensures BlocksIn(region[..], bulk, bs + [b], ps + [p], arena[..])
    ensures Agree(old(region[..]), region[..], 0, bulk + start)
  {
    hide BlocksIn, AllGood, Agree, Resolve, Base, Room, Leads;
    ghost var before := region[..];
    LeadsNowhere(before);
    stores := [];
    ghost var source := arena[..];
    PlaceOne(bulk, used, p);
    b, next := Block(0, 0), used;
    AgreeSelf(before, 0, bulk + used);
    if Takes(bulk, used, p) {
      b := Block(used, p.size);
      next := Add32(used, Align32(p.size));
      CopyInto(region, bulk + used, arena[Base(p.ref)..Base(p.ref) + p.size]);
      WriteHere(before, bulk + used, SourceBytes(source, p));
      WriteAgrees(before, bulk + used, SourceBytes(source, p), 0, bulk + used);
      LeadsMore(before, [], before, bulk + used, SourceBytes(source, p));
      stores := [] + [Stored(bulk + used, SourceBytes(source, p))];
    }
    AgreeWithin(before, region[..], 0, bulk + used, bulk, bulk + used);
    AgreeWithin(before, region[..], 0, bulk + used, 0, bulk + start);
    BlockAdded(before, region[..], bulk, used, next, bs, ps, source, b, p);
  }

  // The region after the commands before i were written.
  ghost predicate Assembled(mem: seq<byte>, arena: seq<byte>, bulk: u32, used: u32, cmds: seq<Command>, i: nat)
    requires AllSized(cmds) && i <= |cmds|
  {
    forall j :: 0 <= j < i ==> CommandIn(mem, arena, bulk, used, cmds, j)
  }

  lemma {:induction false} AssembledStays(m: seq<byte>, n: seq<byte>, arena: seq<byte>, bulk: u32, used: u32, cmds: seq<Command>, i: nat)
    requires AllSized(cmds) && i <= |cmds| && Assembled(m, arena, bulk, used, cmds, i)
    requires Agree(m, n, HEADER_BYTES, EntryOffset(i)) && Agree(m, n, bulk, bulk + used)
    ensures Assembled(n, arena, bulk, used, cmds, i)
  {
    hide CommandIn, Agree, AllSized;
    forall j | 0 <= j < i ensures CommandIn(n, arena, bulk, used, cmds, j) {
      AgreeWithin(m, n, HEADER_BYTES, EntryOffset(i), EntryOffset(j), EntryOffset(j + 1));
      CommandStays(m, n, arena, bulk, used, used, cmds, j);
    }
  }

  // Command i is added: its blocks were copied at the cursor, then its entry was written.
  lemma {:induction false} AssembledNext(m0: seq<byte>, m1: seq<byte>, m2: seq<byte>, arena: seq<byte>, bulk: u32, used: u32, end: u32,
                      cmds: seq<Command>, i: nat)
    requires Transportable(cmds) && i < |cmds| && used <= end
    requires Assembled(m0, arena, bulk, used, cmds, i)
    requires EntryOffset(i + 1) <= bulk
    requires Agree(m0, m1, 0, bulk + used)
    requires Agree(m1, m2, 0, EntryOffset(i)) && Agree(m1, m2, EntryOffset(i + 1), bulk + end)
    requires BlocksIn(m1, bulk, BlocksFor(bulk, cmds, i), Payloads(cmds[i]), arena)
    requires AllGood(bulk, 0, end, BlocksFor(bulk, cmds, i))
    requires EntryAt(m2, EntryOffset(i), cmds[i], BlocksFor(bulk, cmds, i))
    ensures Assembled(m2, arena, bulk, end, cmds, i + 1)
  {
    hide BlocksIn, BlocksFor, EntryAt, Agree, Payloads, AllGood, AllBacked;
    AgreeWithin(m0, m1, 0, bulk + used, HEADER_BYTES, EntryOffset(i));
    AgreeWithin(m1, m2, 0, EntryOffset(i), HEADER_BYTES, EntryOffset(i));
    AgreeTwice(m0, m1, m2, HEADER_BYTES, EntryOffset(i));
    AgreeWithin(m0, m1, 0, bulk + used, bulk, bulk + used);
    AgreeWithin(m1, m2, EntryOffset(i + 1), bulk + end, bulk, bulk + end);
    AgreeWithin(m1, m2, EntryOffset(i + 1), bulk + end, bulk, bulk + used);
    AgreeTwice(m0, m1, m2, bulk, bulk + used);
    BlocksStay(m1, m2, bulk, end, BlocksFor(bulk, cmds, i), Payloads(cmds[i]), arena);
    forall j | 0 <= j < i + 1 ensures CommandIn(m2, arena, bulk, end, cmds, j) {
      if j < i {
        assert CommandIn(m0, arena, bulk, used, cmds, j);
        AgreeWithin(m0, m2, HEADER_BYTES, EntryOffset(i), EntryOffset(j), EntryOffset(j + 1));
        CommandStays(m0, m2, arena, bulk, used, end, cmds, j);
      }
    }
  }

  /** The assembly loop over the draw commands. */
  method AssembleDraws(region: array<byte>, arena: array<byte>, cmds: seq<Command>)
    returns (used: u32, ghost stores: seq<Stored>)
    requires region != arena && region.Length == IPC_SIZE && arena.Length == SLOTS * SLOT_BYTES
    requires |cmds| <= MAX_IPC_DRAWS && Transportable(cmds)
    modifies region
    ensures Leads(old(region[..]), stores, region[..])
    ensures var bulk := BulkOffset(|cmds|);
      && Room(bulk, used) && used == UsedBefore(bulk, cmds, |cmds|)
      && Assembled(region[..], arena[..], bulk, used, cmds, |cmds|)
    ensures Agree(old(region[..]), region[..], 0, HEADER_BYTES)
  {
    hide CommandIn, Agree, EntryAt, BlocksIn, AllGood, Sized, AllBacked, Payloads, Room, Backed, Leads;
    var bulk := BulkOffset(|cmds|);
    used, stores := 0, [];
    LeadsNowhere(region[..]);
    StartRoom(bulk);
    AgreeSelf(region[..], 0, HEADER_BYTES);
    assert cmds[..0] == [];
    for i := 0 to |cmds|
      invariant Room(bulk, used) && used == UsedBefore(bulk, cmds, i)
      invariant Assembled(region[..], arena[..], bulk, used, cmds, i)
      invariant Agree(old(region[..]), region[..], 0, HEADER_BYTES)
      invariant Leads(old(region[..]), stores, region[..])
    {
      var ps := Payloads(cmds[i]);
      ghost var m0 := region[..];
      UsedNext(bulk, cmds, i);
      LayoutSound(bulk, used, ps);
      var bs, end, blocks := CopyPayloads(region, arena, bulk, used, ps);
      ghost var m1 := region[..];
      ghost var words := WriteEntry(region, EntryOffset(i), cmds[i], bs);
      LeadsJoin(m0, blocks, m1, words, region[..]);
      LeadsJoin(old(region[..]), stores, m0, blocks + words, region[..]);
      stores := stores + (blocks + words);
      WiderGood(bulk, used, end, end, bs);
      EntryStep(i, |cmds|, bulk);
      RoomFits(bulk, end);
      AgreeWithin(m1, region[..], EntryOffset(i + 1), region.Length, EntryOffset(i + 1), bulk + end);
      AssembledNext(m0, m1, region[..], arena[..], bulk, used, end, cmds, i);
      AgreeWithin(m0, m1, 0, bulk + used, 0, HEADER_BYTES);
      AgreeWithin(m1, region[..], 0, EntryOffset(i), 0, HEADER_BYTES);
      AgreeTwice(m0, m1, region[..], 0, HEADER_BYTES);
      AgreeTwice(old(region[..]), m0, region[..], 0, HEADER_BYTES);
      used := end;
    }
  }

  lemma {:induction false} StartRoom(bulk: u32)
    requires bulk % 16 == 0 && bulk <= IPC_SIZE
    ensures Room(bulk, 0)
  {
  }

  lemma {:induction false} RoomFits(bulk: u32, used: u32)
    requires Room(bulk, used)
    ensures bulk + used <= IPC_SIZE
  {
  }

  lemma {:induction false} EntryStep(i: nat, count: nat, bulk: u32)
    requires i < count && HEADER_BYTES + ENTRY_BYTES * count <= bulk
    ensures EntryOffset(i + 1) == EntryOffset(i) + ENTRY_BYTES <= bulk
  {
  }

  // ---------------------------------------------------------------- present

  // The commands that go into the region: the first ones stored, in order.
  function Sent(f: Frame): seq<Command> {
    if |f.draws| > MAX_IPC_DRAWS then f.draws[..MAX_IPC_DRAWS] else f.draws
  }

  // The header fields from width on.
  function HeaderFields(width: u32, height: u32, clear: Clear, haveClear: bool, count: u32, hash: u32, frameId: u32,
                        target: u32, bulk: u32, used: u32): seq<u32> {
    [width, height, clear.color, clear.flags, clear.z, clear.stencil, if haveClear then 1 else 0, count, hash, frameId,
     target, bulk, used]
  }

  method WriteHeaderFields(region: array<byte>, fields: seq<u32>) returns (ghost stores: seq<Stored>)
    requires region.Length == IPC_SIZE && |fields| == 13
    modifies region
    ensures Leads(old(region[..]), stores, region[..])
    ensures forall k :: 0 <= k < 13 ==> Word(region[..], 8 + 4 * k) == fields[k]
    ensures Agree(old(region[..]), region[..], 0, 8)
    ensures Agree(old(region[..]), region[..], HEADER_BYTES, region.Length)
  {
    hide WordBytes, Leads, Write;
    stores := [];
    LeadsNowhere(region[..]);
    for k := 0 to 13
      invariant Leads(old(region[..]), stores, region[..])
      invariant forall j :: 0 <= j < k ==> Word(region[..], 8 + 4 * j) == fields[j]
      invariant Agree(old(region[..]), region[..], 0, 8)
      invariant Agree(old(region[..]), region[..], HEADER_BYTES, region.Length)
    {
      ghost var before := region[..];
      WriteWord(region, 8 + 4 * k, fields[k]);
      ghost var after := region[..];
      LeadsMore(old(region[..]), stores, before, 8 + 4 * k, WordBytes(fields[k]));
      stores := stores + [Stored(8 + 4 * k, WordBytes(fields[k]))];
      hide Word;
      forall j | 0 <= j < k ensures Word(after, 8 + 4 * j) == fields[j] {
        AgreeWithin(before, after, 0, 8 + 4 * k, 8 + 4 * j, 12 + 4 * j);
        SameWord(before, after, 8 + 4 * j);
      }
      AgreeWithin(before, after, 0, 8 + 4 * k, 0, 8);
      AgreeTwice(old(region[..]), before, after, 0, 8);
      AgreeWithin(before, after, 12 + 4 * k, region.Length, HEADER_BYTES, region.Length);
      AgreeTwice(old(region[..]), before, after, HEADER_BYTES, region.Length);
    }
  }

  lemma {:induction false} FieldsRead(mem: seq<byte>, fields: seq<u32>)
    requires |mem| >= HEADER_BYTES && |fields| == 13
    requires forall k :: 0 <= k < 13 ==> Word(mem, 8 + 4 * k) == fields[k]
    ensures var h := ReadHeader(mem);
      && h.width == fields[0] && h.height == fields[1] && h.clear == Clear(fields[2], fields[3], fields[4], fields[5])
      && h.haveClear == fields[6] && h.drawCount == fields[7] && h.replayHash == fields[8] && h.frameId == fields[9]
      && h.presentTarget == fields[10] && h.bulkOffset == fields[11] && h.bulkUsed == fields[12]
  {
    hide Word;
    assert Word(mem, 8 + 4 * 0) == fields[0];
    assert Word(mem, 8 + 4 * 1) == fields[1];
    assert Word(mem, 8 + 4 * 2) == fields[2];
    assert Word(mem, 8 + 4 * 3) == fields[3];
    assert Word(mem, 8 + 4 * 4) == fields[4];
    assert Word(mem, 8 + 4 * 5) == fields[5];
    assert Word(mem, 8 + 4 * 6) == fields[6];
    assert Word(mem, 8 + 4 * 7) == fields[7];
    assert Word(mem, 8 + 4 * 8) == fields[8];
    assert Word(mem, 8 + 4 * 9) == fields[9];
    assert Word(mem, 8 + 4 * 10) == fields[10];
    assert Word(mem, 8 + 4 * 11) == fields[11];
    assert Word(mem, 8 + 4 * 12) == fields[12];
  }

  /** The publishing side of present: it owns the mapped region and the sequence counter. */
  class Publisher {
    const region: array<byte>
    var sequence: u32
    var haveTarget: bool
    var width: u32
    var height: u32

    ghost predicate Valid()
      reads this, region
    {
      region.Length == IPC_SIZE && Word(region[..], 0) == IPC_MAGIC
    }

    // Mapping the region clears its header and stamps the magic number.
    constructor (shared: array<byte>)
      requires shared.Length == IPC_SIZE
      modifies shared
      ensures Valid() && region == shared && sequence == 0 && !haveTarget && Word(region[..], 4) == 0
    {
      region, sequence, haveTarget, width, height := shared, 0, false, 0, 0;
      new;
      for k := 0 to HEADER_WORDS
        invariant sequence == 0 && !haveTarget
        invariant forall j :: 0 <= j < 4 * k ==> region[j] == 0
      {
        region[4 * k], region[4 * k + 1], region[4 * k + 2], region[4 * k + 3] := 0, 0, 0, 0;
      }
      WriteWord(region, 0, IPC_MAGIC);
    }

    method SetTarget(w: u32, h: u32)
      modifies `haveTarget, `width, `height
      ensures haveTarget && width == w && height == h
    {
      haveTarget, width, height := true, w, h;
    }

    // The last store: it changes nothing but the sequence number.
    method PublishSequence(arena: array<byte>, ghost cmds: seq<Command>)
      requires Valid() && region != arena && AllSized(cmds) && FrameIn(region[..], arena[..], cmds)
      modifies region
      ensures Valid() && FrameIn(region[..], arena[..], cmds)
      ensures region[..] == Write(old(region[..]), 4, WordBytes(sequence))
      ensures ReadHeader(region[..]) == old(ReadHeader(region[..])).(sequence := sequence)
    {
      ghost var m := region[..];
      WriteWord(region, 4, sequence);
      SequenceStored(m, region[..], sequence);
      SequenceKeepsFrame(m, region[..], arena[..], cmds);
    }

    // Everything between the two stores to the sequence number.
    method WriteFrame(arena: array<byte>, cmds: seq<Command>, clear: Clear, haveClear: bool, hash: u32,
                      frameId: u32, target: u32) returns (ghost stores: seq<Stored>)
      requires Valid() && region != arena && arena.Length == SLOTS * SLOT_BYTES
      requires |cmds| <= MAX_IPC_DRAWS && Transportable(cmds)
      modifies region
      ensures Leads(old(region[..]), stores, region[..])
      ensures Valid() && FrameIn(region[..], arena[..], cmds) && Word(region[..], 4) == old(Word(region[..], 4))
      ensures var h := ReadHeader(region[..]);
        && h.width == width && h.height == height && h.clear == clear && h.haveClear == (if haveClear then 1 else 0)
        && h.replayHash == hash && h.frameId == frameId && h.presentTarget == target
    {
      hide Sized, Backed, Payloads, Agree, Word, CommandIn, ReadHeader, Leads;
      var bulk := BulkOffset(|cmds|);
      ghost var m0 := region[..];
      var used, entries := AssembleDraws(region, arena, cmds);
      ghost var m1 := region[..];
      var fields := HeaderFields(width, height, clear, haveClear, |cmds|, hash, frameId, target, bulk, used);
      ghost var words := WriteHeaderFields(region, fields);
      stores := entries + words;
      LeadsJoin(m0, entries, m1, words, region[..]);
      FieldsRead(region[..], fields);
      AgreeWithin(m1, region[..], HEADER_BYTES, region.Length, HEADER_BYTES, EntryOffset(|cmds|));
      RoomFits(bulk, used);
      AgreeWithin(m1, region[..], HEADER_BYTES, region.Length, bulk, bulk + used);
      AssembledStays(m1, region[..], arena[..], bulk, used, cmds, |cmds|);
      AgreeWithin(m0, m1, 0, HEADER_BYTES, 0, 8);
      AgreeTwice(m0, m1, region[..], 0, 8);
      FirstWords(m0, region[..]);
    }
  
    // The region's part of present: mark in progress, write, publish.
    method PublishFrame(arena: array<byte>, cmds: seq<Command>, clear: Clear, haveClear: bool, hash: u32,
                        frameId: u32, target: u32) returns (ghost stores: seq<Stored>)
      requires Valid() && region != arena && arena.Length == SLOTS * SLOT_BYTES
      requires |cmds| <= MAX_IPC_DRAWS && Transportable(cmds)
      modifies this, region
      ensures PublishedBy(old(region[..]), stores, sequence, region[..])
      ensures Valid() && (haveTarget, width, height) == old((haveTarget, width, height))
      ensures sequence == Add32(old(sequence), 1)
      ensures FrameIn(region[..], arena[..], cmds)
      ensures PublishedHeader(ReadHeader(region[..]), sequence, width, height, clear, haveClear, hash, frameId, target)
    {
      hide FrameIn, Transportable, Agree, Leads, Write, WordBytes;
      ghost var m := region[..];
      SentTransportable(cmds);
      WriteWord(region, 4, 0);
      StillMagic(m, region[..], 4);
      ghost var marked := region[..];
      stores := WriteFrame(arena, cmds, clear, haveClear, hash, frameId, target);
      ghost var written := region[..];
      sequence := Add32(sequence, 1);
      hide ReadHeader, Word;
      PublishSequence(arena, cmds);
      PublishedAs(m, marked, stores, written, sequence);
    }

    /** Present: publish the first stored commands, with the sequence number zero while the
        region changes and one higher when it is complete. */
    method Present(bridge: Bridge, arena: array<byte>, id: u32) returns (r: int, ghost stores: seq<Stored>)
      requires Valid() && bridge.Valid() && region != arena && arena.Length == SLOTS * SLOT_BYTES
      requires Transportable(bridge.draws[..bridge.stored])
      modifies this, region, bridge
      ensures Valid() && bridge.Valid() && haveTarget == old(haveTarget)
      ensures r == 0 <==> old(bridge.ready && haveTarget && !(bridge.havePresent && bridge.presentFrame != id))
      ensures r == -1 || r == 0
      ensures r == -1 ==> region[..] == old(region[..]) && sequence == old(sequence) && bridge.Value() == old(bridge.Value())
      ensures r == 0 ==> bridge.Value() == PresentState(old(bridge.Value()), id)
      ensures r == 0 ==> PublishedBy(old(region[..]), stores, sequence, region[..])
      ensures r == 0 ==>
        var f := old(bridge.FrameValue());
        && sequence == Add32(old(sequence), 1)
        && FrameIn(region[..], arena[..], Sent(f))
        && HeaderOf(ReadHeader(region[..]), old(bridge.Value()), id)
        && ReadHeader(region[..]).sequence == sequence
        && ReadHeader(region[..]).width == width && ReadHeader(region[..]).height == height
    {
      hide Transportable, FrameIn, PublishedHeader, PublishedBy, ReadHeader, FrameHash, HashedCommands, Word, HeaderOf;
      stores := [];
      if !bridge.ready || !haveTarget { return -1, stores; }
      if bridge.havePresent && bridge.presentFrame != id { return -1, stores; }
      ghost var before := bridge.Value();
      var stored := bridge.draws[..bridge.stored];
      SentTransportable(stored);
      var cmds := if bridge.stored > MAX_IPC_DRAWS then stored[..MAX_IPC_DRAWS] else stored;
      var hash := ComputeFrameHash(HashedFrame(bridge.frameId, bridge.total, bridge.stored, bridge.dropped, HashedCommands(stored)));
      bridge.frameOpen := false;
      bridge.lastFrame := id;
      stores := PublishFrame(arena, cmds, bridge.clear, bridge.haveClear, hash, id, bridge.presentTarget);
      bridge.havePresent := false;
      HeaderSays(ReadHeader(region[..]), sequence, width, height, before, id);
      r := 0;
    }
  }

  // The stores of one published frame: zero to the sequence number, the others, and then the
  // new sequence number.
  ghost predicate PublishedBy(m: seq<byte>, stores: seq<Stored>, sequence: u32, n: seq<byte>) {
    && |m| == IPC_SIZE && AllOutside(stores)
    && n == Write(Apply(Write(m, 4, WordBytes(0)), stores), 4, WordBytes(sequence))
  }

  lemma {:induction false} PublishedAs(m: seq<byte>, marked: seq<byte>, stores: seq<Stored>, written: seq<byte>, sequence: u32)
    requires |m| == IPC_SIZE && marked == Write(m, 4, WordBytes(0)) && Leads(marked, stores, written)
    ensures |written| == IPC_SIZE && PublishedBy(m, stores, sequence, Write(written, 4, WordBytes(sequence)))
  {
    hide Write, WordBytes, Apply;
  }

  // What the header of a published frame says.
  predicate PublishedHeader(h: Header, sequence: u32, width: u32, height: u32, clear: Clear, haveClear: bool, hash: u32,
                            frameId: u32, target: u32) {
    && h.sequence == sequence && h.width == width && h.height == height && h.clear == clear
    && h.haveClear == (if haveClear then 1 else 0)
    && h.replayHash == hash && h.frameId == frameId && h.presentTarget == target
  }

  // What a header says of the state whose frame was published.
  ghost predicate HeaderOf(h: Header, st: State, frameId: u32) {
    && h.clear == st.clear && h.haveClear == (if st.frame.haveClear then 1 else 0)
    && AllSized(st.frame.draws) && |st.frame.draws| <= MAX_DRAWS && h.replayHash == FrameHash(Hashed(st.frame))
    && h.frameId == frameId && h.presentTarget == st.frame.presentTarget
  }

  lemma {:induction false} HeaderSays(h: Header, sequence: u32, width: u32, height: u32, st: State, frameId: u32)
    requires AllSized(st.frame.draws) && |st.frame.draws| <= MAX_DRAWS
    requires PublishedHeader(h, sequence, width, height, st.clear, st.frame.haveClear, FrameHash(Hashed(st.frame)), frameId,
                             st.frame.presentTarget)
    ensures HeaderOf(h, st, frameId) && h.sequence == sequence && h.width == width && h.height == height
  {
    hide FrameHash, HashedCommands;
  }

  lemma {:induction false} SentTransportable(stored: seq<Command>)
    requires Transportable(stored)
    ensures AllSized(stored)
    ensures |stored| > MAX_IPC_DRAWS ==> Transportable(stored[..MAX_IPC_DRAWS])
  {
  }

  lemma {:induction false} FirstWords(m: seq<byte>, n: seq<byte>)
    requires |m| == |n| && |m| >= HEADER_BYTES && Agree(m, n, 0, 8)
    ensures Word(m, 0) == Word(n, 0) && Word(m, 4) == Word(n, 4)
    ensures ReadHeader(n).magic == Word(n, 0) && ReadHeader(n).sequence == Word(n, 4)
  {
  }

  lemma {:induction false} StillMagic(m: seq<byte>, n: seq<byte>, at: nat)
    requires |m| == |n| >= HEADER_BYTES && Agree(m, n, 0, at) && at >= 4
    ensures Word(n, 0) == Word(m, 0)
  {
  }

  lemma {:induction false} SequenceStored(m: seq<byte>, n: seq<byte>, sequence: u32)
    requires |m| == |n| >= HEADER_BYTES && Word(n, 4) == sequence && Agree(m, n, 0, 4) && Agree(m, n, 8, |m|)
    ensures ReadHeader(n) == ReadHeader(m).(sequence := sequence)
  {
    forall k | 2 <= k < HEADER_WORDS ensures Word(n, 4 * k) == Word(m, 4 * k) {
      AgreeWithin(m, n, 8, |m|, 4 * k, 4 * k + 4);
      SameWord(m, n, 4 * k);
    }
    SameWord(m, n, 0);
    hide Word, Agree;
    assert Word(n, 4 * 2) == Word(m, 4 * 2) && Word(n, 4 * 3) == Word(m, 4 * 3) && Word(n, 4 * 4) == Word(m, 4 * 4);
    assert Word(n, 4 * 5) == Word(m, 4 * 5) && Word(n, 4 * 6) == Word(m, 4 * 6) && Word(n, 4 * 7) == Word(m, 4 * 7);
    assert Word(n, 4 * 8) == Word(m, 4 * 8) && Word(n, 4 * 9) == Word(m, 4 * 9) && Word(n, 4 * 10) == Word(m, 4 * 10);
    assert Word(n, 4 * 11) == Word(m, 4 * 11) && Word(n, 4 * 12) == Word(m, 4 * 12) && Word(n, 4 * 13) == Word(m, 4 * 13);
    assert Word(n, 4 * 14) == Word(m, 4 * 14);
  }

  lemma {:induction false} SequenceKeepsFrame(m: seq<byte>, n: seq<byte>, arena: seq<byte>, cmds: seq<Command>)
    requires AllSized(cmds) && FrameIn(m, arena, cmds) && |n| == |m|
    requires ReadHeader(n) == ReadHeader(m).(sequence := ReadHeader(n).sequence) && Agree(m, n, 8, |m|)
    ensures FrameIn(n, arena, cmds)
  {
    hide ReadHeader, Agree, CommandIn, UsedBefore, AllSized;
    var bulk, used := BulkOffset(|cmds|), ReadHeader(m).bulkUsed;
    AgreeWithin(m, n, 8, |m|, HEADER_BYTES, EntryOffset(|cmds|));
    AgreeWithin(m, n, 8, |m|, bulk, bulk + used);
    AssembledStays(m, n, arena, bulk, used, cmds, |cmds|);
  }
}
