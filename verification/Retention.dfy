/**
  Which draws leave earlier draws alone: where a draw's uploads land, found from the arena's
  cursor and the sizes to be copied, and the exact condition for the stored records to survive.
 */
module Retention {
  import opened Words
  import opened Packets
  import opened UploadArena
  import opened Replay
  import opened FrameLayout
  import opened FrameAssembly
  import opened Frontend
  import opened EndToEnd

  // ---------------------------------------------------------------- where uploads land

  // The place of one upload in the current frame's slot.
  datatype Landing = Landing(offset: nat, data: seq<byte>)

  // Where the next copy of a frame starts.
  function Cursor(a: Arena, frameId: u32): nat {
    if a.frameId == frameId then a.next else 0
  }

  function Landings(cursor: nat, list: seq<seq<byte>>): seq<Landing>
    decreases |list|
  {
    if list == [] then []
    else if !Copyable(list[0]) || cursor + AlignUp16(|list[0]|) > SLOT_BYTES then Landings(cursor, list[1..])
    else [Landing(cursor, list[0])] + Landings(cursor + AlignUp16(|list[0]|), list[1..])
  }

  // Everything a draw copies, in order: the constant files that are due, then its sources.
  function DrawCopies(d: Device, src: Sources): seq<seq<byte>>
    requires |src.textures| == STAGES
  {
    (if d.vsDirty || d.vsRef.size == 0 then [d.vsFile] else [])
    + ((if d.psDirty || d.psRef.size == 0 then [d.psFile] else []) + CopyList(src))
  }

  lemma {:induction false} CopyFirst(a: Arena, frameId: u32, first: seq<byte>, rest: seq<seq<byte>>)
    requires Valid(a)
    ensures Valid(Copy(a, frameId, first).arena)
    ensures CopyAll(a, frameId, [first] + rest).arena == CopyAll(Copy(a, frameId, first).arena, frameId, rest).arena
  {
    CopyValid(a, frameId, first);
    assert ([first] + rest)[1..] == rest;
    hide Copy, Valid;
  }

  // A draw's uploads are that list of copies.
  lemma {:induction false} DrawCopiesAll(d: Device, a: Arena, src: Sources)
    requires Valid(a) && |src.textures| == STAGES
    ensures UploadDraw(d, a, src).arena == CopyAll(a, d.frameId, DrawCopies(d, src)).arena
  {
    hide Copy, CopyAll, Valid, CopyList, PayloadRefs;
    var list := CopyList(src);
    var second := (if d.psDirty || d.psRef.size == 0 then [d.psFile] else []) + list;
    CopyValid(a, d.frameId, d.vsFile);
    var vs := ConstantRef(a, d.frameId, d.vsDirty, d.vsRef, d.vsFile);
    assert [] + second == second && [] + list == list;
    CopyFirst(a, d.frameId, d.vsFile, second);
    CopyFirst(vs.arena, d.frameId, d.psFile, list);
  }

  // ---------------------------------------------------------------- one upload over old bytes

  function ByteAt(offset: nat, data: seq<byte>, x: nat): byte
    requires offset <= x < offset + |data|
  {
    data[x - offset]
  }

  // The upload and the old bytes say the same wherever both lie.
  ghost predicate SameOnOverlap(w: Landing, offset: nat, data: seq<byte>) {
    forall x: nat :: w.offset <= x < w.offset + |w.data| && offset <= x < offset + |data| ==>
      ByteAt(w.offset, w.data, x) == ByteAt(offset, data, x)
  }

  lemma {:induction false} HoldingByte(mem: seq<byte>, base: nat, offset: nat, data: seq<byte>, x: nat)
    requires Holding(mem, base + offset, data) && offset <= x < offset + |data|
    ensures base + x < |mem| && mem[base + x] == ByteAt(offset, data, x)
  {
    assert mem[base + offset..base + offset + |data|][x - offset] == mem[base + x];
  }

  lemma {:induction false} HoldingFromBytes(mem: seq<byte>, base: nat, offset: nat, data: seq<byte>)
    requires base + offset + |data| <= |mem|
    requires forall x: nat :: offset <= x < offset + |data| ==> mem[base + x] == ByteAt(offset, data, x)
    ensures Holding(mem, base + offset, data)
  {
    var part := mem[base + offset..base + offset + |data|];
    forall k | 0 <= k < |data| ensures part[k] == data[k] {
      assert mem[base + (offset + k)] == ByteAt(offset, data, offset + k);
    }
  }

  lemma {:induction false} WriteOver(mem: seq<byte>, base: nat, w: Landing, offset: nat, data: seq<byte>)
    requires base + w.offset + |w.data| <= |mem| && Holding(mem, base + offset, data)
    requires SameOnOverlap(w, offset, data)
    ensures Holding(Write(mem, base + w.offset, w.data), base + offset, data)
  {
    var after := Write(mem, base + w.offset, w.data);
    forall x: nat | offset <= x < offset + |data| ensures after[base + x] == ByteAt(offset, data, x) {
      HoldingByte(mem, base, offset, data, x);
      if w.offset <= x < w.offset + |w.data| {
        assert ByteAt(w.offset, w.data, x) == ByteAt(offset, data, x);
      }
    }
    HoldingFromBytes(after, base, offset, data);
  }

  // Two different things cannot be held where they overlap.
  lemma {:induction false} OneOrTheOther(mem: seq<byte>, base: nat, w: Landing, offset: nat, data: seq<byte>)
    requires Holding(mem, base + w.offset, w.data) && Holding(mem, base + offset, data)
    ensures SameOnOverlap(w, offset, data)
  {
    forall x: nat | w.offset <= x < w.offset + |w.data| && offset <= x < offset + |data|
      ensures ByteAt(w.offset, w.data, x) == ByteAt(offset, data, x)
    {
      HoldingByte(mem, base, w.offset, w.data, x);
      HoldingByte(mem, base, offset, data, x);
    }
  }

  // ---------------------------------------------------------------- a list of uploads

  ghost predicate AllSame(landings: seq<Landing>, offset: nat, data: seq<byte>) {
    forall i :: 0 <= i < |landings| ==> SameOnOverlap(landings[i], offset, data)
  }

  function SlotBase(frameId: u32): nat {
    frameId % SLOTS * SLOT_BYTES
  }

  // What one copy does, by its place.
  lemma {:induction false} CopyLands(a: Arena, frameId: u32, data: seq<byte>)
    requires Valid(a)
    ensures var c, cursor := Copy(a, frameId, data), Cursor(a, frameId);
      && Valid(c.arena)
      && (Succeeds(a, frameId, data) <==> Copyable(data) && cursor + AlignUp16(|data|) <= SLOT_BYTES)
      && (Succeeds(a, frameId, data) ==>
            && SlotBase(frameId) + cursor + |data| <= |a.mem|
            && c.arena.mem == Write(a.mem, SlotBase(frameId) + cursor, data)
            && c.ref == Ref(frameId % SLOTS, cursor, |data|)
            && c.arena.frameId == frameId && Cursor(c.arena, frameId) == cursor + AlignUp16(|data|))
      && (!Succeeds(a, frameId, data) ==> c.arena == a)
  {
    CopyValid(a, frameId, data);
    if !Succeeds(a, frameId, data) { FailedCopy(a, frameId, data); }
  }

  /** Copies leave old bytes of their slot as they are exactly when each upload says the same
      where it lands on them. */
  lemma {:induction false} CopiesKeepExactly(a: Arena, frameId: u32, list: seq<seq<byte>>, offset: nat, data: seq<byte>)
    requires Valid(a) && a.frameId <= frameId && Holding(a.mem, SlotBase(frameId) + offset, data)
    ensures Holding(CopyAll(a, frameId, list).arena.mem, SlotBase(frameId) + offset, data)
      <==> AllSame(Landings(Cursor(a, frameId), list), offset, data)
    decreases |list|
  {
    hide Copy, Succeeds, Valid, SameOnOverlap, SlotBase, Holding, Write, Cursor, AlignUp16, Copyable;
    if list != [] {
      var cursor := Cursor(a, frameId);
      var c := Copy(a, frameId, list[0]);
      CopyLands(a, frameId, list[0]);
      var landings, rest := Landings(cursor, list), Landings(Cursor(c.arena, frameId), list[1..]);
      if !Succeeds(a, frameId, list[0]) {
        CopiesKeepExactly(a, frameId, list[1..], offset, data);
      } else {
        var w := Landing(cursor, list[0]);
        assert landings[0] == w && landings[1..] == rest;
        FirstThenRest(w, rest, offset, data);
        if SameOnOverlap(w, offset, data) {
          WriteOver(a.mem, SlotBase(frameId), w, offset, data);
          CopiesKeepExactly(c.arena, frameId, list[1..], offset, data);
        } else {
          FirstStays(a, frameId, list);
          if Holding(CopyAll(a, frameId, list).arena.mem, SlotBase(frameId) + offset, data) {
            OneOrTheOther(CopyAll(a, frameId, list).arena.mem, SlotBase(frameId), w, offset, data);
          }
        }
      }
    }
  }

  lemma {:induction false} FirstThenRest(w: Landing, rest: seq<Landing>, offset: nat, data: seq<byte>)
    ensures AllSame([w] + rest, offset, data) <==> SameOnOverlap(w, offset, data) && AllSame(rest, offset, data)
  {
    hide SameOnOverlap;
    var all := [w] + rest;
    assert all[0] == w;
    forall i | 0 <= i < |rest| ensures all[i + 1] == rest[i] { }
  }

  // The first upload of a list is still there after the others.
  lemma {:induction false} FirstStays(a: Arena, frameId: u32, list: seq<seq<byte>>)
    requires Valid(a) && a.frameId <= frameId && list != [] && Succeeds(a, frameId, list[0])
    ensures Holding(CopyAll(a, frameId, list).arena.mem, SlotBase(frameId) + Cursor(a, frameId), list[0])
  {
    hide Copy, CopyAll, Valid, AlignUp16;
    var c := Copy(a, frameId, list[0]);
    CopyLands(a, frameId, list[0]);
    CopyFrame(a, frameId, list[0]);
    CopyAllStep(c.arena, frameId, list[1..], frameId, c.ref, list[0]);
    assert [list[0]] + list[1..] == list;
    CopyFirst(a, frameId, list[0], list[1..]);
  }

  // The bump pointer stays beyond what was issued.
  lemma {:induction false} CoveredStays(a: Arena, frameId: u32, list: seq<seq<byte>>, e: Issue)
    requires Valid(a) && a.frameId <= frameId && Covered(a, e)
    ensures Covered(CopyAll(a, frameId, list).arena, e)
    decreases |list|
  {
    hide Copy, Succeeds, Valid, Write;
    if list != [] {
      CopyLands(a, frameId, list[0]);
      CoveredStays(Copy(a, frameId, list[0]).arena, frameId, list[1..], e);
    }
  }

  // ---------------------------------------------------------------- one payload, one draw

  // The draw's uploads spare a stored payload: it is of another slot or of the same frame, or
  // what lands on it says the same.
  ghost predicate Spared(current: u32, landings: seq<Landing>, frame: u32, r: Ref, data: seq<byte>) {
    r.size == 0 || Apart3(frame, current) || AllSame(landings, r.offset, data)
  }

  lemma {:induction false} RefKeptExactly(a: Arena, current: u32, list: seq<seq<byte>>, frame: u32, r: Ref, data: seq<byte>)
    requires Valid(a) && a.frameId <= current && RefHolds(a, frame, r, data)
    ensures RefHolds(CopyAll(a, current, list).arena, frame, r, data)
      <==> Spared(current, Landings(Cursor(a, current), list), frame, r, data)
  {
    hide CopyAll, Landings, AllSame;
    if Apart3(frame, current) {
      CopyAllStep(a, current, list, frame, r, data);
    } else if r.size > 0 {
      CoveredStays(a, current, list, Issue(frame, r, data));
      CopiesKeepExactly(a, current, list, r.offset, data);
    }
  }

  ghost predicate RecordSpared(current: u32, landings: seq<Landing>, c: Command, r: Record)
    requires Sized(c)
  {
    c.Draw? && r.Drawn? && |r.data| == BLOCKS_PER_DRAW ==>
      forall j :: 0 <= j < BLOCKS_PER_DRAW ==> Spared(current, landings, r.frame, Payloads(c)[j].ref, r.data[j])
  }

  // Where a draw's uploads land.
  function DrawLandings(s: System, op: Op): seq<Landing>
    requires op.DrawCall? && |s.device.bound.textures| == STAGES && |op.uploads| == STAGES
  {
    Landings(Cursor(s.arena, s.device.frameId), DrawCopies(s.device, SourcesOf(s.device, op.uploads, op.synthesised)))
  }

  // Whether a draw spares every payload of the stored commands, read off before the draw: from
  // the frames they were drawn in, the cursor, and what is about to be copied.
  ghost predicate Harmless(s: System, op: Op)
    requires Sound(s) && Allowed(s, op)
  {
    op.DrawCall? ==>
      forall k :: 0 <= k < |s.records| ==>
        Sized(s.replay.frame.draws[k])
        && RecordSpared(s.device.frameId, DrawLandings(s, op), s.replay.frame.draws[k], s.records[k])
  }

  lemma {:induction false} RecordKeptExactly(a: Arena, list: seq<seq<byte>>, base: u32, current: u32, c: Command, r: Record)
    requires Valid(a) && a.frameId <= current && RecordOk(a, base, current, c, r)
    ensures RecordOk(CopyAll(a, current, list).arena, base, current, c, r)
      <==> RecordSpared(current, Landings(Cursor(a, current), list), c, r)
  {
    hide CopyAll, Landings, Spared, RefHolds, Payloads, Valid;
    if r.Drawn? {
      var b := CopyAll(a, current, list).arena;
      forall j | 0 <= j < BLOCKS_PER_DRAW
        ensures PayloadHolds(b, Payloads(c)[j], r.frame, r.data[j])
          <==> Spared(current, Landings(Cursor(a, current), list), r.frame, Payloads(c)[j].ref, r.data[j])
      {
        assert PayloadHolds(a, Payloads(c)[j], r.frame, r.data[j]);
        RefKeptExactly(a, current, list, r.frame, Payloads(c)[j].ref, r.data[j]);
      }
    }
  }

  lemma {:induction false} RecordsKeptExactly(s: System, op: Op)
    requires Inv(s) && op.DrawCall? && Allowed(s, op)
    ensures RecordsKept(s, op) <==> Harmless(s, op)
  {
    var current := s.device.frameId;
    var list := DrawCopies(s.device, SourcesOf(s.device, op.uploads, op.synthesised));
    DrawCopiesAll(s.device, s.arena, SourcesOf(s.device, op.uploads, op.synthesised));
    hide CopyAll, UploadDraw, DrawCopies, RecordOk, RecordSpared, Landings, SourcesOf, PresentedOk, ReplayFit, Carries;
    forall k | 0 <= k < |s.records|
      ensures Sized(s.replay.frame.draws[k])
      ensures RecordOk(DrawUploads(s, op).arena, s.replay.frame.frameId, current, s.replay.frame.draws[k], s.records[k])
        <==> RecordSpared(current, DrawLandings(s, op), s.replay.frame.draws[k], s.records[k])
    {
      RecordKeptExactly(s.arena, list, s.replay.frame.frameId, current, s.replay.frame.draws[k], s.records[k]);
    }
  }

  /** A call keeps the system's invariant exactly when it is harmless: of all calls only a draw
      can break it, and only by landing different bytes on a payload that was drawn a multiple of
      three frames ago and is still stored. */
  lemma {:induction false} StepKeepsInvExactly(s: System, op: Op)
    requires Inv(s) && Allowed(s, op)
    ensures Inv(Next(s, op)) <==> Harmless(s, op)
  {
    StepKeepsInv(s, op);
    if op.DrawCall? { RecordsKeptExactly(s, op); }
    hide Inv, Next, Allowed;
  }

  /** A draw is harmless while the frame it adds to was begun fewer than three frames ago. */
  lemma {:induction false} NearDrawsHarmless(s: System, op: Op)
    requires Inv(s) && Allowed(s, op) && (op.DrawCall? ==> s.device.frameId < s.replay.frame.frameId + SLOTS)
    ensures Harmless(s, op)
  {
    if op.DrawCall? {
      hide DrawLandings, PayloadHolds, Payloads, AllSame, PresentedOk, ReplayFit, DeviceOk;
      forall k | 0 <= k < |s.records|
        ensures Sized(s.replay.frame.draws[k])
        ensures RecordSpared(s.device.frameId, DrawLandings(s, op), s.replay.frame.draws[k], s.records[k])
      {
        assert RecordOk(s.arena, s.replay.frame.frameId, s.device.frameId, s.replay.frame.draws[k], s.records[k]);
        if s.records[k].Drawn? { NearFramesApart(s.records[k].frame, s.device.frameId); }
      }
    }
  }
}
