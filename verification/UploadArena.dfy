/**
  The frontend's upload arena: three slots of 256 MiB used in rotation, one per frame, each
  filled by a bump pointer. Copies are handed out as refs and resolved at present time.
 */
module UploadArena {
  import opened Options
  import opened Words
  import opened Packets

  const SLOTS := 3
  const SLOT_BYTES := 0x1000_0000

  // The slots lie one after the other in mem.
  datatype Arena = Arena(mem: seq<byte>, frameId: u32, slot: nat, next: nat)

  function AlignUp16(n: nat): (r: nat)
    ensures n <= r < n + 16 && r % 16 == 0
  {
    (n + 15) / 16 * 16
  }

  ghost predicate Valid(a: Arena) {
    && |a.mem| == SLOTS * SLOT_BYTES
    && a.slot == a.frameId % SLOTS
    && a.next <= SLOT_BYTES && a.next % 16 == 0
  }

  function Begin(a: Arena, frameId: u32): Arena {
    if a.frameId == frameId then a else Arena(a.mem, frameId, frameId % SLOTS, 0)
  }

  // Where a ref's bytes lie in mem.
  function Base(r: Ref): nat {
    r.slot * SLOT_BYTES + r.offset
  }

  datatype Copied = Copied(arena: Arena, ref: Ref)

  // Whether there is something to copy that could fit an empty slot.
  predicate Copyable(data: seq<byte>) {
    0 < |data| <= SLOT_BYTES
  }

  predicate Fits(a: Arena, data: seq<byte>) {
    a.next + AlignUp16(|data|) <= SLOT_BYTES
  }

  function Copy(a: Arena, frameId: u32, data: seq<byte>): Copied
    requires Valid(a)
  {
    if !Copyable(data) then Copied(a, NO_REF)
    else
      var b := Begin(a, frameId);
      if !Fits(b, data) then Copied(b, NO_REF)
      else
        var r := Ref(b.slot, b.next, |data|);
        Copied(Arena(Write(b.mem, Base(r), data), b.frameId, b.slot, b.next + AlignUp16(|data|)), r)
  }

  function Succeeds(a: Arena, frameId: u32, data: seq<byte>): bool
    requires Valid(a)
  {
    Copyable(data) && Fits(Begin(a, frameId), data)
  }

  // The pointer a ref resolves to, as an offset in mem.
  function Resolve(r: Ref): (at: Option<nat>)
    ensures at.Some? ==> at.value == Base(r)
  {
    if r.size == 0 || r.slot >= SLOTS || Add32(r.offset, r.size) > SLOT_BYTES then None else Some(Base(r))
  }

  /** The arena as the frontend keeps it, in one block of memory. */
  class Uploads {
    const mem: array<byte>
    var frameId: u32
    var slotIndex: nat
    var nextOffset: nat

    ghost function Value(): Arena
      reads this, mem
    {
      Arena(mem[..], frameId, slotIndex, nextOffset)
    }

    constructor ()
      ensures Valid(Value()) && frameId == 0 && slotIndex == 0 && nextOffset == 0 && fresh(mem)
    {
      mem := new byte[SLOTS * SLOT_BYTES](_ => 0);
      frameId, slotIndex, nextOffset := 0, 0, 0;
    }

    method BeginFrame(id: u32)
      modifies this
      ensures Value() == Begin(old(Value()), id)
    {
      if frameId == id { return; }
      frameId := id;
      slotIndex := id % SLOTS;
      nextOffset := 0;
    }

    method UploadCopy(id: u32, data: seq<byte>) returns (r: Ref)
      requires Valid(Value())
      modifies this, mem
      ensures Copied(Value(), r) == Copy(old(Value()), id, data)
    {
      hide AlignUp16, Write;
      r := NO_REF;
      if |data| == 0 || |data| > SLOT_BYTES { return; }
      var aligned := AlignUp16(|data|);
      BeginFrame(id);
      if nextOffset + aligned > SLOT_BYTES { return; }
      r := Ref(slotIndex, nextOffset, |data|);
      CopyInto(mem, slotIndex * SLOT_BYTES + nextOffset, data);
      nextOffset := nextOffset + aligned;
    }
  }

  // ---------------------------------------------------------------- lifetimes

  // A successful copy: the frame it was made in, its ref and the bytes it was given.
  datatype Issue = Issue(frame: u32, ref: Ref, data: seq<byte>)

  predicate Placed(e: Issue) {
    && e.ref.slot == e.frame % SLOTS
    && e.ref.size == |e.data| > 0
    && e.ref.offset % 16 == 0 && e.ref.offset + |e.data| <= SLOT_BYTES
  }

  // The issue is no later than the arena's frame, and below its bump pointer.
  predicate Covered(a: Arena, e: Issue) {
    e.frame <= a.frameId && (e.frame == a.frameId ==> e.ref.offset + |e.data| <= a.next)
  }

  ghost predicate Holds(mem: seq<byte>, e: Issue) {
    Placed(e) && |mem| == SLOTS * SLOT_BYTES && mem[Base(e.ref)..Base(e.ref) + |e.data|] == e.data
  }

  lemma {:induction false} PlacedResolves(e: Issue)
    requires Placed(e)
    ensures Resolve(e.ref) == Some(Base(e.ref)) && Base(e.ref) + |e.data| <= SLOTS * SLOT_BYTES
  {
  }

  lemma {:induction false} CopyValid(a: Arena, frameId: u32, data: seq<byte>)
    requires Valid(a)
    ensures Valid(Copy(a, frameId, data).arena)
    ensures Succeeds(a, frameId, data) <==> Copy(a, frameId, data).ref != NO_REF
    ensures Copy(a, frameId, data).ref.size == if Succeeds(a, frameId, data) then |data| else 0
  {
  }

  // A copy that does not succeed writes nothing, and moves the frame only by doing nothing.
  lemma {:induction false} FailedCopy(a: Arena, frameId: u32, data: seq<byte>)
    requires Valid(a) && !Succeeds(a, frameId, data)
    ensures Copy(a, frameId, data).arena == a
  {
    if Copyable(data) && a.frameId != frameId {
      AlignedFits(|data|);
    }
  }

  lemma {:induction false} AlignedFits(n: nat)
    requires n <= SLOT_BYTES
    ensures AlignUp16(n) <= SLOT_BYTES
  {
  }

  // What a successful copy adds.
  lemma {:induction false} FreshIssue(a: Arena, frameId: u32, data: seq<byte>)
    requires Valid(a) && Succeeds(a, frameId, data)
    ensures var c := Copy(a, frameId, data);
      var e := Issue(frameId, c.ref, data);
      Placed(e) && Covered(c.arena, e) && Holds(c.arena.mem, e) && c.arena.frameId == frameId
  {
    var b := Begin(a, frameId);
    var r := Ref(b.slot, b.next, |data|);
    WriteHere(b.mem, Base(r), data);
  }

  /** A copy leaves an earlier issue alone when it fails, when it is made in the same frame,
      or when it is made in a frame of another slot. */
  lemma {:induction false} CopyKeeps(a: Arena, frameId: u32, data: seq<byte>, e: Issue)
    requires Valid(a) && Holds(a.mem, e) && Covered(a, e) && a.frameId <= frameId
    requires Succeeds(a, frameId, data) ==> e.frame == frameId || e.frame % SLOTS != frameId % SLOTS
    ensures var c := Copy(a, frameId, data);
      Holds(c.arena.mem, e) && Covered(c.arena, e)
  {
    if !Succeeds(a, frameId, data) {
      FailedCopy(a, frameId, data);
    } else {
      var b := Begin(a, frameId);
      var r := Ref(b.slot, b.next, |data|);
      var lo := Base(e.ref);
      if e.frame == frameId {
        assert lo + |e.data| <= Base(r);
      } else {
        Apart(e.ref, r, |e.data|, |data|);
      }
      WriteElsewhere(b.mem, Base(r), data, lo, lo + |e.data|);
    }
  }

  lemma {:induction false} Apart(r: Ref, s: Ref, m: nat, n: nat)
    requires r.slot != s.slot && r.offset + m <= SLOT_BYTES && s.offset + n <= SLOT_BYTES
    ensures Base(r) + m <= Base(s) || Base(s) + n <= Base(r)
  {
    if r.slot < s.slot {
      assert (r.slot + 1) * SLOT_BYTES <= s.slot * SLOT_BYTES;
    } else {
      assert (s.slot + 1) * SLOT_BYTES <= r.slot * SLOT_BYTES;
    }
  }

  // ---------------------------------------------------------------- whole runs

  datatype CopyCall = CopyCall(frame: u32, data: seq<byte>)

  function RunCopies(a: Arena, calls: seq<CopyCall>): (r: Arena)
    requires Valid(a)
    decreases |calls|
  {
    if calls == [] then a
    else
      CopyValid(a, calls[0].frame, calls[0].data);
      RunCopies(Copy(a, calls[0].frame, calls[0].data).arena, calls[1..])
  }

  function Issues(a: Arena, calls: seq<CopyCall>): seq<Issue>
    requires Valid(a)
    decreases |calls|
  {
    if calls == [] then []
    else
      CopyValid(a, calls[0].frame, calls[0].data);
      var c := Copy(a, calls[0].frame, calls[0].data);
      (if Succeeds(a, calls[0].frame, calls[0].data) then [Issue(calls[0].frame, c.ref, calls[0].data)] else [])
      + Issues(c.arena, calls[1..])
  }

  // Frame ids never go back.
  predicate Forward(frame: u32, calls: seq<CopyCall>)
    decreases |calls|
  {
    calls == [] || (frame <= calls[0].frame && Forward(calls[0].frame, calls[1..]))
  }

  // The issue's slot has not been taken over by a later frame's copy.
  ghost predicate Live(e: Issue, later: seq<Issue>) {
    forall k :: 0 <= k < |later| ==> later[k].frame == e.frame || later[k].frame % SLOTS != e.frame % SLOTS
  }

  lemma {:induction false} LiveSurvives(a: Arena, calls: seq<CopyCall>, e: Issue)
    requires Valid(a) && Holds(a.mem, e) && Covered(a, e) && Forward(a.frameId, calls)
    requires Live(e, Issues(a, calls))
    ensures Holds(RunCopies(a, calls).mem, e)
    decreases |calls|
  {
    hide Copy, Holds, Covered, Placed, Succeeds;
    if calls != [] {
      var call := calls[0];
      var c := Copy(a, call.frame, call.data);
      CopyValid(a, call.frame, call.data);
      var issues, rest := Issues(a, calls), Issues(c.arena, calls[1..]);
      if Succeeds(a, call.frame, call.data) {
        FreshIssue(a, call.frame, call.data);
        assert issues[0].frame == call.frame;
        assert issues[1..] == rest;
      } else {
        FailedCopy(a, call.frame, call.data);
        assert issues == rest;
      }
      CopyKeeps(a, call.frame, call.data, e);
      ForwardFrom(a.frameId, c.arena.frameId, calls);
      LiveSurvives(c.arena, calls[1..], e);
    }
  }

  lemma {:induction false} ForwardFrom(frame: u32, next: u32, calls: seq<CopyCall>)
    requires calls != [] && Forward(frame, calls) && (next == frame || next == calls[0].frame)
    ensures Forward(next, calls[1..])
  {
    if calls[1..] != [] {
      assert calls[0].frame <= calls[1..][0].frame;
    }
  }

  /** Arena lifetime: in every run of copies with frame ids that do not go back, each issued
      ref is aligned, lies inside its frame's slot, and resolves to exactly the bytes it was
      given up to the first successful copy of a later frame with the same slot. */
  lemma {:induction false} IssueLifetime(a: Arena, calls: seq<CopyCall>, k: nat)
    requires Valid(a) && Forward(a.frameId, calls) && k < |Issues(a, calls)|
    ensures var issues := Issues(a, calls);
      var e := issues[k];
      && Placed(e) && Resolve(e.ref) == Some(Base(e.ref))
      && (Live(e, issues[k + 1..]) ==> Holds(RunCopies(a, calls).mem, e))
    decreases |calls|
  {
    hide Copy, Placed, Succeeds, Holds, Covered, Resolve;
    var call := calls[0];
    var c := Copy(a, call.frame, call.data);
    CopyValid(a, call.frame, call.data);
    var issues, rest := Issues(a, calls), Issues(c.arena, calls[1..]);
    if Succeeds(a, call.frame, call.data) {
      FreshIssue(a, call.frame, call.data);
      ForwardFrom(a.frameId, c.arena.frameId, calls);
      if k == 0 {
        var e := issues[0];
        PlacedResolves(e);
        assert issues[1..] == rest;
        if Live(e, rest) { LiveSurvives(c.arena, calls[1..], e); }
      } else {
        IssueLifetime(c.arena, calls[1..], k - 1);
        assert issues[k] == rest[k - 1] && issues[k + 1..] == rest[k..];
      }
    } else {
      FailedCopy(a, call.frame, call.data);
      ForwardFrom(a.frameId, c.arena.frameId, calls);
      assert issues == rest;
      IssueLifetime(c.arena, calls[1..], k);
    }
  }

  lemma {:induction false} IssuesBeyond(a: Arena, calls: seq<CopyCall>, k: nat)
    requires Valid(a) && Forward(a.frameId, calls) && k < |Issues(a, calls)|
    ensures var e := Issues(a, calls)[k];
      a.frameId <= e.frame && (e.frame == a.frameId ==> a.next <= e.ref.offset)
    decreases |calls|
  {
    hide Placed, Holds, Resolve;
    var call := calls[0];
    var c := Copy(a, call.frame, call.data);
    CopyValid(a, call.frame, call.data);
    var issues, rest := Issues(a, calls), Issues(c.arena, calls[1..]);
    if Succeeds(a, call.frame, call.data) {
      ForwardFrom(a.frameId, c.arena.frameId, calls);
      if k > 0 {
        IssuesBeyond(c.arena, calls[1..], k - 1);
        assert issues[k] == rest[k - 1];
      }
    } else {
      FailedCopy(a, call.frame, call.data);
      ForwardFrom(a.frameId, c.arena.frameId, calls);
      assert issues == rest;
      IssuesBeyond(c.arena, calls[1..], k);
    }
  }

  // The later issue lies beyond the earlier one when they share a frame.
  predicate Before(d: Issue, e: Issue) {
    d.frame <= e.frame && (d.frame == e.frame ==> d.ref.slot == e.ref.slot && d.ref.offset + d.ref.size <= e.ref.offset)
  }

  lemma {:induction false} FirstIsBefore(a: Arena, calls: seq<CopyCall>, k: nat)
    requires Valid(a) && Forward(a.frameId, calls) && 0 < k < |Issues(a, calls)|
    requires Succeeds(a, calls[0].frame, calls[0].data)
    ensures Before(Issues(a, calls)[0], Issues(a, calls)[k])
  {
    var call := calls[0];
    var c := Copy(a, call.frame, call.data);
    CopyValid(a, call.frame, call.data);
    FreshIssue(a, call.frame, call.data);
    var issues, rest := Issues(a, calls), Issues(c.arena, calls[1..]);
    IssueLifetime(a, calls, 0);
    IssueLifetime(a, calls, k);
    hide Copy, Succeeds, Valid, Holds, Resolve;
    ForwardFrom(a.frameId, c.arena.frameId, calls);
    assert issues[k] == rest[k - 1];
    IssuesBeyond(c.arena, calls[1..], k - 1);
  }

  /** Two refs issued in one frame do not overlap: the later lies beyond the earlier. */
  lemma {:induction false} SameFrameDisjoint(a: Arena, calls: seq<CopyCall>, j: nat, k: nat)
    requires Valid(a) && Forward(a.frameId, calls) && j < k < |Issues(a, calls)|
    ensures Before(Issues(a, calls)[j], Issues(a, calls)[k])
    decreases |calls|
  {
    hide Resolve, Holds, Placed, Copy, Succeeds, Before, Valid;
    var call := calls[0];
    var c := Copy(a, call.frame, call.data);
    CopyValid(a, call.frame, call.data);
    var issues, rest := Issues(a, calls), Issues(c.arena, calls[1..]);
    if Succeeds(a, call.frame, call.data) {
      if j == 0 {
        FirstIsBefore(a, calls, k);
      } else {
        FreshIssue(a, call.frame, call.data);
        ForwardFrom(a.frameId, c.arena.frameId, calls);
        assert issues[k] == rest[k - 1] && issues[j] == rest[j - 1];
        SameFrameDisjoint(c.arena, calls[1..], j - 1, k - 1);
      }
    } else {
      FailedCopy(a, call.frame, call.data);
      ForwardFrom(a.frameId, c.arena.frameId, calls);
      assert issues == rest;
      SameFrameDisjoint(c.arena, calls[1..], j, k);
    }
  }

  /** The lifetime is no longer than that: the first copy of the frame three later, when it is
      at least as long and different, is what the old ref then resolves to. */
  lemma {:induction false} RetakenSlot(a: Arena, frameId: u32, data: seq<byte>, later: seq<byte>)
    requires Valid(a) && a.frameId < frameId && frameId + SLOTS < TWO_32
    requires Copyable(data) && Copyable(later) && |data| <= |later| && later[..|data|] != data
    ensures var c := Copy(a, frameId, data);
      var e := Issue(frameId, c.ref, data);
      Valid(c.arena) && Holds(c.arena.mem, e) && !Holds(Copy(c.arena, frameId + SLOTS, later).arena.mem, e)
  {
    var c := RetakenBase(a, frameId, data);
    AlignedFits(|later|);
    NextRound(frameId);
    var r := Ref(frameId % SLOTS, 0, |later|);
    var mem := Write(c.arena.mem, Base(r), later);
    WriteHere(c.arena.mem, Base(r), later);
    assert mem[Base(r)..Base(r) + |data|] == mem[Base(r)..Base(r) + |later|][..|data|];
    hide Write, AlignUp16;
    assert Copy(c.arena, frameId + SLOTS, later).arena.mem == mem;
  }

  lemma {:induction false} NextRound(frameId: u32)
    ensures (frameId + SLOTS) % SLOTS == frameId % SLOTS
  {
    DivMod(frameId + SLOTS, SLOTS, frameId / SLOTS + 1, frameId % SLOTS);
  }

  // The first copy of a new frame starts the slot.
  lemma {:induction false} RetakenBase(a: Arena, frameId: u32, data: seq<byte>) returns (c: Copied)
    requires Valid(a) && a.frameId < frameId && Copyable(data)
    ensures c == Copy(a, frameId, data) && c.ref == Ref(frameId % SLOTS, 0, |data|)
    ensures Valid(c.arena) && c.arena.frameId == frameId && Holds(c.arena.mem, Issue(frameId, c.ref, data))
  {
    AlignedFits(|data|);
    CopyValid(a, frameId, data);
    FreshIssue(a, frameId, data);
    c := Copy(a, frameId, data);
  }
}
