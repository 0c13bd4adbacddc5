/**
  The sequence-number protocol on the shared region. The writer stores zero to the sequence
  number, then any bytes outside it in any order, then the next sequence number. The reader
  loads the number, copies header and body byte by byte in any order, and loads it again.
  Every store and load is one step, and steps of the two processes interleave freely.
 */
module SnapshotProtocol {
  import opened Words
  import opened FrameLayout

  const SEQUENCE_AT := 4

  datatype Reader =
    | Waiting
    | CopyingHeader(sequence: u32, got: map<nat, byte>)
    | CopyingBody(sequence: u32, header: seq<byte>, size: nat, got: map<nat, byte>)

  // A copy the viewer accepted: the header it validated first, and the snapshot it renders.
  datatype Accepted = Accepted(sequence: u32, header: seq<byte>, snapshot: seq<byte>)

  // published is the history: the whole region at each store of a new sequence number.
  datatype World = World(mem: seq<byte>, writing: bool, published: seq<seq<byte>>,
                         reader: Reader, lastSequence: u32, accepted: seq<Accepted>)

  datatype Step =
    | WriterBegin
    | WriterStore(at: nat, value: byte)
    | WriterPublish
    | ReaderLoad
    | ReaderCopy(at: nat)
    | ReaderCheck
    | ReaderFinish

  function Load(mem: seq<byte>): u32
    requires |mem| == IPC_SIZE
  {
    Word(mem, SEQUENCE_AT)
  }

  function Store(mem: seq<byte>, sequence: u32): (r: seq<byte>)
    requires |mem| == IPC_SIZE
    ensures |r| == IPC_SIZE
  {
    Write(mem, SEQUENCE_AT, WordBytes(sequence))
  }

  predicate Complete(got: map<nat, byte>, size: nat) {
    forall i: nat :: i < size ==> i in got
  }

  function Collected(got: map<nat, byte>, size: nat): (b: seq<byte>)
    requires Complete(got, size)
    ensures |b| == size && forall i :: 0 <= i < size ==> b[i] == got[i]
  {
    seq(size, i requires 0 <= i < size => got[i])
  }

  function SnapshotSize(header: seq<byte>): nat
    requires |header| == HEADER_BYTES
  {
    ReadHeader(header).bulkOffset + ReadHeader(header).bulkUsed
  }

  predicate Enabled(w: World, s: Step) {
    && |w.mem| == IPC_SIZE
    && match s
       case WriterBegin => !w.writing
       case WriterStore(at, _) => w.writing && at < IPC_SIZE && !(SEQUENCE_AT <= at < SEQUENCE_AT + 4)
       case WriterPublish => w.writing && |w.published| + 1 < TWO_32
       case ReaderLoad => w.reader.Waiting?
       case ReaderCopy(at) =>
         (w.reader.CopyingHeader? && at < HEADER_BYTES && at !in w.reader.got)
         || (w.reader.CopyingBody? && at < w.reader.size && at < IPC_SIZE && at !in w.reader.got)
       case ReaderCheck => w.reader.CopyingHeader? && Complete(w.reader.got, HEADER_BYTES)
       case ReaderFinish => w.reader.CopyingBody? && Complete(w.reader.got, w.reader.size)
  }

  // What the reader accepts when the sequence number has not changed.
  function Candidate(r: Reader): Accepted
    requires r.CopyingBody? && Complete(r.got, r.size)
  {
    Accepted(r.sequence, r.header, Collected(r.got, r.size))
  }

  function Next(w: World, s: Step): World
    requires Enabled(w, s)
  {
    match s
    case WriterBegin => w.(writing := true, mem := Store(w.mem, 0))
    case WriterStore(at, v) => w.(mem := w.mem[at := v])
    case WriterPublish =>
      var mem := Store(w.mem, |w.published| + 1);
      w.(writing := false, mem := mem, published := w.published + [mem])
    case ReaderLoad =>
      var n := Load(w.mem);
      if n == w.lastSequence || n == 0 then w else w.(reader := CopyingHeader(n, map[]))
    case ReaderCopy(at) => w.(reader := Copied(w.reader, at, w.mem[at]))
    case ReaderCheck =>
      var header := Collected(w.reader.got, HEADER_BYTES);
      if HeaderOk(ReadHeader(header)) then
        w.(reader := CopyingBody(w.reader.sequence, header, SnapshotSize(header), map[]))
      else w.(reader := Waiting)
    case ReaderFinish =>
      var again := Load(w.mem);
      if again != w.reader.sequence || again == 0 then w.(reader := Waiting)
      else w.(reader := Waiting, lastSequence := again, accepted := w.accepted + [Candidate(w.reader)])
  }

  function Copied(r: Reader, at: nat, b: byte): Reader
    requires !r.Waiting?
  {
    match r
    case CopyingHeader(n, got) => CopyingHeader(n, got[at := b])
    case CopyingBody(n, header, size, got) => CopyingBody(n, header, size, got[at := b])
  }

  // ---------------------------------------------------------------- the invariant

  // The copied bytes come from memory m.
  ghost predicate From(got: map<nat, byte>, m: seq<byte>) {
    forall i :: i in got ==> i < |m| && got[i] == m[i]
  }

  // What the reader has, if the frame it is copying is still the one in memory.
  ghost predicate ReaderFrom(r: Reader, m: seq<byte>) {
    match r
    case Waiting => true
    case CopyingHeader(_, got) => From(got, m)
    case CopyingBody(_, header, size, got) =>
      && From(got, m) && |m| == IPC_SIZE && header == m[..HEADER_BYTES] && HeaderOk(ReadHeader(header))
      && size == SnapshotSize(header)
  }

  ghost predicate WriterInv(w: World) {
    && |w.mem| == IPC_SIZE && |w.published| < TWO_32
    && (forall k :: 0 <= k < |w.published| ==> |w.published[k]| == IPC_SIZE && Load(w.published[k]) == k + 1)
    && (w.writing ==> Load(w.mem) == 0)
    && (!w.writing ==> Load(w.mem) == |w.published|)
    && (!w.writing && w.published != [] ==> w.mem == w.published[|w.published| - 1])
  }

  ghost predicate ReaderInv(w: World) {
    && w.lastSequence <= |w.published|
    && (!w.reader.Waiting? ==>
          && w.lastSequence < w.reader.sequence <= |w.published|
          && (!w.writing && w.reader.sequence == |w.published| ==> ReaderFrom(w.reader, w.mem)))
  }

  // An accepted copy is a prefix of the region as it was published under its number.
  ghost predicate Faithful(published: seq<seq<byte>>, a: Accepted) {
    && 1 <= a.sequence <= |published|
    && a.header == a.snapshot[..if HEADER_BYTES <= |a.snapshot| then HEADER_BYTES else |a.snapshot|]
    && |a.header| == HEADER_BYTES && HeaderOk(ReadHeader(a.header))
    && ReadHeader(a.snapshot).sequence == a.sequence
    && |a.snapshot| == SnapshotSize(a.header) <= |published[a.sequence - 1]|
    && a.snapshot == published[a.sequence - 1][..|a.snapshot|]
  }

  ghost predicate Increasing(accepted: seq<Accepted>, last: u32) {
    && (forall j, k :: 0 <= j < k < |accepted| ==> accepted[j].sequence < accepted[k].sequence)
    && (if accepted == [] then last == 0 else accepted[|accepted| - 1].sequence == last)
  }

  ghost predicate AcceptedInv(w: World) {
    && (forall k :: 0 <= k < |w.accepted| ==> Faithful(w.published, w.accepted[k]))
    && Increasing(w.accepted, w.lastSequence)
  }

  // What mapping the region leaves, before the first frame; the rest of it is arbitrary.
  ghost predicate Init(w: World) {
    && |w.mem| == IPC_SIZE && Load(w.mem) == 0 && !w.writing && w.published == []
    && w.reader == Waiting && w.lastSequence == 0 && w.accepted == []
  }

  lemma {:induction false} StoreLoads(mem: seq<byte>, n: u32)
    requires |mem| == IPC_SIZE
    ensures Load(Store(mem, n)) == n
  {
    var b, r := WordBytes(n), Store(mem, n);
    hide WordBytes, Write;
    assert r[4] == b[0] && r[5] == b[1] && r[6] == b[2] && r[7] == b[3];
  }

  lemma {:induction false} OtherStoreLoads(mem: seq<byte>, at: nat, v: byte)
    requires |mem| == IPC_SIZE && at < IPC_SIZE && !(SEQUENCE_AT <= at < SEQUENCE_AT + 4)
    ensures Load(mem[at := v]) == Load(mem)
  {
    var r := mem[at := v];
    assert r[4] == mem[4] && r[5] == mem[5] && r[6] == mem[6] && r[7] == mem[7];
  }

  lemma {:induction false} WriterStep(w: World, s: Step)
    requires WriterInv(w) && ReaderInv(w) && AcceptedInv(w) && Enabled(w, s)
    requires s.WriterBegin? || s.WriterStore? || s.WriterPublish?
    ensures WriterInv(Next(w, s)) && ReaderInv(Next(w, s))
  {
    hide Load, Store, Word, ReaderFrom;
    match s
    case WriterBegin => StoreLoads(w.mem, 0);
    case WriterStore(at, v) => OtherStoreLoads(w.mem, at, v);
    case WriterPublish => StoreLoads(w.mem, |w.published| + 1);
  }

  lemma {:induction false} MorePublished(w: World, s: Step)
    requires AcceptedInv(w) && Enabled(w, s)
    requires s.WriterBegin? || s.WriterStore? || s.WriterPublish?
    ensures AcceptedInv(Next(w, s))
  {
    hide Load, Store, ReadHeader, HeaderOk, Increasing;
    var v := Next(w, s);
    forall k | 0 <= k < |v.accepted| ensures Faithful(v.published, v.accepted[k]) {
      var a := w.accepted[k];
      assert Faithful(w.published, a);
      assert v.published[a.sequence - 1] == w.published[a.sequence - 1];
    }
  }

  lemma {:induction false} LoadStep(w: World)
    requires WriterInv(w) && ReaderInv(w) && Enabled(w, ReaderLoad)
    ensures ReaderInv(Next(w, ReaderLoad))
  {
    hide Load;
  }

  lemma {:induction false} CopyStep(w: World, at: nat)
    requires WriterInv(w) && ReaderInv(w) && Enabled(w, ReaderCopy(at))
    ensures ReaderInv(Next(w, ReaderCopy(at)))
  {
    hide Load, ReadHeader, HeaderOk;
  }

  lemma {:induction false} CheckStep(w: World)
    requires WriterInv(w) && ReaderInv(w) && Enabled(w, ReaderCheck)
    ensures ReaderInv(Next(w, ReaderCheck))
  {
    hide Load, ReadHeader, HeaderOk;
    var header := Collected(w.reader.got, HEADER_BYTES);
    if !w.writing && w.reader.sequence == |w.published| {
      assert header == w.mem[..HEADER_BYTES];
    }
  }

  lemma {:induction false} IncreasingMore(accepted: seq<Accepted>, last: u32, a: Accepted)
    requires Increasing(accepted, last) && a.sequence > last
    ensures Increasing(accepted + [a], a.sequence)
  {
    var more := accepted + [a];
    forall j, k | 0 <= j < k < |more| ensures more[j].sequence < more[k].sequence {
      if k == |accepted| && j < k - 1 {
        assert accepted[j].sequence < accepted[k - 1].sequence;
      }
    }
  }

  lemma {:induction false} FinishForm(w: World)
    requires WriterInv(w) && ReaderInv(w) && Enabled(w, ReaderFinish)
    ensures |w.mem| == IPC_SIZE && w.reader.CopyingBody? && Complete(w.reader.got, w.reader.size)
    ensures Next(w, ReaderFinish)
         == if Load(w.mem) != w.reader.sequence then w.(reader := Waiting)
            else w.(reader := Waiting, lastSequence := w.reader.sequence, accepted := w.accepted + [Candidate(w.reader)])
    ensures w.lastSequence < w.reader.sequence <= |w.published|
    ensures Load(w.mem) == w.reader.sequence ==> !w.writing && w.reader.sequence == |w.published|
  {
    hide Load, ReaderFrom, Candidate;
  }

  lemma {:induction false} FinishStep(w: World)
    requires WriterInv(w) && ReaderInv(w) && AcceptedInv(w) && Enabled(w, ReaderFinish)
    ensures ReaderInv(Next(w, ReaderFinish)) && AcceptedInv(Next(w, ReaderFinish))
  {
    hide Next, Enabled, Faithful, Increasing, ReaderFrom, Complete, Load, WriterInv, Candidate;
    FinishForm(w);
    if Load(w.mem) == w.reader.sequence {
      var a := Candidate(w.reader);
      AcceptedCopy(w, a);
      IncreasingMore(w.accepted, w.lastSequence, a);
    }
  }

  lemma {:induction false} AcceptedCopy(w: World, a: Accepted)
    requires WriterInv(w) && ReaderInv(w) && w.reader.CopyingBody? && Complete(w.reader.got, w.reader.size)
    requires !w.writing && w.reader.sequence == |w.published|
    requires a == Candidate(w.reader)
    ensures Faithful(w.published, a) && a.sequence == w.reader.sequence
  {
    var size := w.reader.size;
    assert HEADER_BYTES <= size <= IPC_SIZE;
    assert a.snapshot == w.mem[..size];
    assert a.snapshot[..HEADER_BYTES] == w.mem[..HEADER_BYTES];
    assert Word(a.snapshot, SEQUENCE_AT) == Load(w.mem);
  }

  ghost predicate Inv(w: World) {
    WriterInv(w) && ReaderInv(w) && AcceptedInv(w)
  }

  lemma {:induction false} StepKeepsInv(w: World, s: Step)
    requires Inv(w) && Enabled(w, s)
    ensures Inv(Next(w, s))
  {
    hide WriterInv, ReaderInv, AcceptedInv, Enabled, Load, Store, ReadHeader, HeaderOk, Copied;
    match s
    case WriterBegin => WriterStep(w, s); MorePublished(w, s);
    case WriterStore(_, _) => WriterStep(w, s); MorePublished(w, s);
    case WriterPublish => WriterStep(w, s); MorePublished(w, s);
    case ReaderLoad => LoadStep(w); SameWriter(w, s);
    case ReaderCopy(at) => CopyStep(w, at); SameWriter(w, s);
    case ReaderCheck => CheckStep(w); SameWriter(w, s);
    case ReaderFinish => FinishStep(w); SameWriter(w, s);
  }

  lemma {:induction false} SameWriter(w: World, s: Step)
    requires Inv(w) && Enabled(w, s) && (s.ReaderLoad? || s.ReaderCopy? || s.ReaderCheck? || s.ReaderFinish?)
    ensures WriterInv(Next(w, s)) && (!s.ReaderFinish? ==> AcceptedInv(Next(w, s)))
  {
    hide Load, Store, ReadHeader, HeaderOk, Faithful, Increasing;
  }

  // ---------------------------------------------------------------- interleavings

  // Every step was possible when it was taken.
  predicate Interleaving(w: World, steps: seq<Step>)
    decreases |steps|
  {
    steps == [] || (Enabled(w, steps[0]) && Interleaving(Next(w, steps[0]), steps[1..]))
  }

  function After(w: World, steps: seq<Step>): World
    requires Interleaving(w, steps)
    decreases |steps|
  {
    if steps == [] then w else After(Next(w, steps[0]), steps[1..])
  }

  lemma {:induction false} InvAfter(w: World, steps: seq<Step>)
    requires Inv(w) && Interleaving(w, steps)
    ensures Inv(After(w, steps))
    decreases |steps|
  {
    hide Inv, Enabled;
    if steps != [] {
      StepKeepsInv(w, steps[0]);
      InvAfter(Next(w, steps[0]), steps[1..]);
    }
  }

  /** Protocol safety: under every interleaving, each accepted snapshot is a prefix of the
      region exactly as it was published under the snapshot's sequence number; the header
      validated first is the snapshot's header; and accepted numbers strictly increase. */
  lemma {:induction false} SnapshotSafety(w: World, steps: seq<Step>)
    requires Init(w) && Interleaving(w, steps)
    ensures var v := After(w, steps);
      && (forall k :: 0 <= k < |v.accepted| ==> Faithful(v.published, v.accepted[k]))
      && (forall j, k :: 0 <= j < k < |v.accepted| ==> v.accepted[j].sequence < v.accepted[k].sequence)
  {
    hide Interleaving, After, Faithful;
    InvAfter(w, steps);
  }

  // ---------------------------------------------------------------- progress

  predicate IsWriter(s: Step) {
    s.WriterBegin? || s.WriterStore? || s.WriterPublish?
  }

  // A poll with no writer step in between: the reader's own steps until it waits again.
  predicate Poll(w: World, steps: seq<Step>)
    decreases |steps|
  {
    && steps != [] && !IsWriter(steps[0]) && Enabled(w, steps[0])
    && if Next(w, steps[0]).reader.Waiting? then |steps| == 1 else Poll(Next(w, steps[0]), steps[1..])
  }

  // Whether memory holds a frame that is complete, new to the reader, and passes its checks.
  predicate Pollable(w: World) {
    |w.mem| == IPC_SIZE && Load(w.mem) != 0 && Load(w.mem) != w.lastSequence && HeaderOk(ReadHeader(w.mem))
  }

  // The frame in memory, as far as its header says it reaches.
  function InMemory(w: World): Accepted
    requires Pollable(w)
  {
    var h := ReadHeader(w.mem);
    Accepted(Load(w.mem), w.mem[..HEADER_BYTES], w.mem[..h.bulkOffset + h.bulkUsed])
  }

  // The reader's copies are of memory as it is.
  ghost predicate Copying(w: World) {
    && |w.mem| == IPC_SIZE && !w.reader.Waiting? && ReaderFrom(w.reader, w.mem)
    && w.reader.sequence == Load(w.mem) && Load(w.mem) != 0 && Load(w.mem) != w.lastSequence
  }

  // What a poll from a state leaves.
  ghost predicate Polled(w: World, v: World) {
    v == if Pollable(w) then w.(reader := Waiting, lastSequence := Load(w.mem), accepted := w.accepted + [InMemory(w)])
         else w.(reader := Waiting)
  }

  lemma {:induction false} HeaderOfPrefix(mem: seq<byte>)
    requires |mem| == IPC_SIZE
    ensures ReadHeader(mem[..HEADER_BYTES]) == ReadHeader(mem)
  {
    forall k | 0 <= k < HEADER_WORDS ensures Word(mem[..HEADER_BYTES], 4 * k) == Word(mem, 4 * k) {}
    hide Word;
    assert forall k :: 0 <= k < HEADER_WORDS ==> Word(mem[..HEADER_BYTES], 4 * k) == Word(mem, 4 * k);
    assert Word(mem[..HEADER_BYTES], 4 * 0) == Word(mem, 4 * 0) && Word(mem[..HEADER_BYTES], 4 * 1) == Word(mem, 4 * 1);
    assert Word(mem[..HEADER_BYTES], 4 * 2) == Word(mem, 4 * 2) && Word(mem[..HEADER_BYTES], 4 * 3) == Word(mem, 4 * 3);
    assert Word(mem[..HEADER_BYTES], 4 * 4) == Word(mem, 4 * 4) && Word(mem[..HEADER_BYTES], 4 * 5) == Word(mem, 4 * 5);
    assert Word(mem[..HEADER_BYTES], 4 * 6) == Word(mem, 4 * 6) && Word(mem[..HEADER_BYTES], 4 * 7) == Word(mem, 4 * 7);
    assert Word(mem[..HEADER_BYTES], 4 * 8) == Word(mem, 4 * 8) && Word(mem[..HEADER_BYTES], 4 * 9) == Word(mem, 4 * 9);
    assert Word(mem[..HEADER_BYTES], 4 * 10) == Word(mem, 4 * 10) && Word(mem[..HEADER_BYTES], 4 * 11) == Word(mem, 4 * 11);
    assert Word(mem[..HEADER_BYTES], 4 * 12) == Word(mem, 4 * 12) && Word(mem[..HEADER_BYTES], 4 * 13) == Word(mem, 4 * 13);
    assert Word(mem[..HEADER_BYTES], 4 * 14) == Word(mem, 4 * 14);
  }

  lemma {:induction false} Gathered(got: map<nat, byte>, size: nat, m: seq<byte>)
    requires From(got, m) && Complete(got, size)
    ensures size <= |m| && Collected(got, size) == m[..size]
  {
    assert size > |m| ==> |m| in got;
  }

  lemma {:induction false} CopyPolls(w: World, at: nat)
    requires Copying(w) && Enabled(w, ReaderCopy(at))
    ensures var v := Next(w, ReaderCopy(at));
      Copying(v) && v == w.(reader := v.reader)
  {
    hide Load, ReadHeader, HeaderOk;
  }

  lemma {:induction false} CheckPolls(w: World)
    requires Copying(w) && Enabled(w, ReaderCheck)
    ensures var v := Next(w, ReaderCheck);
      if v.reader.Waiting? then Polled(w, v)
      else Copying(v) && v == w.(reader := v.reader) && v.reader.CopyingBody? && v.reader.got == map[]
    ensures !Next(w, ReaderCheck).reader.Waiting? <==> HeaderOk(ReadHeader(w.mem))
    ensures HeaderOk(ReadHeader(w.mem)) ==> Next(w, ReaderCheck).reader.size == |InMemory(w).snapshot|
  {
    Gathered(w.reader.got, HEADER_BYTES, w.mem);
    HeaderOfPrefix(w.mem);
    hide Load, ReadHeader, Complete, Collected;
  }

  lemma {:induction false} FinishPolls(w: World)
    requires Copying(w) && Enabled(w, ReaderFinish)
    ensures Next(w, ReaderFinish).reader.Waiting? && Polled(w, Next(w, ReaderFinish))
  {
    hide Load, ReadHeader, HeaderOk, Complete, Collected, From;
    Gathered(w.reader.got, w.reader.size, w.mem);
    HeaderOfPrefix(w.mem);
  }

  // One step of a poll that has begun: it goes on copying, or it is the last.
  lemma {:induction false} PollStep(w: World, s: Step)
    requires Copying(w) && Enabled(w, s) && !IsWriter(s)
    ensures var v := Next(w, s);
      if v.reader.Waiting? then Polled(w, v)
      else Copying(v) && v == w.(reader := v.reader)
  {
    match s
    case ReaderCopy(at) => CopyPolls(w, at);
    case ReaderCheck => CheckPolls(w);
    case ReaderFinish => FinishPolls(w);
    hide Load, ReadHeader, HeaderOk, Polled, Complete, ReaderFrom;
  }

  // The first step of a poll, and the rest.
  lemma {:induction false} PollFirst(w: World, steps: seq<Step>)
    requires Poll(w, steps)
    ensures steps != [] && !IsWriter(steps[0]) && Enabled(w, steps[0])
    ensures Next(w, steps[0]).reader.Waiting? ==> steps[1..] == []
    ensures !Next(w, steps[0]).reader.Waiting? ==> Poll(Next(w, steps[0]), steps[1..])
  {
    hide Enabled, Next;
  }

  lemma {:induction false} PollMore(w: World, steps: seq<Step>)
    requires steps != [] && !IsWriter(steps[0]) && Enabled(w, steps[0])
    requires !Next(w, steps[0]).reader.Waiting? && Poll(Next(w, steps[0]), steps[1..])
    ensures Poll(w, steps)
  {
    hide Enabled, Next;
  }

  lemma {:induction false} StepThenRest(w: World, steps: seq<Step>)
    requires steps != [] && Enabled(w, steps[0]) && Interleaving(Next(w, steps[0]), steps[1..])
    ensures Interleaving(w, steps) && After(w, steps) == After(Next(w, steps[0]), steps[1..])
  {
    hide Enabled, Next;
  }

  lemma {:induction false} NoMore(w: World)
    ensures Interleaving(w, []) && After(w, []) == w
  {
  }

  lemma {:induction false} PollEnds(w: World, steps: seq<Step>)
    requires Copying(w) && Poll(w, steps)
    ensures Interleaving(w, steps) && Polled(w, After(w, steps))
    decreases |steps|
  {
    hide Poll, Interleaving, After, Copying, Enabled, Next, Polled, IsWriter;
    PollFirst(w, steps);
    PollStep(w, steps[0]);
    var v := Next(w, steps[0]);
    if v.reader.Waiting? {
      NoMore(v);
    } else {
      PollEnds(v, steps[1..]);
      SamePoll(w, v, After(v, steps[1..]));
    }
    StepThenRest(w, steps);
  }

  lemma {:induction false} SamePoll(w: World, v: World, u: World)
    requires v == w.(reader := v.reader) && Polled(v, u)
    ensures Polled(w, u)
  {
    hide Load, ReadHeader, HeaderOk;
  }

  /** Protocol progress: a poll that no store disturbs accepts the frame in memory, from its
      first byte to the end that its header gives, exactly when the frame is complete, new to
      the reader and passes its checks; otherwise it changes nothing. */
  lemma {:induction false} PollOutcome(w: World, steps: seq<Step>)
    requires |w.mem| == IPC_SIZE && w.reader.Waiting? && Poll(w, steps)
    ensures Interleaving(w, steps)
    ensures After(w, steps)
      == if Pollable(w) then w.(lastSequence := Load(w.mem), accepted := w.accepted + [InMemory(w)]) else w
  {
    hide Load, ReadHeader, HeaderOk;
    assert steps[0] == ReaderLoad;
    var v := Next(w, ReaderLoad);
    if v.reader.Waiting? {
      assert steps[1..] == [];
    } else {
      PollEnds(v, steps[1..]);
      assert v.(reader := Waiting) == w;
    }
  }

  // The copies of a buffer from byte n on, in order of address.
  function CopySteps(n: nat, size: nat): seq<Step>
    requires n <= size
    decreases size - n
  {
    if n == size then [] else [ReaderCopy(n)] + CopySteps(n + 1, size)
  }

  // What has been copied when the bytes below n have been.
  ghost predicate CopiedBelow(r: Reader, n: nat) {
    !r.Waiting? && forall i: nat :: i in r.got <==> i < n
  }

  // After the copy of one byte in order.
  lemma {:induction false} CopiedNext(w: World, n: nat)
    requires Copying(w) && CopiedBelow(w.reader, n)
    requires n < (if w.reader.CopyingHeader? then HEADER_BYTES else w.reader.size)
    ensures Enabled(w, ReaderCopy(n))
    ensures var v := Next(w, ReaderCopy(n));
      && Copying(v) && CopiedBelow(v.reader, n + 1) && v == w.(reader := v.reader)
      && (v.reader.CopyingHeader? <==> w.reader.CopyingHeader?)
      && (v.reader.CopyingBody? ==> v.reader.size == w.reader.size)
  {
    if w.reader.CopyingBody? { BodyInside(w); }
    hide Load, ReadHeader, HeaderOk, ReaderFrom;
    CopyPolls(w, n);
  }

  lemma {:induction false} BodyInside(w: World)
    requires Copying(w) && w.reader.CopyingBody?
    ensures w.reader.size <= IPC_SIZE
  {
    hide Load, ReadHeader;
  }

  lemma {:induction false} LastPolls(w: World)
    requires Copying(w) && w.reader.CopyingBody? && CopiedBelow(w.reader, w.reader.size)
    ensures Poll(w, [ReaderFinish])
  {
    hide Load, ReadHeader, HeaderOk, ReaderFrom;
  }

  lemma {:induction false} StillReading(w: World, n: nat)
    requires Enabled(w, ReaderCopy(n))
    ensures !Next(w, ReaderCopy(n)).reader.Waiting?
  {
    hide Load, ReadHeader, HeaderOk;
  }

  lemma {:induction false} BodyPolls(w: World, n: nat)
    requires Copying(w) && w.reader.CopyingBody? && n <= w.reader.size && CopiedBelow(w.reader, n)
    ensures Poll(w, CopySteps(n, w.reader.size) + [ReaderFinish])
    decreases w.reader.size - n
  {
    var steps := CopySteps(n, w.reader.size) + [ReaderFinish];
    if n == w.reader.size {
      assert steps == [ReaderFinish];
      LastPolls(w);
    } else {
      assert steps[0] == ReaderCopy(n) && steps[1..] == CopySteps(n + 1, w.reader.size) + [ReaderFinish];
      hide Poll, Copying, Enabled, Next, CopySteps, CopiedBelow;
      CopiedNext(w, n);
      StillReading(w, n);
      BodyPolls(Next(w, ReaderCopy(n)), n + 1);
      PollMore(w, steps);
    }
  }

  // The steps after the copy of the header.
  function CheckSteps(size: nat): seq<Step> {
    [ReaderCheck] + (CopySteps(0, size) + [ReaderFinish])
  }

  lemma {:induction false} ChecksPoll(w: World)
    requires Copying(w) && Pollable(w) && w.reader.CopyingHeader? && CopiedBelow(w.reader, HEADER_BYTES)
    ensures Poll(w, CheckSteps(|InMemory(w).snapshot|))
  {
    hide Poll, Copying, Load, ReadHeader, HeaderOk, CopySteps, InMemory, Polled, Next, Complete;
    var size := |InMemory(w).snapshot|;
    CheckEnabled(w);
    CheckPolls(w);
    var v := Next(w, ReaderCheck);
    assert CheckSteps(size)[1..] == CopySteps(0, size) + [ReaderFinish];
    BodyPolls(v, 0);
    PollMore(w, CheckSteps(size));
  }

  lemma {:induction false} CheckEnabled(w: World)
    requires Copying(w) && w.reader.CopyingHeader? && CopiedBelow(w.reader, HEADER_BYTES)
    ensures Enabled(w, ReaderCheck)
  {
    hide Load, ReadHeader, HeaderOk;
  }

  // The first of the copies that are left, and the steps after it.
  lemma {:induction false} FirstCopy(n: nat, size: nat, rest: seq<Step>)
    requires n <= size
    ensures n == size ==> CopySteps(n, size) + rest == rest
    ensures n < size ==>
      var steps := CopySteps(n, size) + rest;
      steps != [] && steps[0] == ReaderCopy(n) && steps[1..] == CopySteps(n + 1, size) + rest
  {
  }

  lemma {:induction false} StillPollable(w: World, v: World)
    requires v == w.(reader := v.reader)
    ensures Pollable(v) <==> Pollable(w)
    ensures Pollable(w) ==> InMemory(v) == InMemory(w)
  {
    hide Load, ReadHeader, HeaderOk;
  }

  lemma {:induction false} HeaderPolls(w: World, n: nat)
    requires Copying(w) && Pollable(w) && w.reader.CopyingHeader? && n <= HEADER_BYTES && CopiedBelow(w.reader, n)
    ensures Poll(w, CopySteps(n, HEADER_BYTES) + CheckSteps(|InMemory(w).snapshot|))
    decreases HEADER_BYTES - n
  {
    hide Poll, Copying, Pollable, InMemory, Enabled, Next, CopySteps, CheckSteps, CopiedBelow;
    var rest := CheckSteps(|InMemory(w).snapshot|);
    FirstCopy(n, HEADER_BYTES, rest);
    if n == HEADER_BYTES {
      ChecksPoll(w);
    } else {
      CopiedNext(w, n);
      StillReading(w, n);
      StillPollable(w, Next(w, ReaderCopy(n)));
      HeaderPolls(Next(w, ReaderCopy(n)), n + 1);
      PollMore(w, CopySteps(n, HEADER_BYTES) + rest);
    }
  }

  /** Such a poll can always be made: load, copy the header, check it, copy the frame, finish. */
  lemma {:induction false} PollPossible(w: World)
    requires w.reader.Waiting? && Pollable(w)
    ensures Poll(w, [ReaderLoad] + (CopySteps(0, HEADER_BYTES) + CheckSteps(|InMemory(w).snapshot|)))
  {
    hide Poll, Load, ReadHeader, HeaderOk, CopySteps, CheckSteps;
    HeaderPolls(Next(w, ReaderLoad), 0);
    var rest := CopySteps(0, HEADER_BYTES) + CheckSteps(|InMemory(w).snapshot|);
    assert ([ReaderLoad] + rest)[1..] == rest;
    PollMore(w, [ReaderLoad] + rest);
  }
}
