/**
  The publisher as the writer of the snapshot protocol: the stores that present makes for its
  frames are a run of writer steps, and what the protocol records as published are the frames.
 */
module Publishing {
  import opened Words
  import opened FrameLayout
  import opened FrameAssembly
  import opened SnapshotProtocol

  // ---------------------------------------------------------------- one frame

  // A store as the single-byte steps of the protocol.
  function ByteSteps(at: nat, data: seq<byte>): (steps: seq<Step>)
    ensures |steps| == |data| && forall k :: 0 <= k < |data| ==> steps[k] == WriterStore(at + k, data[k])
  {
    seq(|data|, k requires 0 <= k < |data| => WriterStore(at + k, data[k]))
  }

  function StoreSteps(stores: seq<Stored>): seq<Step>
    decreases |stores|
  {
    if stores == [] then [] else ByteSteps(stores[0].at, stores[0].data) + StoreSteps(stores[1..])
  }

  function FrameSteps(stores: seq<Stored>): seq<Step> {
    [WriterBegin] + (StoreSteps(stores) + [WriterPublish])
  }

  lemma {:induction false} Joined(w: World, a: seq<Step>, b: seq<Step>)
    ensures Interleaving(w, a + b) <==> Interleaving(w, a) && Interleaving(After(w, a), b)
    ensures Interleaving(w, a + b) ==> After(w, a + b) == After(After(w, a), b)
    decreases |a|
  {
    hide Enabled, Next;
    if a == [] {
      assert a + b == b;
    } else {
      assert (a + b)[0] == a[0] && (a + b)[1..] == a[1..] + b;
      if Enabled(w, a[0]) { Joined(Next(w, a[0]), a[1..], b); }
    }
  }

  lemma {:induction false} One(w: World, s: Step)
    requires Enabled(w, s)
    ensures Interleaving(w, [s]) && After(w, [s]) == Next(w, s)
  {
    hide Enabled, Next;
    assert [s][1..] == [];
  }

  // The first n bytes of a store.
  lemma {:induction false} BytesStored(w: World, s: Stored, n: nat)
    requires |w.mem| == IPC_SIZE && w.writing && Outside(s) && n <= |s.data|
    ensures var steps := ByteSteps(s.at, s.data)[..n];
      Interleaving(w, steps) && After(w, steps) == w.(mem := Write(w.mem, s.at, s.data[..n]))
    decreases n
  {
    var steps := ByteSteps(s.at, s.data);
    if n == 0 {
      assert Write(w.mem, s.at, s.data[..0]) == w.mem;
    } else {
      BytesStored(w, s, n - 1);
      var v := After(w, steps[..n - 1]);
      One(v, steps[n - 1]);
      Joined(w, steps[..n - 1], [steps[n - 1]]);
      assert steps[..n - 1] + [steps[n - 1]] == steps[..n];
      hide Interleaving, After;
      assert Write(w.mem, s.at, s.data[..n]) == Write(w.mem, s.at, s.data[..n - 1])[s.at + n - 1 := s.data[n - 1]];
    }
  }

  lemma {:induction false} StoresStored(w: World, stores: seq<Stored>)
    requires |w.mem| == IPC_SIZE && w.writing && AllOutside(stores)
    ensures Interleaving(w, StoreSteps(stores)) && After(w, StoreSteps(stores)) == w.(mem := Apply(w.mem, stores))
    decreases |stores|
  {
    hide Outside, Write, ByteSteps;
    if stores != [] {
      var s := stores[0];
      assert Outside(s);
      BytesStored(w, s, |s.data|);
      assert s.data[..|s.data|] == s.data && ByteSteps(s.at, s.data)[..|s.data|] == ByteSteps(s.at, s.data);
      OutsideFits(s);
      StoresStored(w.(mem := Write(w.mem, s.at, s.data)), stores[1..]);
      Joined(w, ByteSteps(s.at, s.data), StoreSteps(stores[1..]));
    }
  }

  /** One published frame is a run of the protocol's writer: it begins, makes exactly the frame's
      stores, and publishes the region as present leaves it. */
  lemma {:induction false} FramePublished(w: World, stores: seq<Stored>, n: seq<byte>)
    requires !w.writing && |w.published| + 1 < TWO_32 && PublishedBy(w.mem, stores, |w.published| + 1, n)
    ensures Interleaving(w, FrameSteps(stores))
    ensures After(w, FrameSteps(stores)) == w.(mem := n, published := w.published + [n])
  {
    hide Apply, Write, WordBytes, Interleaving, After, AllOutside;
    var begun := w.(writing := true, mem := Write(w.mem, 4, WordBytes(0)));
    One(w, WriterBegin);
    StoresStored(begun, stores);
    var stored := begun.(mem := Apply(begun.mem, stores));
    One(stored, WriterPublish);
    Joined(begun, StoreSteps(stores), [WriterPublish]);
    Joined(w, [WriterBegin], StoreSteps(stores) + [WriterPublish]);
  }

  // ---------------------------------------------------------------- frame after frame

  // The regions are what publishing the frames one after the other leaves, starting from m and
  // with the numbers after n.
  ghost predicate FramesPublished(m: seq<byte>, n: nat, traces: seq<seq<Stored>>, regions: seq<seq<byte>>)
    decreases |traces|
  {
    && |traces| == |regions| && n + |traces| < TWO_32
    && (traces != [] ==>
          PublishedBy(m, traces[0], n + 1, regions[0]) && FramesPublished(regions[0], n + 1, traces[1..], regions[1..]))
  }

  // What the frames leave in the region.
  function LastRegion(m: seq<byte>, regions: seq<seq<byte>>): seq<byte> {
    if regions == [] then m else regions[|regions| - 1]
  }

  // One more frame.
  lemma {:induction false} FramesMore(m: seq<byte>, n: nat, traces: seq<seq<Stored>>, regions: seq<seq<byte>>,
                                      stores: seq<Stored>, region: seq<byte>)
    requires FramesPublished(m, n, traces, regions) && n + |traces| + 1 < TWO_32
    requires PublishedBy(LastRegion(m, regions), stores, n + |traces| + 1, region)
    ensures FramesPublished(m, n, traces + [stores], regions + [region])
    decreases |traces|
  {
    hide PublishedBy;
    var more, all := traces + [stores], regions + [region];
    if traces == [] {
      assert more[1..] == [] && all[1..] == [];
    } else {
      assert more[1..] == traces[1..] + [stores] && all[1..] == regions[1..] + [region];
      assert more[0] == traces[0] && all[0] == regions[0];
      FramesMore(regions[0], n + 1, traces[1..], regions[1..], stores, region);
    }
  }

  // The writer's steps for the frames.
  function Plan(traces: seq<seq<Stored>>): seq<Step>
    decreases |traces|
  {
    if traces == [] then [] else FrameSteps(traces[0]) + Plan(traces[1..])
  }

  lemma {:induction false} NoSteps(w: World)
    ensures Interleaving(w, []) && After(w, []) == w
  {
  }

  lemma {:induction false} PlanPublishes(w: World, traces: seq<seq<Stored>>, regions: seq<seq<byte>>)
    requires !w.writing && FramesPublished(w.mem, |w.published|, traces, regions)
    ensures Interleaving(w, Plan(traces)) && After(w, Plan(traces)).published == w.published + regions
    decreases |traces|
  {
    hide PublishedBy, FrameSteps, Interleaving, After;
    if traces == [] {
      NoSteps(w);
      assert w.published + regions == w.published;
    } else {
      FramePublished(w, traces[0], regions[0]);
      var v := w.(mem := regions[0], published := w.published + [regions[0]]);
      PlanPublishes(v, traces[1..], regions[1..]);
      Joined(w, FrameSteps(traces[0]), Plan(traces[1..]));
      assert v.published + regions[1..] == w.published + regions;
    }
  }

  // ---------------------------------------------------------------- among the reader's steps

  function Writers(steps: seq<Step>): seq<Step>
    decreases |steps|
  {
    if steps == [] then [] else if IsWriter(steps[0]) then [steps[0]] + Writers(steps[1..]) else Writers(steps[1..])
  }

  // The world without its reader.
  function WriterSide(w: World): World {
    w.(reader := Waiting, lastSequence := 0, accepted := [])
  }

  lemma {:induction false} StepOfOneSide(w: World, s: Step)
    requires Enabled(w, s)
    ensures IsWriter(s) ==> Enabled(WriterSide(w), s) && Next(WriterSide(w), s) == WriterSide(Next(w, s))
    ensures !IsWriter(s) ==> WriterSide(Next(w, s)) == WriterSide(w)
  {
    hide Store, Load, HeaderOk, ReadHeader;
  }

  // The reader does not change what the writer does.
  lemma {:induction false} WritersAlone(w: World, steps: seq<Step>)
    requires Interleaving(w, steps)
    ensures Interleaving(WriterSide(w), Writers(steps))
    ensures After(WriterSide(w), Writers(steps)) == WriterSide(After(w, steps))
    decreases |steps|
  {
    hide Enabled, Next, WriterSide, IsWriter;
    if steps != [] {
      StepOfOneSide(w, steps[0]);
      WritersAlone(Next(w, steps[0]), steps[1..]);
      if IsWriter(steps[0]) {
        assert Writers(steps)[0] == steps[0] && Writers(steps)[1..] == Writers(steps[1..]);
      }
    }
  }

  // What was published stays published.
  lemma {:induction false} PublishedGrows(w: World, steps: seq<Step>)
    requires Interleaving(w, steps)
    ensures w.published <= After(w, steps).published
    decreases |steps|
  {
    if steps != [] {
      OneMore(w, steps[0]);
      hide Enabled, Next;
      PublishedGrows(Next(w, steps[0]), steps[1..]);
    }
  }

  lemma {:induction false} OneMore(w: World, s: Step)
    requires Enabled(w, s)
    ensures w.published <= Next(w, s).published
  {
    hide Store, Load, HeaderOk, ReadHeader;
  }

  /** Whatever the reader does in between, when the writer's steps are those of publishing the
      frames, or only the first of them, then the regions recorded as published are the frames'
      regions, or only the first of them. */
  lemma {:induction false} PublishedInOrder(w: World, steps: seq<Step>, traces: seq<seq<Stored>>, regions: seq<seq<byte>>)
    requires !w.writing && Interleaving(w, steps) && Writers(steps) <= Plan(traces)
    requires FramesPublished(w.mem, |w.published|, traces, regions)
    ensures After(w, steps).published <= w.published + regions
  {
    hide Interleaving, After, FramesPublished, Plan, Writers;
    var alone, plan := WriterSide(w), Plan(traces);
    WritersAlone(w, steps);
    PlanPublishes(alone, traces, regions);
    var n := |Writers(steps)|;
    assert plan == Writers(steps) + plan[n..];
    Joined(alone, Writers(steps), plan[n..]);
    PublishedGrows(After(alone, Writers(steps)), plan[n..]);
  }
}
