/**
  Texture uploads: the generation-tracked decision when a draw stage carries texture bytes, and
  the viewer's cache of them.
 */
module TextureCache {
  import opened Options
  import opened Words

  const REFRESH_INTERVAL := 8

  // A texture's upload state and the bytes of the level that draws upload.
  datatype Texture = Texture(generation: u32, lastGeneration: u32, lastFrame: u32, bytes: seq<byte>)

  function NextGeneration(g: u32): u32 {
    if Add32(g, 1) == 0 then 1 else Add32(g, 1)
  }

  predicate ShouldUpload(t: Texture, frame: u32) {
    || t.lastGeneration != t.generation || t.lastFrame == 0 || t.lastFrame > frame
    || frame - t.lastFrame >= REFRESH_INTERVAL
  }

  // What a draw stage sends for a bound texture; uploaded is what the arena copy came to.
  datatype Stage = Stage(id: u32, generation: u32, upload: Option<seq<byte>>)

  function Filled(t: Texture, id: u32, frame: u32, fits: bool): (Texture, Stage) {
    if !ShouldUpload(t, frame) || !fits then (t, Stage(id, t.generation, None))
    else (t.(lastGeneration := t.generation, lastFrame := frame), Stage(id, t.generation, Some(t.bytes)))
  }

  /** A texture object as the frontend keeps it. */
  class TextureObject {
    const id: u32
    var generation: u32
    var lastGeneration: u32
    var lastFrame: u32
    var bytes: seq<byte>

    function Value(): Texture
      reads this
    {
      Texture(generation, lastGeneration, lastFrame, bytes)
    }

    constructor (objectId: u32, initial: seq<byte>)
      ensures id == objectId && Value() == Texture(1, 0, 0, initial)
    {
      id, generation, lastGeneration, lastFrame, bytes := objectId, 1, 0, 0, initial;
    }

    // Every call that changes the bytes marks the texture dirty.
    method Change(b: seq<byte>)
      modifies this
      ensures Value() == old(Value()).(bytes := b, generation := NextGeneration(old(generation)))
    {
      bytes := b;
      generation := Add32(generation, 1);
      if generation == 0 { generation := 1; }
    }

    /** The texture part of a draw stage; fits says whether the arena had room. */
    method FillStage(frame: u32, fits: bool) returns (s: Stage)
      modifies this
      ensures (Value(), s) == Filled(old(Value()), id, frame, fits)
    {
      s := Stage(id, generation, None);
      var should := false;
      if lastGeneration != generation || lastFrame == 0 || lastFrame > frame || frame - lastFrame >= REFRESH_INTERVAL {
        should := true;
      }
      if !should { return; }
      if fits {
        s := Stage(id, generation, Some(bytes));
        lastGeneration := generation;
        lastFrame := frame;
      }
    }
  }

  // ---------------------------------------------------------------- the viewer's cache

  datatype Viewer = Viewer(overrides: map<u32, seq<byte>>, textures: map<u32, seq<byte>>, generations: map<u32, u32>)

  function Lookup(m: map<u32, seq<byte>>, id: u32): Option<seq<byte>> {
    if id in m then Some(m[id]) else None
  }

  // Resolving a stage; usable says that the upload's range, format and allocation are good.
  function Resolved(v: Viewer, s: Stage, usable: bool): (Viewer, Option<seq<byte>>) {
    if s.id == 0 then (v, None)
    else if s.id in v.overrides then (v, Some(v.overrides[s.id]))
    else if s.upload.None? || !usable then (v, Lookup(v.textures, s.id))
    else (v.(textures := v.textures[s.id := s.upload.value], generations := v.generations[s.id := s.generation]),
          s.upload)
  }

  /** The viewer's texture dictionaries. */
  class ViewerTextures {
    var overrides: map<u32, seq<byte>>
    var textures: map<u32, seq<byte>>
    var generations: map<u32, u32>

    function Value(): Viewer
      reads this
    {
      Viewer(overrides, textures, generations)
    }

    constructor ()
      ensures Value() == Viewer(map[], map[], map[])
    {
      overrides, textures, generations := map[], map[], map[];
    }

    method TextureForDrawStage(s: Stage, usable: bool) returns (t: Option<seq<byte>>)
      modifies this
      ensures (Value(), t) == Resolved(old(Value()), s, usable)
    {
      if s.id == 0 { return None; }
      if s.id in overrides { return Some(overrides[s.id]); }
      var cached := Lookup(textures, s.id);
      if cached.Some? && s.id in generations && generations[s.id] == s.generation && s.upload.None? { return cached; }
      if s.upload.None? { return cached; }
      if !usable { return cached; }
      textures := textures[s.id := s.upload.value];
      generations := generations[s.id := s.generation];
      t := s.upload;
    }
  }

  // ---------------------------------------------------------------- runs

  datatype Event =
    | Create(id: u32, bytes: seq<byte>)
    | Change(id: u32, bytes: seq<byte>)
    | NextFrame
    | Draw(id: u32, fits: bool)
    | RenderInto(id: u32, bytes: seq<byte>)

  // One emitted stage: its frame, whether a due upload failed, what the viewer had last drawn
  // into the texture, the texture's bytes at the draw, and what the viewer resolved it to.
  datatype Emission = Emission(frame: u32, stage: Stage, failed: bool, drawn: Option<seq<byte>>, bytes: seq<byte>,
                               seen: Option<seq<byte>>)

  // drawn is what was last drawn into each texture that was drawn into.
  datatype World = World(frame: u32, textures: map<u32, Texture>, drawn: map<u32, seq<byte>>, history: seq<Emission>,
                         viewer: Viewer)

  // Ids are not reused, and frame ids and generations do not wrap.
  predicate Enabled(w: World, e: Event) {
    match e
    case Create(id, _) => id != 0 && id !in w.textures
    case Change(id, _) => id in w.textures && w.textures[id].generation + 1 < TWO_32
    case NextFrame => w.frame + 1 < TWO_32
    case Draw(id, _) => id in w.textures
    case RenderInto(_, _) => true
  }

  function Next(w: World, e: Event): World
    requires Enabled(w, e)
  {
    match e
    case Create(id, b) => w.(textures := w.textures[id := Texture(1, 0, 0, b)])
    case Change(id, b) =>
      var t := w.textures[id];
      w.(textures := w.textures[id := t.(bytes := b, generation := NextGeneration(t.generation))])
    case NextFrame => w.(frame := w.frame + 1)
    case Draw(id, fits) =>
      var t := w.textures[id];
      var (after, stage) := Filled(t, id, w.frame, fits);
      var (viewer, seen) := Resolved(w.viewer, stage, true);
      var emission := Emission(w.frame, stage, ShouldUpload(t, w.frame) && !fits, Lookup(w.drawn, id), t.bytes, seen);
      w.(textures := w.textures[id := after], history := w.history + [emission], viewer := viewer)
    case RenderInto(id, b) =>
      w.(drawn := w.drawn[id := b], viewer := w.viewer.(overrides := w.viewer.overrides[id := b]))
  }

  // An earlier upload of the same generation and the same bytes, fewer than eight frames old.
  predicate Backs(e: Emission, earlier: Emission) {
    && earlier.stage.id == e.stage.id && earlier.stage.generation == e.stage.generation
    && earlier.stage.upload == Some(e.bytes)
    && earlier.frame <= e.frame < earlier.frame + REFRESH_INTERVAL
  }

  ghost predicate Coherent(history: seq<Emission>, k: nat)
    requires k < |history|
  {
    var e := history[k];
    e.failed || e.stage.upload == Some(e.bytes) || exists j :: 0 <= j < k && Backs(e, history[j])
  }

  // A draw's upload goes out, or was due and failed, exactly when nothing backs the draw; what
  // goes out are the texture's bytes.
  ghost predicate DueExactly(history: seq<Emission>, k: nat)
    requires k < |history|
  {
    var e := history[k];
    && (e.failed || e.stage.upload.Some? <==> !exists j :: 0 <= j < k && Backs(e, history[j]))
    && (e.stage.upload.Some? ==> e.stage.upload == Some(e.bytes) && !e.failed)
  }

  // No upload of a texture is later than the one its state remembers.
  ghost predicate NoneLater(w: World, id: u32)
    requires id in w.textures
  {
    var t := w.textures[id];
    forall j :: 0 <= j < |w.history| && w.history[j].stage.id == id && w.history[j].stage.upload.Some? ==>
      w.history[j].stage.generation <= t.lastGeneration && 1 <= w.history[j].frame <= t.lastFrame
  }

  ghost predicate Past(w: World) {
    && (forall id :: id in w.textures ==> NoneLater(w, id))
    && (forall j :: 0 <= j < |w.history| ==> w.history[j].stage.id in w.textures)
    && (forall k :: 0 <= k < |w.history| ==> DueExactly(w.history, k))
  }

  // The upload that a texture's state remembers.
  predicate Remembers(e: Emission, id: u32, t: Texture) {
    && e.stage.id == id && e.stage.generation == t.lastGeneration && e.frame == t.lastFrame
    && e.stage.upload.Some? && (t.lastGeneration == t.generation ==> e.stage.upload == Some(t.bytes))
  }

  ghost predicate TextureOk(w: World, id: u32)
    requires id in w.textures
  {
    var t := w.textures[id];
    && id != 0 && t.lastFrame <= w.frame && t.lastGeneration <= t.generation
    && (t.lastFrame != 0 ==> exists j :: 0 <= j < |w.history| && Remembers(w.history[j], id, t))
    && (t.lastFrame != 0 && id !in w.viewer.overrides ==> id in w.viewer.textures)
    && (t.lastFrame != 0 && id !in w.viewer.overrides && t.lastGeneration == t.generation ==>
          w.viewer.textures[id] == t.bytes)
  }

  // What the viewer last took up for a texture: the last upload that it had not drawn over.
  function LastTaken(history: seq<Emission>, id: u32): Option<seq<byte>>
    decreases |history|
  {
    if history == [] then None
    else
      var e := history[|history| - 1];
      if e.stage.id == id && e.stage.upload.Some? && e.drawn.None? then e.stage.upload
      else LastTaken(history[..|history| - 1], id)
  }

  // The viewer shows what was last drawn into the texture, or else the last upload it took up,
  // which is the texture's bytes unless the due copy failed.
  predicate ShownRight(history: seq<Emission>, k: nat)
    requires k < |history|
  {
    var e := history[k];
    if e.drawn.Some? then e.seen == e.drawn
    else e.seen == LastTaken(history[..k + 1], e.stage.id) && (e.failed || e.seen == Some(e.bytes))
  }

  ghost predicate Inv(w: World) {
    && w.frame >= 1
    && (forall id :: id in w.textures ==> TextureOk(w, id))
    && ViewerOk(w)
    && (forall k :: 0 <= k < |w.history| ==> Coherent(w.history, k) && ShownRight(w.history, k))
  }

  // What the viewer keeps of the textures.
  ghost predicate ViewerOk(w: World) {
    w.viewer.overrides == w.drawn && forall id: u32 :: Lookup(w.viewer.textures, id) == LastTaken(w.history, id)
  }

  ghost predicate Start(w: World) {
    w == World(1, map[], map[], [], Viewer(map[], map[], map[]))
  }

  lemma {:induction false} GenerationGrows(g: u32)
    requires g + 1 < TWO_32
    ensures NextGeneration(g) == g + 1
  {
  }

  // The other textures are not touched by a step that keeps what they rely on.
  lemma {:induction false} OthersKept(w: World, v: World, id: u32)
    requires Tracked(w, id) && id in v.textures && v.textures[id] == w.textures[id]
    requires w.frame <= v.frame && w.history <= v.history
    requires id !in v.viewer.overrides ==> id !in w.viewer.overrides
    requires id in w.viewer.textures ==> id in v.viewer.textures && v.viewer.textures[id] == w.viewer.textures[id]
    ensures TextureOk(v, id)
  {
    var t := w.textures[id];
    if t.lastFrame != 0 {
      var j :| 0 <= j < |w.history| && Remembers(w.history[j], id, t);
      assert v.history[j] == w.history[j];
    }
  }

  ghost predicate Tracked(w: World, id: u32) {
    id in w.textures && TextureOk(w, id)
  }

  lemma {:induction false} CreateStep(w: World, e: Event)
    requires Inv(w) && e.Create? && Enabled(w, e)
    ensures Inv(Next(w, e))
  {
    hide Coherent, TextureOk;
    var v := Next(w, e);
    forall id | id in v.textures ensures TextureOk(v, id) {
      if id != e.id { OthersKept(w, v, id); } else { FreshTexture(v, id, e.bytes); }
    }
  }

  lemma {:induction false} FreshTexture(v: World, id: u32, bytes: seq<byte>)
    requires id in v.textures && v.textures[id] == Texture(1, 0, 0, bytes) && id != 0
    ensures TextureOk(v, id)
  {
  }

  lemma {:induction false} ChangeStep(w: World, e: Event)
    requires Inv(w) && e.Change? && Enabled(w, e)
    ensures Inv(Next(w, e))
  {
    hide Coherent;
    var v := Next(w, e);
    GenerationGrows(w.textures[e.id].generation);
    forall id | id in v.textures ensures TextureOk(v, id) {
      if id != e.id {
        OthersKept(w, v, id);
      } else {
        var t := w.textures[id];
        if t.lastFrame != 0 {
          var j :| 0 <= j < |w.history| && Remembers(w.history[j], id, t);
          assert Remembers(v.history[j], id, v.textures[id]);
        }
      }
    }
  }

  lemma {:induction false} FrameStep(w: World)
    requires Inv(w) && Enabled(w, NextFrame)
    ensures Inv(Next(w, NextFrame))
  {
    hide Coherent, TextureOk;
    var v := Next(w, NextFrame);
    forall id | id in v.textures ensures TextureOk(v, id) {
      OthersKept(w, v, id);
    }
  }

  lemma {:induction false} RenderStep(w: World, e: Event)
    requires Inv(w) && e.RenderInto?
    ensures Inv(Next(w, e))
  {
    hide Coherent, TextureOk;
    var v := Next(w, e);
    forall id | id in v.textures ensures TextureOk(v, id) {
      OthersKept(w, v, id);
    }
  }

  // What a draw's emission is, case by case.
  lemma {:induction false} DrawEmission(w: World, e: Event)
    requires Inv(w) && e.Draw? && Enabled(w, e)
    ensures var v, t := Next(w, e), w.textures[e.id];
      var n := |w.history|;
      && v.history == w.history + [v.history[n]] && v.history[n].bytes == t.bytes
      && Coherent(v.history, n) && ShownRight(v.history, n) && ViewerOk(v)
  {
    var v, t := Next(w, e), w.textures[e.id];
    var n := |w.history|;
    assert TextureOk(w, e.id);
    assert v.history[..n] == w.history && v.history[..n + 1] == v.history;
    if !ShouldUpload(t, w.frame) {
      var j :| 0 <= j < |w.history| && Remembers(w.history[j], e.id, t);
      assert v.history[j] == w.history[j];
      assert Backs(v.history[n], v.history[j]);
    }
  }

  lemma {:induction false} DrawTexture(w: World, e: Event)
    requires Inv(w) && e.Draw? && Enabled(w, e)
    ensures TextureOk(Next(w, e), e.id)
  {
    var v, t := Next(w, e), w.textures[e.id];
    assert TextureOk(w, e.id);
    if ShouldUpload(t, w.frame) && e.fits {
      assert Remembers(v.history[|w.history|], e.id, v.textures[e.id]);
    } else if t.lastFrame != 0 {
      var j :| 0 <= j < |w.history| && Remembers(w.history[j], e.id, t);
      assert v.history[j] == w.history[j];
    }
  }

  lemma {:induction false} CoherentMore(history: seq<Emission>, e: Emission, k: nat)
    requires k < |history| && Coherent(history, k) && ShownRight(history, k)
    ensures Coherent(history + [e], k) && ShownRight(history + [e], k)
  {
    var more := history + [e];
    assert more[k] == history[k] && more[..k + 1] == history[..k + 1];
    if j :| 0 <= j < k && Backs(history[k], history[j]) {
      assert more[j] == history[j];
    }
  }

  lemma {:induction false} DrawStep(w: World, e: Event)
    requires Inv(w) && e.Draw? && Enabled(w, e)
    ensures Inv(Next(w, e))
  {
    var v := Next(w, e);
    DrawEmission(w, e);
    DrawTexture(w, e);
    hide Coherent, TextureOk;
    forall id | id in v.textures ensures TextureOk(v, id) {
      if id != e.id { OthersKept(w, v, id); }
    }
    forall k | 0 <= k < |v.history|
      ensures Coherent(v.history, k) && ShownRight(v.history, k)
    {
      if k < |w.history| { CoherentMore(w.history, v.history[|w.history|], k); }
    }
  }

  // ---------------------------------------------------------------- no upload without need

  lemma {:induction false} DueMore(history: seq<Emission>, e: Emission, k: nat)
    requires k < |history| && DueExactly(history, k)
    ensures DueExactly(history + [e], k)
  {
    var more := history + [e];
    assert more[k] == history[k];
    if j :| 0 <= j < k && Backs(history[k], history[j]) { assert more[j] == history[j]; }
    if j :| 0 <= j < k && Backs(more[k], more[j]) { assert more[j] == history[j]; }
  }

  lemma {:induction false} DrawDue(w: World, e: Event)
    requires Inv(w) && Past(w) && e.Draw? && Enabled(w, e)
    ensures DueExactly(Next(w, e).history, |w.history|)
  {
    var v, t, n := Next(w, e), w.textures[e.id], |w.history|;
    assert TextureOk(w, e.id) && NoneLater(w, e.id);
    if ShouldUpload(t, w.frame) {
      forall j | 0 <= j < n ensures !Backs(v.history[n], v.history[j]) {
        assert v.history[j] == w.history[j];
      }
    } else {
      var j :| 0 <= j < |w.history| && Remembers(w.history[j], e.id, t);
      assert v.history[j] == w.history[j];
      assert Backs(v.history[n], v.history[j]);
    }
  }

  lemma {:induction false} DrawNoneLater(w: World, e: Event, id: u32)
    requires Inv(w) && Past(w) && e.Draw? && Enabled(w, e) && id in w.textures
    ensures id in Next(w, e).textures && NoneLater(Next(w, e), id)
  {
    assert NoneLater(w, id) && TextureOk(w, id);
    hide Resolved, Inv, DueExactly, ViewerOk;
  }

  lemma {:induction false} DrawPast(w: World, e: Event)
    requires Inv(w) && Past(w) && e.Draw? && Enabled(w, e)
    ensures Past(Next(w, e))
  {
    hide Filled, Resolved, Inv, DueExactly, NoneLater;
    var v := Next(w, e);
    DrawDue(w, e);
    forall id | id in v.textures ensures NoneLater(v, id) { DrawNoneLater(w, e, id); }
    forall k | 0 <= k < |v.history| ensures DueExactly(v.history, k) {
      if k < |w.history| { DueMore(w.history, v.history[|w.history|], k); }
    }
    StageIds(w, e);
  }

  lemma {:induction false} StageIds(w: World, e: Event)
    requires Past(w) && e.Draw? && Enabled(w, e)
    ensures var v := Next(w, e);
      forall j :: 0 <= j < |v.history| ==> v.history[j].stage.id in v.textures
  {
    hide Resolved, DueExactly, NoneLater;
  }

  lemma {:induction false} StepPast(w: World, e: Event)
    requires Inv(w) && Past(w) && Enabled(w, e)
    ensures Past(Next(w, e))
  {
    hide Inv, DueExactly;
    if e.Draw? {
      DrawPast(w, e);
    } else {
      var v := Next(w, e);
      forall id | id in v.textures ensures NoneLater(v, id) {
        if id in w.textures { assert NoneLater(w, id); }
      }
    }
  }

  predicate Possible(w: World, events: seq<Event>)
    decreases |events|
  {
    events == [] || (Enabled(w, events[0]) && Possible(Next(w, events[0]), events[1..]))
  }

  function Run(w: World, events: seq<Event>): World
    requires Possible(w, events)
    decreases |events|
  {
    if events == [] then w else Run(Next(w, events[0]), events[1..])
  }

  lemma {:induction false} StepKeepsInv(w: World, e: Event)
    requires Inv(w) && Enabled(w, e)
    ensures Inv(Next(w, e))
  {
    hide Inv, Enabled, Next;
    match e
    case Create(_, _) => CreateStep(w, e);
    case Change(_, _) => ChangeStep(w, e);
    case NextFrame => FrameStep(w);
    case Draw(_, _) => DrawStep(w, e);
    case RenderInto(_, _) => RenderStep(w, e);
  }

  lemma {:induction false} RunKeepsInv(w: World, events: seq<Event>)
    requires Inv(w) && Possible(w, events)
    ensures Inv(Run(w, events))
    decreases |events|
  {
    hide Inv, Enabled, Next;
    if events != [] {
      StepKeepsInv(w, events[0]);
      RunKeepsInv(Next(w, events[0]), events[1..]);
    }
  }

  lemma {:induction false} RunPast(w: World, events: seq<Event>)
    requires Inv(w) && Past(w) && Possible(w, events)
    ensures Past(Run(w, events))
    decreases |events|
  {
    hide Inv, Past, Enabled, Next;
    if events != [] {
      StepKeepsInv(w, events[0]);
      StepPast(w, events[0]);
      RunPast(Next(w, events[0]), events[1..]);
    }
  }

  /** And no upload goes out without need: in every run a stage carries the texture's bytes, or was
      due them and the copy failed, exactly when no upload of the same texture, generation and
      bytes is fewer than eight frames old. */
  lemma {:induction false} UploadsExactlyWhenDue(w: World, events: seq<Event>)
    requires Start(w) && Possible(w, events)
    ensures var h := Run(w, events).history;
      forall k :: 0 <= k < |h| ==> DueExactly(h, k)
  {
    RunPast(w, events);
    hide Run, Possible, DueExactly;
  }

  /** In every run: each emitted stage whose due copy did not fail carries the texture's bytes,
      or follows, by fewer than eight frames, an upload of the same texture, generation and
      bytes. A viewer that consumes every stage resolves it to what it last drew into the texture,
      if it did, and otherwise to the last upload it took up, which is those bytes. */
  lemma {:induction false} CacheCoherence(w: World, events: seq<Event>)
    requires Start(w) && Possible(w, events)
    ensures var h := Run(w, events).history;
      forall k :: 0 <= k < |h| ==> Coherent(h, k) && ShownRight(h, k)
  {
    RunKeepsInv(w, events);
  }
}
