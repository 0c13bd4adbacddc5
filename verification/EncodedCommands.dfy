/**
  Which of a frame's commands are encoded, in which order, and what a copy reads: the textures
  that were drawn into stand for their texture ids from then on.
 */
module EncodedCommands {
  import opened Options
  import opened Words
  import opened PassRouting

  // ---------------------------------------------------------------- textures drawn into

  // A command that draws into the texture with this id, away from the drawable.
  predicate Notes(f: Frame, c: Command, id: u32) {
    id != 0 && c.targetTexture == id && !IsDrawable(f, c) && (c.blit || !c.sceneBlit)
  }

  predicate DrawsInto(f: Frame, e: Event, id: u32) {
    e.Encode? && e.command < |f.commands| && Notes(f, f.commands[e.command], id)
  }

  // The target of the last command that was encoded into the texture with this id.
  function LastDrawnInto(f: Frame, trace: seq<Event>, id: u32): Option<Texture>
    decreases |trace|
  {
    if trace == [] then None
    else if DrawsInto(f, trace[|trace| - 1], id) then Some(trace[|trace| - 1].texture)
    else LastDrawnInto(f, trace[..|trace| - 1], id)
  }

  function Lookup(m: map<u32, Texture>, id: u32): Option<Texture> {
    if id in m then Some(m[id]) else None
  }

  // What stands for a texture id after a trace, given what stood for it before the frame.
  function Standing(f: Frame, trace: seq<Event>, before: map<u32, Texture>, id: u32): Option<Texture> {
    var last := LastDrawnInto(f, trace, id);
    if last.Some? then last else Lookup(before, id)
  }

  ghost predicate InStep(f: Frame, before: map<u32, Texture>, s: State) {
    forall id: u32 :: Lookup(s.overrides, id) == Standing(f, s.trace, before, id)
  }

  lemma {:induction false} StandingNext(f: Frame, trace: seq<Event>, e: Event, before: map<u32, Texture>, id: u32)
    ensures Standing(f, trace + [e], before, id)
      == if DrawsInto(f, e, id) then Some(e.texture) else Standing(f, trace, before, id)
  {
    var more := trace + [e];
    assert more[|more| - 1] == e && more[..|more| - 1] == trace;
  }

  // An event that draws into nothing leaves all as it stands.
  lemma {:induction false} QuietStep(f: Frame, before: map<u32, Texture>, s: State, v: State, e: Event)
    requires InStep(f, before, s) && v.trace == s.trace + [e] && v.overrides == s.overrides
    requires forall id: u32 :: !DrawsInto(f, e, id)
    ensures InStep(f, before, v)
  {
    hide DrawsInto, Standing;
    forall id: u32 ensures Lookup(v.overrides, id) == Standing(f, v.trace, before, id) {
      StandingNext(f, s.trace, e, before, id);
      assert !DrawsInto(f, e, id);
    }
  }

  lemma {:induction false} SameStanding(f: Frame, before: map<u32, Texture>, s: State, v: State)
    requires InStep(f, before, s) && v.trace == s.trace && v.overrides == s.overrides
    ensures InStep(f, before, v)
  {
    hide Standing;
    forall id: u32 ensures Lookup(v.overrides, id) == Standing(f, v.trace, before, id) {
      assert Lookup(s.overrides, id) == Standing(f, s.trace, before, id);
    }
  }

  lemma {:induction false} PassInStep(f: Frame, before: map<u32, Texture>, s: State, key: u32, texture: Texture,
                                      granted: bool)
    requires InStep(f, before, s)
    ensures InStep(f, before, Close(s)) && InStep(f, before, Open(Close(s), key, texture, granted))
  {
    hide InStep;
    var closed := Close(s);
    if s.encoder { QuietStep(f, before, s, closed, End); }
    var begun := Open(closed, key, texture, granted);
    QuietStep(f, before, closed, begun, begun.trace[|closed.trace|]);
  }

  // Encoding a command, with the note that it makes.
  lemma {:induction false} EncodedInStep(f: Frame, before: map<u32, Texture>, s: State, i: nat, key: u32,
                                         texture: Texture,
                                         source: Option<Texture>)
    requires InStep(f, before, s) && i < |f.commands|
    ensures var c, v := f.commands[i], Encoded(s, i, key, texture, source);
      InStep(f, before, if !c.blit && c.sceneBlit then v else Overridden(f, v, c, texture))
  {
    var c, v := f.commands[i], Encoded(s, i, key, texture, source);
    var u := if !c.blit && c.sceneBlit then v else Overridden(f, v, c, texture);
    forall id: u32 ensures Lookup(u.overrides, id) == Standing(f, u.trace, before, id) {
      StandingNext(f, s.trace, v.trace[|s.trace|], before, id);
      assert Lookup(s.overrides, id) == Standing(f, s.trace, before, id);
    }
  }

  lemma {:induction false} BlitInStep(f: Frame, before: map<u32, Texture>, s: State, i: nat)
    requires InStep(f, before, s) && i < |f.commands| && f.commands[i].blit
    ensures InStep(f, before, BlitStep(f, s, i, f.commands[i]))
  {
    hide InStep, CommandTarget, CommandSource, Open, Close, Overridden, Encoded, Key;
    var c := f.commands[i];
    var (targets, texture) := CommandTarget(f, s.targets, c);
    var looked := s.(targets := targets);
    SameStanding(f, before, s, looked);
    var (sources, source) := CommandSource(f, looked, c);
    var found := looked.(targets := sources);
    SameStanding(f, before, s, found);
    if texture.Some? && source.Some? {
      PassInStep(f, before, found, Key(f, c), texture.value, c.grants.encoder);
      var begun := Open(Close(found), Key(f, c), texture.value, c.grants.encoder);
      PassInStep(f, before, begun, Key(f, c), texture.value, c.grants.encoder);
      EncodedInStep(f, before, begun, i, Key(f, c), texture.value, source);
    }
  }

  lemma {:induction false} DrawInStep(f: Frame, before: map<u32, Texture>, s: State, i: nat)
    requires InStep(f, before, s) && i < |f.commands| && !f.commands[i].blit
    ensures InStep(f, before, DrawStep(f, s, i, f.commands[i]))
  {
    hide InStep, CommandTarget, Open, Close, Overridden, Encoded, Key, Continues;
    var c := f.commands[i];
    var (targets, texture) := CommandTarget(f, s.targets, c);
    var looked := s.(targets := targets);
    SameStanding(f, before, s, looked);
    if texture.Some? {
      PassInStep(f, before, looked, Key(f, c), texture.value, c.grants.encoder);
      var begun := if Continues(f, looked, c) then looked else Open(Close(looked), Key(f, c), texture.value, c.grants.encoder);
      EncodedInStep(f, before, begun, i, Key(f, c), texture.value, None);
    }
  }

  lemma {:induction false} StepsInStep(f: Frame, before: map<u32, Texture>, s: State, n: nat)
    requires InStep(f, before, s) && n <= |f.commands|
    ensures InStep(f, before, Steps(f, s, n))
    decreases n
  {
    hide InStep, BlitStep, DrawStep;
    if n > 0 {
      StepsInStep(f, before, s, n - 1);
      var t := Steps(f, s, n - 1);
      if f.commands[n - 1].blit { BlitInStep(f, before, t, n - 1); } else { DrawInStep(f, before, t, n - 1); }
    }
  }

  lemma {:induction false} OverlayInStep(f: Frame, before: map<u32, Texture>, s: State)
    requires InStep(f, before, s)
    ensures InStep(f, before, Close(Overlay(f, s)))
  {
    hide InStep, Open, Close;
    PassInStep(f, before, s, DRAWABLE_KEY, DRAWABLE, f.overlayEncoder);
    var begun := if s.encoder && s.activeDrawable then s else Open(Close(s), DRAWABLE_KEY, DRAWABLE, f.overlayEncoder);
    var e := Encode(|f.commands|, DRAWABLE_KEY, DRAWABLE, None);
    var v := Encoded(begun, |f.commands|, DRAWABLE_KEY, DRAWABLE, None);
    QuietStep(f, before, begun, v, e);
    PassInStep(f, before, s, 0, DRAWABLE, true);
    PassInStep(f, before, begun, 0, DRAWABLE, true);
    PassInStep(f, before, v, 0, DRAWABLE, true);
  }

  function FirstState(targets: Targets, overrides: map<u32, Texture>): State {
    State(false, 0xFFFFFFFF, false, {}, targets, overrides, [])
  }

  /** In every frame, whatever is refused: a texture id is overridden by the target of the last
      command that was encoded away from the drawable into the texture with that id, and by what
      overrode it before the frame when there was none. */
  lemma {:induction false} OverridesFollowTrace(f: Frame, targets: Targets, overrides: map<u32, Texture>)
    ensures var s := Rendered(f, targets, overrides);
      forall id: u32 :: Lookup(s.overrides, id) == Standing(f, s.trace, overrides, id)
  {
    var start := FirstState(targets, overrides);
    assert InStep(f, overrides, start);
    hide InStep, Steps, Overlay, Close;
    StepsInStep(f, overrides, start, |f.commands|);
    OverlayInStep(f, overrides, Steps(f, start, |f.commands|));
    InStepMeans(f, overrides, Rendered(f, targets, overrides));
  }

  lemma {:induction false} InStepMeans(f: Frame, before: map<u32, Texture>, s: State)
    requires InStep(f, before, s)
    ensures forall id: u32 :: Lookup(s.overrides, id) == Standing(f, s.trace, before, id)
  {
  }

  // ---------------------------------------------------------------- what a copy reads

  // The texture that a copy should read: what stands for its source's texture id, or else the
  // uploaded texture of that id, or else the render target that its source describes.
  ghost predicate IsSource(f: Frame, before: map<u32, Texture>, t: Targets, earlier: seq<Event>, c: Command,
                           texture: Texture) {
    var over := Standing(f, earlier, before, c.sourceTexture);
    if c.sourceTexture != 0 && over.Some? then texture == over.value
    else if c.sourceTexture != 0 && c.uploaded.Some? then texture == c.uploaded.value
    else Describes(f, c.source, c.sourceDesc) && Matches(f, t, c.source, texture)
  }

  ghost predicate SourceRight(f: Frame, before: map<u32, Texture>, t: Targets, trace: seq<Event>, k: nat)
    requires k < |trace| && trace[k].Encode?
  {
    var i, source := trace[k].command, trace[k].source;
    if i < |f.commands| && f.commands[i].blit
    then source.Some? && IsSource(f, before, t, trace[..k], f.commands[i], source.value)
    else source.None?
  }

  ghost predicate SourcesRight(f: Frame, before: map<u32, Texture>, s: State) {
    forall k :: 0 <= k < |s.trace| && s.trace[k].Encode? ==> SourceRight(f, before, s.targets, s.trace, k)
  }

  // The targets may change as long as settled ones are kept.
  lemma {:induction false} SourcesStay(f: Frame, before: map<u32, Texture>, s: State, u: Targets)
    requires SourcesRight(f, before, s) && Kept(f, s.targets, u)
    ensures SourcesRight(f, before, s.(targets := u))
  {
    hide Standing, Describes;
    forall k | 0 <= k < |s.trace| && s.trace[k].Encode? ensures SourceRight(f, before, u, s.trace, k) {
      assert SourceRight(f, before, s.targets, s.trace, k);
    }
  }

  lemma {:induction false} SourcesNext(f: Frame, before: map<u32, Texture>, s: State, v: State, e: Event)
    requires SourcesRight(f, before, s) && v.trace == s.trace + [e] && v.targets == s.targets
    requires e.Encode? ==> SourceRight(f, before, v.targets, v.trace, |s.trace|)
    ensures SourcesRight(f, before, v)
  {
    hide IsSource;
    forall k | 0 <= k < |v.trace| && v.trace[k].Encode? ensures SourceRight(f, before, v.targets, v.trace, k) {
      if k < |s.trace| {
        assert v.trace[..k] == s.trace[..k];
        assert SourceRight(f, before, s.targets, s.trace, k);
      }
    }
  }

  lemma {:induction false} PassSources(f: Frame, before: map<u32, Texture>, s: State, key: u32, texture: Texture,
                                       granted: bool)
    requires SourcesRight(f, before, s)
    ensures SourcesRight(f, before, Close(s)) && SourcesRight(f, before, Open(Close(s), key, texture, granted))
  {
    hide SourcesRight;
    var closed := Close(s);
    if s.encoder { SourcesNext(f, before, s, closed, End); }
    var begun := Open(closed, key, texture, granted);
    SourcesNext(f, before, closed, begun, begun.trace[|closed.trace|]);
  }

  lemma {:induction false} OverriddenSources(f: Frame, before: map<u32, Texture>, s: State, c: Command,
                                             texture: Texture)
    requires SourcesRight(f, before, s)
    ensures SourcesRight(f, before, Overridden(f, s, c, texture))
  {
    hide SourceRight;
  }

  // Looking up a source finds what the copy should read, and nothing else.
  lemma {:induction false} SourceFound(f: Frame, before: map<u32, Texture>, s: State, i: nat)
    requires Steady(f) && InStep(f, before, s) && Apart(s.targets) && s.targets.next > DRAWABLE
    requires i < |f.commands| && f.commands[i].blit
    ensures var c := f.commands[i];
      var (u, source) := CommandSource(f, s, c);
      && (source.Some? <==>
            (c.sourceTexture != 0 && (c.sourceTexture in s.overrides || c.uploaded.Some?)) || Describes(f, c.source, c.sourceDesc))
      && (source.Some? ==> IsSource(f, before, u, s.trace, c, source.value))
  {
    var c := f.commands[i];
    assert AllGranted(c);
    assert Names(f, c, c.source, c.sourceDesc);
    assert Lookup(s.overrides, c.sourceTexture) == Standing(f, s.trace, before, c.sourceTexture);
    assert Describes(f, c.source, c.sourceDesc) ==> NamedAs(f, c.source, c.sourceDesc);
    hide Steady, Apart, InStep, Standing, NamedAs, Matches, Kept, TargetTexture;
    LookupSettles(f, s.targets, c.source, c.sourceDesc, true);
  }

  // A new pass changes neither the targets nor what stands for an id.
  lemma {:induction false} PassStanding(f: Frame, before: map<u32, Texture>, s: State, key: u32, texture: Texture,
                                        granted: bool, id: u32)
    requires InStep(f, before, s)
    ensures var begun := Open(Close(s), key, texture, granted);
      begun.targets == s.targets && Standing(f, begun.trace, before, id) == Standing(f, s.trace, before, id)
  {
    PassInStep(f, before, s, key, texture, granted);
    var begun := Open(Close(s), key, texture, granted);
    hide Standing;
    assert Lookup(s.overrides, id) == Standing(f, s.trace, before, id);
    assert Lookup(begun.overrides, id) == Standing(f, begun.trace, before, id);
  }

  lemma {:induction false} BlitPassSources(f: Frame, before: map<u32, Texture>, s: State, i: nat, texture: Texture,
                                           source: Texture)
    requires InStep(f, before, s) && SourcesRight(f, before, s) && i < |f.commands| && f.commands[i].blit
    requires IsSource(f, before, s.targets, s.trace, f.commands[i], source)
    ensures SourcesRight(f, before, BlitPass(f, s, i, f.commands[i], texture, source))
  {
    hide InStep, SourcesRight, Standing, Open, Close, Key, Matches, Describes, Overridden, IsDrawable;
    var c := f.commands[i];
    var key := Key(f, c);
    var begun := Open(Close(s), key, texture, c.grants.encoder);
    PassSources(f, before, s, key, texture, c.grants.encoder);
    PassSources(f, before, begun, key, texture, c.grants.encoder);
    PassStanding(f, before, s, key, texture, c.grants.encoder, c.sourceTexture);
    var v := Encoded(begun, i, key, texture, Some(source));
    assert v.trace[..|begun.trace|] == begun.trace;
    SourcesNext(f, before, begun, v, Encode(i, key, texture, Some(source)));
    OverriddenSources(f, before, v, c, texture);
  }

  lemma {:induction false} BlitSources(f: Frame, before: map<u32, Texture>, s: State, i: nat)
    requires Steady(f) && Faithful(f, s) && InStep(f, before, s) && SourcesRight(f, before, s)
    requires i < |f.commands| && f.commands[i].blit
    ensures SourcesRight(f, before, BlitStep(f, s, i, f.commands[i]))
  {
    hide Steady, InStep, SourcesRight, CommandTarget, CommandSource, BlitPass, Matches, EventMatches, Apart;
    var c := f.commands[i];
    TargetKeeps(f, s, i);
    var (targets, texture) := CommandTarget(f, s.targets, c);
    var looked := s.(targets := targets);
    TargetFaithful(f, s, i);
    SourcesStay(f, before, s, targets);
    SameStanding(f, before, s, looked);
    SourceFaithful(f, looked, i);
    SourceFound(f, before, looked, i);
    var (sources, source) := CommandSource(f, looked, c);
    SourcesStay(f, before, looked, sources);
    SameStanding(f, before, looked, looked.(targets := sources));
    if texture.Some? && source.Some? {
      BlitPassSources(f, before, looked.(targets := sources), i, texture.value, source.value);
    }
  }

  // Looking up a command's target keeps what is settled.
  lemma {:induction false} TargetKeeps(f: Frame, s: State, i: nat)
    requires Steady(f) && Faithful(f, s) && i < |f.commands|
    ensures Kept(f, s.targets, CommandTarget(f, s.targets, f.commands[i]).0)
  {
    var c := f.commands[i];
    assert AllGranted(c);
    if IsDrawable(f, c) {
      KeptSelf(f, s.targets);
    } else {
      assert Names(f, c, c.target, c.targetDesc);
      LookupSettles(f, s.targets, c.target, c.targetDesc, true);
    }
  }

  lemma {:induction false} DrawSources(f: Frame, before: map<u32, Texture>, s: State, i: nat)
    requires Steady(f) && Faithful(f, s) && SourcesRight(f, before, s) && i < |f.commands| && !f.commands[i].blit
    ensures SourcesRight(f, before, DrawStep(f, s, i, f.commands[i]))
  {
    hide Steady, SourcesRight, CommandTarget, Open, Close, Overridden, Key, Continues, IsSource, Faithful, Kept;
    var c := f.commands[i];
    TargetKeeps(f, s, i);
    var (targets, texture) := CommandTarget(f, s.targets, c);
    var looked := s.(targets := targets);
    SourcesStay(f, before, s, targets);
    if texture.Some? {
      var key := Key(f, c);
      PassSources(f, before, looked, key, texture.value, c.grants.encoder);
      var begun := if Continues(f, looked, c) then looked else Open(Close(looked), key, texture.value, c.grants.encoder);
      var v := Encoded(begun, i, key, texture.value, None);
      SourcesNext(f, before, begun, v, Encode(i, key, texture.value, None));
      OverriddenSources(f, before, v, c, texture.value);
    }
  }

  ghost predicate AllRight(f: Frame, before: map<u32, Texture>, s: State) {
    Faithful(f, s) && InStep(f, before, s) && SourcesRight(f, before, s)
  }

  lemma {:induction false} StepRight(f: Frame, before: map<u32, Texture>, s: State, i: nat)
    requires Steady(f) && AllRight(f, before, s) && i < |f.commands|
    ensures AllRight(f, before, Step(f, s, i))
  {
    hide Steady, Faithful, InStep, SourcesRight, BlitStep, DrawStep;
    StepFaithful(f, s, i);
    if f.commands[i].blit {
      BlitInStep(f, before, s, i);
      BlitSources(f, before, s, i);
    } else {
      DrawInStep(f, before, s, i);
      DrawSources(f, before, s, i);
    }
  }

  lemma {:induction false} StepsRight(f: Frame, before: map<u32, Texture>, s: State, n: nat)
    requires Steady(f) && AllRight(f, before, s) && n <= |f.commands|
    ensures AllRight(f, before, Steps(f, s, n))
    decreases n
  {
    hide Steady, AllRight, Step;
    if n > 0 {
      StepsRight(f, before, s, n - 1);
      StepRight(f, before, Steps(f, s, n - 1), n - 1);
    }
  }

  lemma {:induction false} StartRight(f: Frame, targets: Targets, overrides: map<u32, Texture>)
    requires Apart(targets) && targets.next > DRAWABLE
    ensures AllRight(f, overrides, FirstState(targets, overrides))
  {
  }

  lemma {:induction false} OverlaySources(f: Frame, before: map<u32, Texture>, s: State)
    requires SourcesRight(f, before, s)
    ensures SourcesRight(f, before, Close(Overlay(f, s)))
  {
    hide SourcesRight, Open, Close, IsSource;
    PassSources(f, before, s, DRAWABLE_KEY, DRAWABLE, f.overlayEncoder);
    var begun := if s.encoder && s.activeDrawable then s else Open(Close(s), DRAWABLE_KEY, DRAWABLE, f.overlayEncoder);
    var v := Encoded(begun, |f.commands|, DRAWABLE_KEY, DRAWABLE, None);
    SourcesNext(f, before, begun, v, Encode(|f.commands|, DRAWABLE_KEY, DRAWABLE, None));
    PassSources(f, before, begun, 0, DRAWABLE, true);
    PassSources(f, before, v, 0, DRAWABLE, true);
  }

  /** In a steady frame every copy that is encoded reads the texture it should: the target last
      drawn into under its source's texture id, at that point of the frame; or else the uploaded
      texture; or else the render target its source describes. Draws read none this way. */
  lemma {:induction false} CopiesReadTheirSource(f: Frame, targets: Targets, overrides: map<u32, Texture>)
    requires Steady(f) && Apart(targets) && targets.next > DRAWABLE
    ensures var s := Rendered(f, targets, overrides);
      forall k :: 0 <= k < |s.trace| && s.trace[k].Encode? ==> SourceRight(f, overrides, s.targets, s.trace, k)
  {
    hide Steady, Steps, Overlay, Close, Faithful, InStep, SourceRight;
    var start := FirstState(targets, overrides);
    StartRight(f, targets, overrides);
    StepsRight(f, overrides, start, |f.commands|);
    OverlaySources(f, overrides, Steps(f, start, |f.commands|));
  }

  // ---------------------------------------------------------------- which commands are encoded

  // A draw that gets as far as its draw call.
  predicate Drawn(f: Frame, c: Command) {
    c.complete && c.target != 0 && c.usable && (IsDrawable(f, c) || Describes(f, c.target, c.targetDesc))
  }

  ghost predicate Has(trace: seq<Event>, i: nat) {
    exists k :: 0 <= k < |trace| && trace[k].Encode? && trace[k].command == i
  }

  // Before command i, a command was encoded into the texture with this id.
  ghost predicate DrawnIntoBefore(f: Frame, trace: seq<Event>, i: nat, id: u32)
    requires i <= |f.commands|
  {
    exists j :: 0 <= j < i && Notes(f, f.commands[j], id) && Has(trace, j)
  }

  // A copy that can be made: its target and its source resolve, there is a pipeline for it, and
  // neither side is empty.
  ghost predicate Copied(f: Frame, before: map<u32, Texture>, trace: seq<Event>, i: nat)
    requires i < |f.commands|
  {
    var c := f.commands[i];
    && c.target != 0 && (IsDrawable(f, c) || Describes(f, c.target, c.targetDesc)) && c.grants.pipeline
    && HasSource(f, c, c.sourceTexture in before || DrawnIntoBefore(f, trace, i, c.sourceTexture))
    && Sizable(f, c)
  }

  predicate HasSource(f: Frame, c: Command, overridden: bool) {
    (c.sourceTexture != 0 && (overridden || c.uploaded.Some?)) || Describes(f, c.source, c.sourceDesc)
  }

  predicate Sizable(f: Frame, c: Command) {
    && (if IsDrawable(f, c) then f.width != 0 && f.height != 0 else c.targetDesc.width != 0 && c.targetDesc.height != 0)
    && c.sourceDesc.width != 0 && c.sourceDesc.height != 0
  }

  // The trace has encoded commands below n only, in order, and just those that should be.
  ghost predicate Complete(f: Frame, before: map<u32, Texture>, trace: seq<Event>, n: nat)
    requires n <= |f.commands|
  {
    && (forall j, k :: 0 <= j < k < |trace| && trace[j].Encode? && trace[k].Encode? ==>
          trace[j].command < trace[k].command)
    && (forall k :: 0 <= k < |trace| && trace[k].Encode? ==> trace[k].command < n)
    && (forall i :: 0 <= i < n ==>
          (Has(trace, i) <==> if f.commands[i].blit then Copied(f, before, trace, i) else Drawn(f, f.commands[i])))
  }

  // What a step adds: no encoding, or that of its command at the end or before a closing.
  predicate Adds(before: seq<Event>, after: seq<Event>, i: nat, encoded: bool) {
    && |before| <= |after| && after[..|before|] == before
    && (forall k :: |before| <= k < |after| && after[k].Encode? ==> k == |after| - 1 && after[k].command == i && encoded)
    && (encoded ==> |before| < |after| && after[|after| - 1].Encode?)
  }

  lemma {:induction false} PassAdds(s: State, key: u32, texture: Texture, granted: bool, i: nat,
                                    source: Option<Texture>)
    ensures var begun := Open(Close(s), key, texture, granted);
      && Adds(s.trace, begun.trace, i, false) && Adds(s.trace, Close(begun).trace, i, false)
      && Adds(s.trace, Encoded(begun, i, key, texture, source).trace, i, true)
  {
  }

  lemma {:induction false} DrawAdds(f: Frame, s: State, i: nat)
    requires Steady(f) && i < |f.commands| && !f.commands[i].blit
    ensures Adds(s.trace, Step(f, s, i).trace, i, Drawn(f, f.commands[i]))
  {
    var c := f.commands[i];
    assert AllGranted(c);
    var t := CommandTarget(f, s.targets, c);
    assert c.target != 0 ==> (t.1.Some? <==> IsDrawable(f, c) || Describes(f, c.target, c.targetDesc));
    var looked := s.(targets := t.0);
    assert Adds(s.trace, s.trace, i, false);
    if t.1.Some? {
      PassAdds(looked, Key(f, c), t.1.value, true, i, None);
      assert Adds(s.trace, Encoded(looked, i, Key(f, c), t.1.value, None).trace, i, true);
      assert Open(Close(looked), Key(f, c), t.1.value, true).encoder;
    }
    hide Steady, Adds, CommandTarget, Open, Close, Encoded, Key, IsDrawable, Describes;
  }

  lemma {:induction false} BlitPassAdds(f: Frame, s: State, i: nat, c: Command, texture: Texture, source: Texture)
    requires c.grants.encoder
    ensures Adds(s.trace, BlitPass(f, s, i, c, texture, source).trace, i, Sizable(f, c))
  {
    PassAdds(s, Key(f, c), texture, true, i, Some(source));
    assert Open(Close(s), Key(f, c), texture, true).encoder;
    hide Open, Close, Encoded, Adds, Key, IsDrawable;
  }

  // A copy is encoded when, as the overrides are at that point, it can be made.
  predicate CanCopy(f: Frame, s: State, c: Command) {
    && c.target != 0 && (IsDrawable(f, c) || Describes(f, c.target, c.targetDesc)) && c.grants.pipeline
    && HasSource(f, c, c.sourceTexture in s.overrides) && Sizable(f, c)
  }

  lemma {:induction false} BlitAdds(f: Frame, before: map<u32, Texture>, s: State, i: nat)
    requires Steady(f) && Faithful(f, s) && InStep(f, before, s) && i < |f.commands| && f.commands[i].blit
    ensures Adds(s.trace, Step(f, s, i).trace, i, CanCopy(f, s, f.commands[i]))
  {
    var c := f.commands[i];
    assert AllGranted(c);
    assert Adds(s.trace, s.trace, i, false);
    TargetFaithful(f, s, i);
    var t := CommandTarget(f, s.targets, c);
    var looked := s.(targets := t.0);
    SameStanding(f, before, s, looked);
    SourceFound(f, before, looked, i);
    var (u, source) := CommandSource(f, looked, c);
    hide Steady, Faithful, Adds, CommandTarget, CommandSource, BlitPass, InStep, Describes, IsSource, Sizable;
    if t.1.Some? && source.Some? && c.target != 0 && c.grants.pipeline {
      BlitPassAdds(f, looked.(targets := u), i, c, t.1.value, source.value);
    }
  }

  // What stands for an id was there before the frame, or was drawn into.
  lemma {:induction false} StandingDrawn(f: Frame, trace: seq<Event>, before: map<u32, Texture>, id: u32, n: nat)
    requires n <= |f.commands|
    requires forall k :: 0 <= k < |trace| && trace[k].Encode? ==> trace[k].command < n
    ensures Standing(f, trace, before, id).Some? <==> id in before || DrawnIntoBefore(f, trace, n, id)
    decreases |trace|
  {
    if trace != [] {
      var e, less := trace[|trace| - 1], trace[..|trace| - 1];
      assert trace == less + [e];
      StandingNext(f, less, e, before, id);
      StandingDrawn(f, less, before, id, n);
      hide Standing, Notes;
      forall j | 0 <= j < n ensures Has(trace, j) <==> Has(less, j) || (e.Encode? && e.command == j) {
        HasNext(less, e, j);
      }
      if DrawsInto(f, e, id) { assert Has(trace, e.command); }
      if DrawnIntoBefore(f, less, n, id) {
        var j :| 0 <= j < n && Notes(f, f.commands[j], id) && Has(less, j);
        assert Has(trace, j);
      }
    }
  }

  lemma {:induction false} HasNext(trace: seq<Event>, e: Event, j: nat)
    ensures Has(trace + [e], j) <==> Has(trace, j) || (e.Encode? && e.command == j)
  {
    var more := trace + [e];
    assert more[|trace|] == e;
    if k :| 0 <= k < |trace| && trace[k].Encode? && trace[k].command == j { assert more[k] == trace[k]; }
    if k :| 0 <= k < |more| && more[k].Encode? && more[k].command == j { assert k < |trace| ==> more[k] == trace[k]; }
  }

  // Whether a copy can be made depends on the commands before it alone.
  lemma {:induction false} SameCopied(f: Frame, before: map<u32, Texture>, trace: seq<Event>, after: seq<Event>, i: nat)
    requires i < |f.commands| && forall j :: 0 <= j < i ==> (Has(trace, j) <==> Has(after, j))
    ensures Copied(f, before, trace, i) <==> Copied(f, before, after, i)
  {
    hide Has, Notes, Describes, Sizable, IsDrawable;
    var id := f.commands[i].sourceTexture;
    if DrawnIntoBefore(f, trace, i, id) {
      var j :| 0 <= j < i && Notes(f, f.commands[j], id) && Has(trace, j);
      assert Has(after, j);
    }
    if DrawnIntoBefore(f, after, i, id) {
      var j :| 0 <= j < i && Notes(f, f.commands[j], id) && Has(after, j);
      assert Has(trace, j);
    }
  }

  lemma {:induction false} AddsKeeps(before: seq<Event>, after: seq<Event>, n: nat, encoded: bool, i: nat)
    requires Adds(before, after, n, encoded) && i != n
    ensures Has(after, i) <==> Has(before, i)
  {
    forall k | 0 <= k < |before| ensures after[k] == before[k] {}
    if k :| 0 <= k < |before| && before[k].Encode? && before[k].command == i { assert after[k] == before[k]; }
  }

  lemma {:induction false} AddsOrdered(f: Frame, before: seq<Event>, after: seq<Event>, n: nat, encoded: bool)
    requires Adds(before, after, n, encoded)
    requires forall k :: 0 <= k < |before| && before[k].Encode? ==> before[k].command < n
    requires forall j, k :: 0 <= j < k < |before| && before[j].Encode? && before[k].Encode? ==>
      before[j].command < before[k].command
    ensures forall j, k :: 0 <= j < k < |after| && after[j].Encode? && after[k].Encode? ==> after[j].command < after[k].command
    ensures forall k :: 0 <= k < |after| && after[k].Encode? ==> after[k].command < n + 1
    ensures Has(after, n) <==> encoded
  {
    forall k | 0 <= k < |before| ensures after[k] == before[k] {}
    if encoded { assert after[|after| - 1].command == n; }
  }

  // The command of a step is encoded when it should be.
  ghost predicate Should(f: Frame, before: map<u32, Texture>, trace: seq<Event>, i: nat)
    requires i < |f.commands|
  {
    if f.commands[i].blit then Copied(f, before, trace, i) else Drawn(f, f.commands[i])
  }

  lemma {:induction false} AddsCompletes(f: Frame, over: map<u32, Texture>, before: seq<Event>, after: seq<Event>,
                                         n: nat,
                                         encoded: bool)
    requires n < |f.commands| && Complete(f, over, before, n) && Adds(before, after, n, encoded)
    requires encoded == Should(f, over, before, n)
    ensures Complete(f, over, after, n + 1)
  {
    hide Has, Copied, Drawn, Adds;
    AddsOrdered(f, before, after, n, encoded);
    forall i | 0 <= i < n ensures Has(after, i) <==> Has(before, i) {
      AddsKeeps(before, after, n, encoded, i);
    }
    forall i | 0 <= i < n + 1 ensures Has(after, i) <==> Should(f, over, after, i) {
      SameCopied(f, over, before, after, i);
    }
  }

  lemma {:induction false} StepCompletes(f: Frame, over: map<u32, Texture>, s: State, n: nat)
    requires Steady(f) && Faithful(f, s) && InStep(f, over, s) && n < |f.commands| && Complete(f, over, s.trace, n)
    ensures Complete(f, over, Step(f, s, n).trace, n + 1)
  {
    var c := f.commands[n];
    var encoded := if c.blit then CanCopy(f, s, c) else Drawn(f, c);
    CompleteBelow(f, over, s.trace, n);
    StandingDrawn(f, s.trace, over, c.sourceTexture, n);
    InStepMeans(f, over, s);
    assert Lookup(s.overrides, c.sourceTexture) == Standing(f, s.trace, over, c.sourceTexture);
    assert encoded == Should(f, over, s.trace, n) by { hide Standing, DrawnIntoBefore, Describes, Sizable, InStep, Complete; }
    hide Steady, Step, Complete, Adds, Drawn, Faithful, InStep, CanCopy, Should, Standing;
    if c.blit { BlitAdds(f, over, s, n); } else { DrawAdds(f, s, n); }
    AddsCompletes(f, over, s.trace, Step(f, s, n).trace, n, encoded);
  }

  lemma {:induction false} CompleteBelow(f: Frame, over: map<u32, Texture>, trace: seq<Event>, n: nat)
    requires n <= |f.commands| && Complete(f, over, trace, n)
    ensures forall k :: 0 <= k < |trace| && trace[k].Encode? ==> trace[k].command < n
  {
  }

  lemma {:induction false} NothingComplete(f: Frame, over: map<u32, Texture>)
    ensures Complete(f, over, [], 0)
  {
  }

  lemma {:induction false} StepsComplete(f: Frame, targets: Targets, over: map<u32, Texture>, n: nat)
    requires Steady(f) && Apart(targets) && targets.next > DRAWABLE && n <= |f.commands|
    ensures Complete(f, over, Steps(f, FirstState(targets, over), n).trace, n)
    decreases n
  {
    hide Steady, Step, Complete, AllRight;
    var start := FirstState(targets, over);
    if n == 0 {
      NothingComplete(f, over);
    } else {
      StepsComplete(f, targets, over, n - 1);
      StartRight(f, targets, over);
      StepsRight(f, over, start, n - 1);
      RightParts(f, over, Steps(f, start, n - 1));
      hide Faithful, InStep;
      StepCompletes(f, over, Steps(f, start, n - 1), n - 1);
    }
  }

  lemma {:induction false} RightParts(f: Frame, before: map<u32, Texture>, s: State)
    requires AllRight(f, before, s)
    ensures Faithful(f, s) && InStep(f, before, s)
  {
  }

  /** In a steady frame the commands are encoded in their order, each at most once, and just
      those that should be: a draw when it is complete and usable and its target can be resolved; a
      copy when its target and its source resolve, a pipeline is granted, and all four sizes are
      there. A source resolves when its texture id is overridden by then, is uploaded, or its
      surface is described. The overlay comes last, when there is one. */
  lemma {:induction false} CommandsEncodedExactly(f: Frame, targets: Targets, overrides: map<u32, Texture>)
    requires Steady(f) && Apart(targets) && targets.next > DRAWABLE
    ensures var trace := Rendered(f, targets, overrides).trace;
      && (forall j, k :: 0 <= j < k < |trace| && trace[j].Encode? && trace[k].Encode? ==>
            trace[j].command < trace[k].command)
      && (forall i :: 0 <= i < |f.commands| ==>
            (Has(trace, i) <==> if f.commands[i].blit then Copied(f, overrides, trace, i) else Drawn(f, f.commands[i])))
      && (Has(trace, |f.commands|) <==> HasOverlay(f))
  {
    var start := FirstState(targets, overrides);
    var n := |f.commands|;
    StepsComplete(f, targets, overrides, n);
    var s := Steps(f, start, n);
    var after := Rendered(f, targets, overrides).trace;
    OverlayAdds(f, s);
    CompleteBelow(f, overrides, s.trace, n);
    OverlayEncoded(f, s);
    forall k | 0 <= k < |s.trace| ensures after[k] == s.trace[k] {}
    hide Drawn, Steps, Steady, Rendered, Copied;
    forall i | 0 <= i < n ensures Has(after, i) <==> Has(s.trace, i) {
      if k :| 0 <= k < |s.trace| && s.trace[k].Encode? && s.trace[k].command == i { assert after[k] == s.trace[k]; }
    }
    forall i | 0 <= i < n ensures Has(after, i) <==> Should(f, overrides, after, i) {
      SameCopied(f, overrides, s.trace, after, i);
    }
  }

  // The overlay is encoded last.
  lemma {:induction false} OverlayAdds(f: Frame, s: State)
    ensures var after := Close(Overlay(f, s)).trace;
      && |s.trace| <= |after| && after[..|s.trace|] == s.trace
      && (forall k :: |s.trace| <= k < |after| && after[k].Encode? ==> after[k].command == |f.commands|)
      && (forall j, k :: |s.trace| <= j < k < |after| && after[j].Encode? ==> !after[k].Encode?)
  {
  }

  lemma {:induction false} OverlayEncoded(f: Frame, s: State)
    requires f.overlayEncoder && forall k :: 0 <= k < |s.trace| && s.trace[k].Encode? ==> s.trace[k].command < |f.commands|
    ensures Has(Close(Overlay(f, s)).trace, |f.commands|) <==> HasOverlay(f)
  {
    var after := Close(Overlay(f, s)).trace;
    if HasOverlay(f) {
      var e := Encode(|f.commands|, DRAWABLE_KEY, DRAWABLE, None);
      assert after[|after| - 2] == e;
    } else {
      forall k | 0 <= k < |after| ensures !(after[k].Encode? && after[k].command == |f.commands|) {}
    }
  }
}
