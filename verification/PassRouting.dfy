/**
  Routing a frame's commands into render passes: which texture each pass targets, when a pass
  is begun and closed, and whether it clears or loads its target.
 */
module PassRouting {
  import opened Options
  import opened Words

  // Identities of textures; a target's key is its id, and 0 stands for the drawable.
  type Texture = nat
  const DRAWABLE: Texture := 0
  const DRAWABLE_KEY: u32 := 0

  // A 32-bit value held in a 64-bit word.
  type Dword = x: bv64 | x < 0x1_0000_0000

  datatype Desc = Desc(width: Dword, height: Dword, format: Dword)

  function Pack(d: Desc): bv64 {
    d.width | (d.height << 16) | (d.format << 32)
  }

  // The viewer's render targets by id, and the identity of the next texture it makes.
  datatype Entry = Entry(packed: bv64, texture: Texture)
  datatype Targets = Targets(entries: map<u32, Entry>, next: Texture)

  // What the graphics device grants a command.
  datatype Grants = Grants(targetTexture: bool, sourceTexture: bool, pipeline: bool, encoder: bool)

  // complete: a draw's geometry is there; usable: everything a draw checks after its pass is
  // open; sceneBlit: the draw is replaced by a full-screen copy; uploaded: the uploaded
  // texture, if any, that a copy's source texture id names.
  datatype Command = Command(blit: bool, target: u32, targetDesc: Desc, targetTexture: u32,
                             complete: bool, usable: bool, sceneBlit: bool,
                             source: u32, sourceDesc: Desc, sourceTexture: u32, uploaded: Option<Texture>,
                             grants: Grants)

  datatype Frame = Frame(primary: u32, commands: seq<Command>, width: Dword, height: Dword, formats: set<Dword>,
                         overlay: bool, overlayEncoder: bool)

  // What happens on the command buffer. Refused is a pass whose encoder could not be made; a copy
  // is encoded with the texture it reads.
  datatype Event =
    | Begin(key: u32, texture: Texture, clear: bool)
    | Refused(key: u32)
    | End
    | Encode(command: nat, key: u32, texture: Texture, source: Option<Texture>)

  datatype State = State(encoder: bool, activeKey: u32, activeDrawable: bool, cleared: set<u32>,
                         targets: Targets, overrides: map<u32, Texture>, trace: seq<Event>)

  // ---------------------------------------------------------------- the cache of targets

  predicate Describes(f: Frame, id: u32, d: Desc) {
    id != 0 && d.width != 0 && d.height != 0 && d.format in f.formats
  }

  function TargetTexture(f: Frame, t: Targets, id: u32, d: Desc, granted: bool): (Targets, Option<Texture>) {
    if !Describes(f, id, d) then (t, None)
    else if id in t.entries && t.entries[id].packed == Pack(d) then (t, Some(t.entries[id].texture))
    else if !granted then (t, if id in t.entries then Some(t.entries[id].texture) else None)
    else (Targets(t.entries[id := Entry(Pack(d), t.next)], t.next + 1), Some(t.next))
  }

  predicate IsDrawable(f: Frame, c: Command) {
    f.primary != 0 && c.target == f.primary
  }

  function Key(f: Frame, c: Command): u32 {
    if IsDrawable(f, c) then DRAWABLE_KEY else c.target
  }

  function CommandTarget(f: Frame, t: Targets, c: Command): (Targets, Option<Texture>) {
    if IsDrawable(f, c) then (t, Some(DRAWABLE))
    else TargetTexture(f, t, c.target, c.targetDesc, c.grants.targetTexture)
  }

  function CommandSource(f: Frame, s: State, c: Command): (Targets, Option<Texture>) {
    if c.sourceTexture != 0 && c.sourceTexture in s.overrides then (s.targets, Some(s.overrides[c.sourceTexture]))
    else if c.sourceTexture != 0 && c.uploaded.Some? then (s.targets, c.uploaded)
    else if c.source != 0 then TargetTexture(f, s.targets, c.source, c.sourceDesc, c.grants.sourceTexture)
    else (s.targets, None)
  }

  // ---------------------------------------------------------------- passes

  function Close(s: State): State {
    if s.encoder then s.(encoder := false, trace := s.trace + [End]) else s
  }

  function Open(s: State, key: u32, texture: Texture, granted: bool): State {
    var seen := s.(cleared := s.cleared + {key});
    if granted then
      seen.(encoder := true, activeKey := key, activeDrawable := key == DRAWABLE_KEY,
            trace := s.trace + [Begin(key, texture, key !in s.cleared)])
    else
      seen.(encoder := false, trace := s.trace + [Refused(key)])
  }

  function Encoded(s: State, i: nat, key: u32, texture: Texture, source: Option<Texture>): State {
    s.(trace := s.trace + [Encode(i, key, texture, source)])
  }

  // A texture that is drawn into stands for the texture id it was made for.
  function Overridden(f: Frame, s: State, c: Command, texture: Texture): State {
    if !IsDrawable(f, c) && c.targetTexture != 0
    then s.(overrides := s.overrides[c.targetTexture := texture])
    else s
  }

  // A copy always has a pass of its own.
  function BlitPass(f: Frame, s: State, i: nat, c: Command, texture: Texture, source: Texture): State {
    var begun := Open(Close(s), Key(f, c), texture, c.grants.encoder);
    var width := if IsDrawable(f, c) then f.width else c.targetDesc.width;
    var height := if IsDrawable(f, c) then f.height else c.targetDesc.height;
    if !begun.encoder then begun
    else if width == 0 || height == 0 || c.sourceDesc.width == 0 || c.sourceDesc.height == 0 then Close(begun)
    else Overridden(f, Encoded(begun, i, Key(f, c), texture, Some(source)), c, texture)
  }

  function BlitStep(f: Frame, s: State, i: nat, c: Command): State {
    var (targets, texture) := CommandTarget(f, s.targets, c);
    var looked := s.(targets := targets);
    if c.target == 0 then s
    else if texture.None? then looked
    else
      var (sources, source) := CommandSource(f, looked, c);
      var found := looked.(targets := sources);
      if source.None? || !c.grants.pipeline then found
      else BlitPass(f, found, i, c, texture.value, source.value)
  }

  predicate Continues(f: Frame, s: State, c: Command) {
    s.encoder && Key(f, c) == s.activeKey && IsDrawable(f, c) == s.activeDrawable
  }

  function DrawStep(f: Frame, s: State, i: nat, c: Command): State {
    var (targets, texture) := CommandTarget(f, s.targets, c);
    var looked := s.(targets := targets);
    if !c.complete || c.target == 0 then s
    else if texture.None? then looked
    else
      var begun := if Continues(f, looked, c) then looked
                    else Open(Close(looked), Key(f, c), texture.value, c.grants.encoder);
      if !begun.encoder || !c.usable then begun
      else if c.sceneBlit then Encoded(begun, i, Key(f, c), texture.value, None)
      else Overridden(f, Encoded(begun, i, Key(f, c), texture.value, None), c, texture.value)
  }

  function Step(f: Frame, s: State, i: nat): State
    requires i < |f.commands|
  {
    if f.commands[i].blit then BlitStep(f, s, i, f.commands[i]) else DrawStep(f, s, i, f.commands[i])
  }

  function Steps(f: Frame, s: State, n: nat): State
    requires n <= |f.commands|
  {
    if n == 0 then s else Step(f, Steps(f, s, n - 1), n - 1)
  }

  predicate HasOverlay(f: Frame) {
    f.overlay && |f.commands| > 0 && f.width != 0 && f.height != 0
  }

  function Overlay(f: Frame, s: State): State {
    if !HasOverlay(f) then s
    else
      var begun := if s.encoder && s.activeDrawable then s
                    else Open(Close(s), DRAWABLE_KEY, DRAWABLE, f.overlayEncoder);
      if begun.encoder then Encoded(begun, |f.commands|, DRAWABLE_KEY, DRAWABLE, None) else begun
  }

  function Rendered(f: Frame, targets: Targets, overrides: map<u32, Texture>): State {
    Close(Overlay(f, Steps(f, State(false, 0xFFFFFFFF, false, {}, targets, overrides, []), |f.commands|)))
  }

  /** The viewer's render targets, and the encoder that a frame's commands share. */
  class Renderer {
    var entries: map<u32, Entry>
    var next: Texture
    var overrides: map<u32, Texture>
    var encoder: bool
    var activeKey: u32
    var activeDrawable: bool
    var cleared: set<u32>
    var trace: seq<Event>

    function Value(): State
      reads this
    {
      State(encoder, activeKey, activeDrawable, cleared, Targets(entries, next), overrides, trace)
    }

    constructor ()
      ensures Value() == State(false, 0xFFFFFFFF, false, {}, Targets(map[], DRAWABLE + 1), map[], [])
    {
      entries, next, overrides := map[], DRAWABLE + 1, map[];
      encoder, activeKey, activeDrawable, cleared, trace := false, 0xFFFFFFFF, false, {}, [];
    }

    method RenderTargetTexture(f: Frame, id: u32, d: Desc, granted: bool) returns (texture: Option<Texture>)
      modifies this`entries, this`next
      ensures (Targets(entries, next), texture) == TargetTexture(f, old(Targets(entries, next)), id, d, granted)
    {
      if id == 0 || d.width == 0 || d.height == 0 || d.format !in f.formats { return None; }
      if id in entries && entries[id].packed == Pack(d) { return Some(entries[id].texture); }
      if !granted {
        return if id in entries then Some(entries[id].texture) else None;
      }
      texture := Some(next);
      entries := entries[id := Entry(Pack(d), next)];
      next := next + 1;
    }

    method CommandTargetTexture(f: Frame, c: Command) returns (texture: Option<Texture>)
      modifies this`entries, this`next
      ensures (Targets(entries, next), texture) == CommandTarget(f, old(Targets(entries, next)), c)
    {
      if f.primary != 0 && c.target == f.primary {
        texture := Some(DRAWABLE);
      } else {
        texture := RenderTargetTexture(f, c.target, c.targetDesc, c.grants.targetTexture);
      }
    }

    method SourceTexture(f: Frame, c: Command) returns (texture: Option<Texture>)
      modifies this`entries, this`next
      ensures (Targets(entries, next), texture) == CommandSource(f, old(Value()), c)
    {
      texture := None;
      if c.sourceTexture != 0 {
        texture := if c.sourceTexture in overrides then Some(overrides[c.sourceTexture]) else c.uploaded;
      }
      if texture.None? && c.source != 0 {
        texture := RenderTargetTexture(f, c.source, c.sourceDesc, c.grants.sourceTexture);
      }
    }

    method EndPass()
      modifies this`encoder, this`trace
      ensures Value() == Close(old(Value()))
    {
      if encoder {
        trace := trace + [End];
        encoder := false;
      }
    }

    method BeginPass(key: u32, texture: Texture, granted: bool)
      modifies this`encoder, this`activeKey, this`activeDrawable, this`cleared, this`trace
      ensures Value() == Open(Close(old(Value())), key, texture, granted)
    {
      EndPass();
      var seen := key in cleared;
      if !seen { cleared := cleared + {key}; }
      assert cleared == old(cleared) + {key};
      encoder := granted;
      if !granted {
        trace := trace + [Refused(key)];
        return;
      }
      trace := trace + [Begin(key, texture, !seen)];
      activeKey := key;
      activeDrawable := key == DRAWABLE_KEY;
    }

    method NoteOverride(f: Frame, c: Command, texture: Texture)
      modifies this`overrides
      ensures Value() == Overridden(f, old(Value()), c, texture)
    {
      if !(f.primary != 0 && c.target == f.primary) && c.targetTexture != 0 {
        overrides := overrides[c.targetTexture := texture];
      }
    }

    method StretchRect(f: Frame, i: nat, c: Command)
      modifies this
      ensures Value() == BlitStep(f, old(Value()), i, c)
    {
      hide CommandTarget, CommandSource, BlitPass;
      if c.target == 0 { return; }
      var texture := CommandTargetTexture(f, c);
      if texture.None? { return; }
      var source := SourceTexture(f, c);
      if source.None? || !c.grants.pipeline { return; }
      CopyInPass(f, i, c, texture.value, source.value);
    }

    method CopyInPass(f: Frame, i: nat, c: Command, texture: Texture, source: Texture)
      modifies this`encoder, this`activeKey, this`activeDrawable, this`cleared, this`trace, this`overrides
      ensures Value() == BlitPass(f, old(Value()), i, c, texture, source)
    {
      hide Open, Close, Overridden;
      var drawable := f.primary != 0 && c.target == f.primary;
      var key := if drawable then DRAWABLE_KEY else c.target;
      BeginPass(key, texture, c.grants.encoder);
      if !encoder { return; }
      var width := if drawable then f.width else c.targetDesc.width;
      var height := if drawable then f.height else c.targetDesc.height;
      if width == 0 || height == 0 || c.sourceDesc.width == 0 || c.sourceDesc.height == 0 {
        EndPass();
        return;
      }
      trace := trace + [Encode(i, key, texture, Some(source))];
      NoteOverride(f, c, texture);
    }

    // The open pass, when it is this draw's, and otherwise a new one.
    method UsePass(f: Frame, c: Command, key: u32, drawable: bool, texture: Texture)
      requires key == Key(f, c) && drawable == IsDrawable(f, c)
      modifies this`encoder, this`activeKey, this`activeDrawable, this`cleared, this`trace
      ensures Value() == if Continues(f, old(Value()), c) then old(Value())
                         else Open(Close(old(Value())), key, texture, c.grants.encoder)
    {
      hide Open, Close;
      if !encoder || key != activeKey || drawable != activeDrawable {
        BeginPass(key, texture, c.grants.encoder);
      }
    }

    method DrawIndexed(f: Frame, i: nat, c: Command)
      modifies this
      ensures Value() == DrawStep(f, old(Value()), i, c)
    {
      hide CommandTarget, Open, Close, Overridden, Continues;
      if !c.complete || c.target == 0 { return; }
      var drawable := f.primary != 0 && c.target == f.primary;
      var key := if drawable then DRAWABLE_KEY else c.target;
      var texture := CommandTargetTexture(f, c);
      if texture.None? { return; }
      UsePass(f, c, key, drawable, texture.value);
      if !encoder || !c.usable { return; }
      trace := trace + [Encode(i, key, texture.value, None)];
      if c.sceneBlit { return; }
      NoteOverride(f, c, texture.value);
    }

    /** A whole frame: its commands in order, the overlay, and the end of the last pass. */
    method RenderFrame(f: Frame)
      modifies this
      ensures Value() == Rendered(f, old(Targets(entries, next)), old(overrides))
    {
      encoder, activeKey, activeDrawable, cleared, trace := false, 0xFFFFFFFF, false, {}, [];
      ghost var start := Value();
      for i := 0 to |f.commands|
        invariant Value() == Steps(f, start, i)
      {
        if f.commands[i].blit { StretchRect(f, i, f.commands[i]); } else { DrawIndexed(f, i, f.commands[i]); }
      }
      if f.overlay && |f.commands| > 0 && f.width != 0 && f.height != 0 {
        if !encoder || !activeDrawable { BeginPass(DRAWABLE_KEY, DRAWABLE, f.overlayEncoder); }
        if !encoder { return; }
        trace := trace + [Encode(|f.commands|, DRAWABLE_KEY, DRAWABLE, None)];
      }
      EndPass();
    }
  }

  // ---------------------------------------------------------------- reading a trace

  // The key and texture of the pass that is open after a trace.
  function Current(trace: seq<Event>): Option<(u32, Texture)>
    decreases |trace|
  {
    if trace == [] then None
    else match trace[|trace| - 1]
      case Begin(key, texture, _) => Some((key, texture))
      case End => None
      case _ => Current(trace[..|trace| - 1])
  }

  predicate Attempt(e: Event, key: u32) {
    (e.Begin? || e.Refused?) && e.key == key
  }

  ghost predicate Tried(trace: seq<Event>, key: u32) {
    exists j :: 0 <= j < |trace| && Attempt(trace[j], key)
  }

  // Passes do not nest; a command is encoded in an open pass on its own key; and a pass clears
  // exactly when no earlier pass was tried on its key.
  ghost predicate EventOk(f: Frame, trace: seq<Event>, k: nat)
    requires k < |trace|
  {
    match trace[k]
    case Begin(key, _, clear) =>
      Current(trace[..k]).None? && (clear <==> !Tried(trace[..k], key))
    case Refused(_) => Current(trace[..k]).None?
    case End => Current(trace[..k]).Some?
    case Encode(i, key, _, _) =>
      && Current(trace[..k]).Some? && Current(trace[..k]).value.0 == key
      && i <= |f.commands| && key == (if i < |f.commands| then Key(f, f.commands[i]) else DRAWABLE_KEY)
  }

  ghost predicate Inv(f: Frame, s: State) {
    && (s.encoder <==> Current(s.trace).Some?)
    && (s.encoder ==> Current(s.trace).value.0 == s.activeKey && (s.activeDrawable <==> s.activeKey == DRAWABLE_KEY))
    && (forall key :: key in s.cleared <==> Tried(s.trace, key))
    && (forall k :: 0 <= k < |s.trace| ==> EventOk(f, s.trace, k))
  }

  lemma {:induction false} Appended(f: Frame, trace: seq<Event>, e: Event)
    requires forall k :: 0 <= k < |trace| ==> EventOk(f, trace, k)
    requires EventOk(f, trace + [e], |trace|)
    ensures forall k :: 0 <= k < |trace| + 1 ==> EventOk(f, trace + [e], k)
    ensures (trace + [e])[..|trace|] == trace
  {
    forall k | 0 <= k < |trace| ensures EventOk(f, trace + [e], k) {
      assert (trace + [e])[..k] == trace[..k];
      assert EventOk(f, trace, k);
    }
  }

  lemma {:induction false} CloseOk(f: Frame, s: State)
    requires Inv(f, s)
    ensures Inv(f, Close(s)) && !Close(s).encoder
  {
    if s.encoder {
      assert (s.trace + [End])[..|s.trace|] == s.trace;
      Appended(f, s.trace, End);
      forall other: u32 ensures Tried(s.trace + [End], other) <==> Tried(s.trace, other) {
        TriedMore(s.trace, End, other);
      }
    }
  }

  // Appending an event tries the key of the pass it begins, if any, and no other.
  lemma {:induction false} TriedMore(trace: seq<Event>, e: Event, key: u32)
    ensures Tried(trace + [e], key) <==> Tried(trace, key) || Attempt(e, key)
  {
    var more := trace + [e];
    if Attempt(e, key) { assert Attempt(more[|trace|], key); }
    if j :| 0 <= j < |trace| && Attempt(trace[j], key) { assert more[j] == trace[j]; }
    if j :| 0 <= j < |more| && Attempt(more[j], key) { assert j < |trace| ==> more[j] == trace[j]; }
  }

  lemma {:induction false} OpenOk(f: Frame, s: State, key: u32, texture: Texture, granted: bool)
    requires Inv(f, s) && !s.encoder
    ensures Inv(f, Open(s, key, texture, granted))
  {
    var v := Open(s, key, texture, granted);
    var e := v.trace[|s.trace|];
    assert v.trace == s.trace + [e];
    assert v.trace[..|s.trace|] == s.trace;
    Appended(f, s.trace, e);
    forall other: u32 ensures other in v.cleared <==> Tried(v.trace, other) {
      TriedMore(s.trace, e, other);
    }
  }

  lemma {:induction false} EncodedOk(f: Frame, s: State, i: nat, key: u32, texture: Texture, source: Option<Texture>)
    requires Inv(f, s) && s.encoder && s.activeKey == key
    requires i <= |f.commands| && key == (if i < |f.commands| then Key(f, f.commands[i]) else DRAWABLE_KEY)
    ensures Inv(f, Encoded(s, i, key, texture, source))
  {
    var e := Encode(i, key, texture, source);
    assert (s.trace + [e])[..|s.trace|] == s.trace;
    Appended(f, s.trace, e);
    forall other: u32 ensures Tried(s.trace + [e], other) <==> Tried(s.trace, other) {
      TriedMore(s.trace, e, other);
    }
  }

  // A command's own part of a step: closing, opening and encoding in its pass.
  lemma {:induction false} PassOk(f: Frame, s: State, i: nat, key: u32, texture: Texture, granted: bool,
                                  source: Option<Texture>)
    requires Inv(f, s) && i < |f.commands| && key == Key(f, f.commands[i])
    ensures var begun := Open(Close(s), key, texture, granted);
      Inv(f, begun) && Inv(f, Close(begun)) && (begun.encoder ==> Inv(f, Encoded(begun, i, key, texture, source)))
  {
    CloseOk(f, s);
    OpenOk(f, Close(s), key, texture, granted);
    var begun := Open(Close(s), key, texture, granted);
    CloseOk(f, begun);
    hide Inv;
    if begun.encoder { EncodedOk(f, begun, i, key, texture, source); }
  }

  lemma {:induction false} OverriddenOk(f: Frame, s: State, c: Command, texture: Texture)
    requires Inv(f, s)
    ensures Inv(f, Overridden(f, s, c, texture))
  {
    SameTrace(f, s, Overridden(f, s, c, texture));
  }

  lemma {:induction false} BlitOk(f: Frame, s: State, i: nat)
    requires Inv(f, s) && i < |f.commands|
    ensures Inv(f, BlitStep(f, s, i, f.commands[i]))
  {
    hide Inv, CommandTarget, CommandSource, Open, Close, Overridden, Encoded, Key;
    var c := f.commands[i];
    var t := CommandTarget(f, s.targets, c);
    var looked := s.(targets := t.0);
    SameTrace(f, s, looked);
    if t.1.Some? {
      var texture, key := t.1.value, Key(f, c);
      var (sources, source) := CommandSource(f, looked, c);
      var found := looked.(targets := sources);
      SameTrace(f, s, found);
      PassOk(f, found, i, key, texture, c.grants.encoder, source);
      var begun := Open(Close(found), key, texture, c.grants.encoder);
      if begun.encoder { OverriddenOk(f, Encoded(begun, i, key, texture, source), c, texture); }
    }
  }

  lemma {:induction false} DrawOk(f: Frame, s: State, i: nat)
    requires Inv(f, s) && i < |f.commands|
    ensures Inv(f, DrawStep(f, s, i, f.commands[i]))
  {
    var c := f.commands[i];
    var t := CommandTarget(f, s.targets, c);
    var looked := s.(targets := t.0);
    SameTrace(f, s, looked);
    hide Inv, CommandTarget, Open, Close, Overridden, Encoded, Key, IsDrawable;
    if t.1.Some? {
      var texture, key := t.1.value, Key(f, c);
      PassOk(f, looked, i, key, texture, c.grants.encoder, None);
      if Continues(f, looked, c) { EncodedOk(f, looked, i, key, texture, None); }
      var begun := if Continues(f, looked, c) then looked else Open(Close(looked), key, texture, c.grants.encoder);
      if begun.encoder { OverriddenOk(f, Encoded(begun, i, key, texture, None), c, texture); }
    }
  }

  lemma {:induction false} StepOk(f: Frame, s: State, i: nat)
    requires Inv(f, s) && i < |f.commands|
    ensures Inv(f, Step(f, s, i))
  {
    hide Inv, BlitStep, DrawStep;
    BlitOk(f, s, i);
    DrawOk(f, s, i);
  }

  // The invariant speaks of the trace, the encoder and the cleared keys alone.
  lemma {:induction false} SameTrace(f: Frame, s: State, v: State)
    requires Inv(f, s)
    requires v == s.(targets := v.targets, overrides := v.overrides)
    ensures Inv(f, v)
  {
  }

  lemma {:induction false} StepsOk(f: Frame, s: State, n: nat)
    requires Inv(f, s) && n <= |f.commands|
    ensures Inv(f, Steps(f, s, n))
    decreases n
  {
    hide Inv, Step;
    if n > 0 {
      StepsOk(f, s, n - 1);
      StepOk(f, Steps(f, s, n - 1), n - 1);
    }
  }

  lemma {:induction false} OverlayOk(f: Frame, s: State)
    requires Inv(f, s)
    ensures Inv(f, Overlay(f, s))
  {
    hide EventOk, Current;
    CloseOk(f, s);
    OpenOk(f, Close(s), DRAWABLE_KEY, DRAWABLE, f.overlayEncoder);
    var begun := if s.encoder && s.activeDrawable then s
                  else Open(Close(s), DRAWABLE_KEY, DRAWABLE, f.overlayEncoder);
    if begun.encoder {
      EncodedOk(f, begun, |f.commands|, DRAWABLE_KEY, DRAWABLE, None);
    }
  }

  lemma {:induction false} NothingYet(f: Frame, targets: Targets, overrides: map<u32, Texture>)
    ensures Inv(f, State(false, 0xFFFFFFFF, false, {}, targets, overrides, []))
  {
  }

  /** In every frame, whatever the device refuses: passes never nest and all are closed; each
      command is encoded inside a pass on its own target's key; and a pass clears its target
      exactly when it is the first that was tried on it, so with no refusals the first pass of
      each target clears it and every later one loads it. */
  lemma {:induction false} PassesAreBracketed(f: Frame, targets: Targets, overrides: map<u32, Texture>)
    ensures var trace := Rendered(f, targets, overrides).trace;
      Current(trace).None? && forall k :: 0 <= k < |trace| ==> EventOk(f, trace, k)
  {
    var s := State(false, 0xFFFFFFFF, false, {}, targets, overrides, []);
    NothingYet(f, targets, overrides);
    StepsOk(f, s, |f.commands|);
    hide Steps;
    OverlayOk(f, Steps(f, s, |f.commands|));
    hide Overlay;
    CloseOk(f, Overlay(f, Steps(f, s, |f.commands|)));
  }

  // ---------------------------------------------------------------- textures

  // The frame uses a target id, as a destination or a copy's source, with this description.
  ghost predicate NamedAs(f: Frame, id: u32, d: Desc) {
    && Describes(f, id, d)
    && exists i :: 0 <= i < |f.commands| && Names(f, f.commands[i], id, d)
  }

  predicate Names(f: Frame, c: Command, id: u32, d: Desc) {
    (!IsDrawable(f, c) && c.target == id && c.targetDesc == d) || (c.blit && c.source == id && c.sourceDesc == d)
  }

  predicate AllGranted(c: Command) {
    c.grants.targetTexture && c.grants.sourceTexture && c.grants.encoder
  }

  // Each id has one description throughout the frame, and the device refuses nothing.
  ghost predicate Steady(f: Frame) {
    && (forall id, d, e :: NamedAs(f, id, d) && NamedAs(f, id, e) ==> Pack(d) == Pack(e))
    && (forall i :: 0 <= i < |f.commands| ==> AllGranted(f.commands[i]))
    && f.overlayEncoder
  }

  // Different ids have different textures, none of them the drawable's.
  predicate Apart(t: Targets) {
    && (forall id :: id in t.entries ==> DRAWABLE < t.entries[id].texture < t.next)
    && (forall x, y :: x in t.entries && y in t.entries && x != y ==> t.entries[x].texture != t.entries[y].texture)
  }

  ghost predicate Settled(f: Frame, t: Targets, id: u32) {
    id in t.entries && forall d :: NamedAs(f, id, d) ==> t.entries[id].packed == Pack(d)
  }

  ghost predicate Matches(f: Frame, t: Targets, key: u32, texture: Texture) {
    if key == DRAWABLE_KEY then texture == DRAWABLE else Settled(f, t, key) && t.entries[key].texture == texture
  }

  ghost predicate Kept(f: Frame, t: Targets, u: Targets) {
    Apart(u) && forall id :: Settled(f, t, id) ==> Settled(f, u, id) && u.entries[id] == t.entries[id]
  }

  lemma {:induction false} LookupSettles(f: Frame, t: Targets, id: u32, d: Desc, granted: bool)
    requires Steady(f) && Apart(t) && t.next > DRAWABLE && granted
    requires Describes(f, id, d) ==> NamedAs(f, id, d)
    ensures var (u, texture) := TargetTexture(f, t, id, d, granted);
      && Kept(f, t, u) && u.next > DRAWABLE && (texture.Some? <==> Describes(f, id, d))
      && (texture.Some? ==> Matches(f, u, id, texture.value))
  {
    hide Pack, NamedAs;
  }

  ghost predicate EventMatches(f: Frame, t: Targets, e: Event) {
    match e
    case Begin(key, texture, _) => Matches(f, t, key, texture)
    case Encode(_, key, texture, _) => Matches(f, t, key, texture)
    case End => true
    case Refused(_) => false
  }

  ghost predicate Faithful(f: Frame, s: State) {
    && Apart(s.targets) && s.targets.next > DRAWABLE
    && forall k :: 0 <= k < |s.trace| ==> EventMatches(f, s.targets, s.trace[k])
  }

  // The targets may change under a trace as long as settled ones are kept.
  lemma {:induction false} TargetsChange(f: Frame, s: State, u: Targets)
    requires Faithful(f, s) && Kept(f, s.targets, u) && u.next > DRAWABLE
    ensures Faithful(f, s.(targets := u))
  {
    forall k | 0 <= k < |s.trace| ensures EventMatches(f, u, s.trace[k]) {
      assert EventMatches(f, s.targets, s.trace[k]);
    }
  }

  lemma {:induction false} TargetFaithful(f: Frame, s: State, i: nat)
    requires Steady(f) && Faithful(f, s) && i < |f.commands|
    ensures var c := f.commands[i];
      var (u, texture) := CommandTarget(f, s.targets, c);
      && Faithful(f, s.(targets := u))
      && (texture.Some? <==> IsDrawable(f, c) || Describes(f, c.target, c.targetDesc))
      && (texture.Some? ==> Matches(f, u, Key(f, c), texture.value))
  {
    var c := f.commands[i];
    assert AllGranted(c);
    if !IsDrawable(f, c) {
      assert Names(f, c, c.target, c.targetDesc);
      LookupSettles(f, s.targets, c.target, c.targetDesc, true);
      hide Apart, Kept;
      TargetsChange(f, s, CommandTarget(f, s.targets, c).0);
    }
  }

  lemma {:induction false} KeptSelf(f: Frame, t: Targets)
    requires Apart(t)
    ensures Kept(f, t, t)
  {
  }

  // Looking up a copy's source settles at most one target.
  lemma {:induction false} SourceSettles(f: Frame, s: State, c: Command)
    requires Steady(f) && Apart(s.targets) && s.targets.next > DRAWABLE && c.grants.sourceTexture
    requires Describes(f, c.source, c.sourceDesc) ==> NamedAs(f, c.source, c.sourceDesc)
    ensures var u := CommandSource(f, s, c).0;
      Kept(f, s.targets, u) && u.next > DRAWABLE
  {
    hide Apart, Kept, Steady, Describes, NamedAs, TargetTexture;
    KeptSelf(f, s.targets);
    LookupSettles(f, s.targets, c.source, c.sourceDesc, true);
  }

  lemma {:induction false} SourceFaithful(f: Frame, s: State, i: nat)
    requires Steady(f) && Faithful(f, s) && i < |f.commands| && f.commands[i].blit
    ensures var u := CommandSource(f, s, f.commands[i]).0;
      Faithful(f, s.(targets := u)) && Kept(f, s.targets, u)
  {
    var c := f.commands[i];
    assert AllGranted(c);
    assert Names(f, c, c.source, c.sourceDesc);
    hide Apart, Kept, CommandSource, Steady, Describes, NamedAs;
    SourceSettles(f, s, c);
    TargetsChange(f, s, CommandSource(f, s, c).0);
  }

  lemma {:induction false} PassFaithful(f: Frame, s: State, i: nat, key: u32, texture: Texture, source: Option<Texture>)
    requires Faithful(f, s) && Matches(f, s.targets, key, texture)
    ensures var begun := Open(Close(s), key, texture, true);
      Faithful(f, begun) && Faithful(f, Close(begun)) && Faithful(f, Encoded(begun, i, key, texture, source))
    ensures Faithful(f, Encoded(s, i, key, texture, source))
  {
    hide Matches, Apart;
  }

  lemma {:induction false} BlitPassFaithful(f: Frame, s: State, i: nat, c: Command, texture: Texture, source: Texture)
    requires Faithful(f, s) && AllGranted(c) && Matches(f, s.targets, Key(f, c), texture)
    ensures Faithful(f, BlitPass(f, s, i, c, texture, source))
  {
    hide Faithful, Matches, Open, Close, Encoded, Overridden;
    PassFaithful(f, s, i, Key(f, c), texture, Some(source));
    var begun := Open(Close(s), Key(f, c), texture, true);
    OverrideFaithful(f, Encoded(begun, i, Key(f, c), texture, Some(source)), c, texture);
  }

  lemma {:induction false} BlitFaithful(f: Frame, s: State, i: nat)
    requires Steady(f) && Faithful(f, s) && i < |f.commands| && f.commands[i].blit
    ensures Faithful(f, BlitStep(f, s, i, f.commands[i]))
  {
    var c := f.commands[i];
    assert AllGranted(c);
    TargetFaithful(f, s, i);
    var t := CommandTarget(f, s.targets, c);
    var looked := s.(targets := t.0);
    if t.1.Some? {
      SourceFaithful(f, looked, i);
      var (sources, source) := CommandSource(f, looked, c);
      var found := looked.(targets := sources);
      assert Matches(f, found.targets, Key(f, c), t.1.value);
      hide Faithful, Matches, Kept, CommandTarget, CommandSource, Steady, BlitPass;
      if source.Some? { BlitPassFaithful(f, found, i, c, t.1.value, source.value); }
    }
  }

  lemma {:induction false} DrawFaithful(f: Frame, s: State, i: nat)
    requires Steady(f) && Faithful(f, s) && i < |f.commands|
    ensures Faithful(f, DrawStep(f, s, i, f.commands[i]))
  {
    var c := f.commands[i];
    assert AllGranted(c);
    TargetFaithful(f, s, i);
    var t := CommandTarget(f, s.targets, c);
    var looked := s.(targets := t.0);
    hide Faithful, Matches, Kept, CommandTarget, Steady, Open, Close, Encoded, Overridden;
    if t.1.Some? {
      PassFaithful(f, looked, i, Key(f, c), t.1.value, None);
      var begun := if Continues(f, looked, c) then looked else Open(Close(looked), Key(f, c), t.1.value, true);
      OverrideFaithful(f, Encoded(begun, i, Key(f, c), t.1.value, None), c, t.1.value);
    }
  }

  lemma {:induction false} StepFaithful(f: Frame, s: State, i: nat)
    requires Steady(f) && Faithful(f, s) && i < |f.commands|
    ensures Faithful(f, Step(f, s, i))
  {
    hide Faithful, Steady, BlitStep, DrawStep;
    if f.commands[i].blit { BlitFaithful(f, s, i); } else { DrawFaithful(f, s, i); }
  }

  lemma {:induction false} OverrideFaithful(f: Frame, s: State, c: Command, texture: Texture)
    requires Faithful(f, s)
    ensures Faithful(f, Overridden(f, s, c, texture))
  {
  }

  lemma {:induction false} StepsFaithful(f: Frame, s: State, n: nat)
    requires Steady(f) && Faithful(f, s) && n <= |f.commands|
    ensures Faithful(f, Steps(f, s, n))
    decreases n
  {
    hide Faithful, Steady, Step;
    if n > 0 {
      StepsFaithful(f, s, n - 1);
      StepFaithful(f, Steps(f, s, n - 1), n - 1);
    }
  }

  // The open pass is the last one that the trace began.
  lemma {:induction false} CurrentBegan(trace: seq<Event>) returns (j: nat)
    requires Current(trace).Some?
    ensures j < |trace| && trace[j].Begin? && Current(trace) == Some((trace[j].key, trace[j].texture))
    decreases |trace|
  {
    var n := |trace| - 1;
    if trace[n].Begin? {
      j := n;
    } else {
      j := CurrentBegan(trace[..n]);
    }
  }

  /** In a steady frame every command is encoded while the open pass targets that command's own
      texture, the one its id keeps to the end of the frame, and each texture is cleared by its
      first pass and loaded by every later one. */
  lemma {:induction false} EncodedInOwnTexture(f: Frame, targets: Targets, overrides: map<u32, Texture>)
    requires Steady(f) && Apart(targets) && targets.next > DRAWABLE
    ensures var s := Rendered(f, targets, overrides);
      && Apart(s.targets)
      && (forall k :: 0 <= k < |s.trace| && s.trace[k].Encode? ==>
            && Current(s.trace[..k]) == Some((s.trace[k].key, s.trace[k].texture))
            && Matches(f, s.targets, s.trace[k].key, s.trace[k].texture))
      && (forall k :: 0 <= k < |s.trace| && s.trace[k].Begin? ==>
            (s.trace[k].clear <==> forall j :: 0 <= j < k && s.trace[j].Begin? ==> s.trace[j].texture != s.trace[k].texture))
  {
    var start := State(false, 0xFFFFFFFF, false, {}, targets, overrides, []);
    StepsFaithful(f, start, |f.commands|);
    var s := Rendered(f, targets, overrides);
    OverlayFaithful(f, Steps(f, start, |f.commands|));
    PassesAreBracketed(f, targets, overrides);
    hide Rendered, Steady, Steps;
    forall k | 0 <= k < |s.trace| && s.trace[k].Encode?
      ensures Current(s.trace[..k]) == Some((s.trace[k].key, s.trace[k].texture))
    {
      assert EventOk(f, s.trace, k);
      var j := CurrentBegan(s.trace[..k]);
      assert EventMatches(f, s.targets, s.trace[j]) && EventMatches(f, s.targets, s.trace[k]);
    }
    forall k | 0 <= k < |s.trace| && s.trace[k].Begin?
      ensures s.trace[k].clear <==> forall j :: 0 <= j < k && s.trace[j].Begin? ==> s.trace[j].texture != s.trace[k].texture
    {
      ClearsFirst(f, s, k);
    }
  }

  lemma {:induction false} ClearsFirst(f: Frame, s: State, k: nat)
    requires Faithful(f, s) && k < |s.trace| && EventOk(f, s.trace, k) && s.trace[k].Begin?
    ensures s.trace[k].clear <==> forall j :: 0 <= j < k && s.trace[j].Begin? ==> s.trace[j].texture != s.trace[k].texture
  {
    hide Current;
    var earlier := s.trace[..k];
    assert EventMatches(f, s.targets, s.trace[k]);
    forall j | 0 <= j < k ensures Attempt(earlier[j], s.trace[k].key) <==>
      s.trace[j].Begin? && s.trace[j].texture == s.trace[k].texture
    {
      assert EventMatches(f, s.targets, s.trace[j]);
    }
    if j :| 0 <= j < k && s.trace[j].Begin? && s.trace[j].texture == s.trace[k].texture {
      assert Attempt(earlier[j], s.trace[k].key);
    }
  }

  lemma {:induction false} OverlayFaithful(f: Frame, s: State)
    requires Faithful(f, s) && f.overlayEncoder
    ensures Faithful(f, Close(Overlay(f, s)))
  {
    PassFaithful(f, s, |f.commands|, DRAWABLE_KEY, DRAWABLE, None);
    PassFaithful(f, Close(s), |f.commands|, DRAWABLE_KEY, DRAWABLE, None);
    hide Matches, Apart;
  }

  /** Within an open pass whose texture is still its id's texture, a draw on the same id that
      could get a new texture is encoded into its own texture exactly when its description
      packs to the cached one. */
  lemma {:induction false} ReusedPassIsRight(f: Frame, s: State, i: nat, c: Command)
    requires !c.blit && c.complete && c.usable && !IsDrawable(f, c) && c.grants.targetTexture
    requires Describes(f, c.target, c.targetDesc) && Apart(s.targets) && c.target in s.targets.entries
    requires s.encoder && s.activeKey == c.target && !s.activeDrawable
    requires Current(s.trace) == Some((c.target, s.targets.entries[c.target].texture))
    ensures var v := DrawStep(f, s, i, c);
      && |v.trace| == |s.trace| + 1 && v.trace[..|s.trace|] == s.trace
      && v.trace[|s.trace|].Encode? && v.trace[|s.trace|].key == c.target
      && (v.trace[|s.trace|].texture == Current(s.trace).value.1 <==>
          s.targets.entries[c.target].packed == Pack(c.targetDesc))
  {
    hide Current, Pack;
    assert DrawStep(f, s, i, c).trace[..|s.trace|] == s.trace;
  }

  const GRANTED := Grants(true, true, true, true)

  function PlainDraw(target: u32, d: Desc, grants: Grants): Command {
    Command(false, target, d, 0, true, true, false, 0, Desc(0, 0, 0), 0, None, grants)
  }

  // Without that condition the second draw lands in the texture its id had before.
  lemma {:induction false} StaleTarget(small: Desc, large: Desc)
    requires small == Desc(1, 1, 21) && large == Desc(2, 2, 21)
    ensures var f := Frame(9, [PlainDraw(5, small, GRANTED), PlainDraw(5, large, GRANTED)], 1, 1, {21}, false, true);
      Rendered(f, Targets(map[], 1), map[]).trace == [Begin(5, 1, true), Encode(0, 5, 1, None), Encode(1, 5, 2, None), End]
  {
    var c0, c1 := PlainDraw(5, small, GRANTED), PlainDraw(5, large, GRANTED);
    var f := Frame(9, [c0, c1], 1, 1, {21}, false, true);
    var s0 := State(false, 0xFFFFFFFF, false, {}, Targets(map[], 1), map[], []);
    var s1 := DrawStep(f, s0, 0, c0);
    assert Pack(small) != Pack(large);
    assert Steps(f, s0, 1) == s1 by { assert Steps(f, s0, 0) == s0; }
    assert Steps(f, s0, 2) == DrawStep(f, s1, 1, c1);
  }

  // A target whose first pass was refused is loaded without ever being cleared.
  lemma {:induction false} RefusedTargetIsLoaded(d: Desc)
    requires d == Desc(1, 1, 21)
    ensures var refused := GRANTED.(encoder := false);
      var f := Frame(9, [PlainDraw(5, d, refused), PlainDraw(5, d, GRANTED)], 1, 1, {21}, false, true);
      Rendered(f, Targets(map[], 1), map[]).trace == [Refused(5), Begin(5, 1, false), Encode(1, 5, 1, None), End]
  {
    var c0, c1 := PlainDraw(5, d, GRANTED.(encoder := false)), PlainDraw(5, d, GRANTED);
    var f := Frame(9, [c0, c1], 1, 1, {21}, false, true);
    var s0 := State(false, 0xFFFFFFFF, false, {}, Targets(map[], 1), map[], []);
    var s1 := DrawStep(f, s0, 0, c0);
    assert Steps(f, s0, 1) == s1 by { assert Steps(f, s0, 0) == s0; }
    assert Steps(f, s0, 2) == DrawStep(f, s1, 1, c1);
  }

  lemma {:induction false} PackFields(w: bv64, h: bv64, f: bv64)
    requires w < 0x1_0000 && h < 0x1_0000 && f < 0x1_0000_0000
    ensures var p := w | (h << 16) | (f << 32);
      p & 0xFFFF == w && (p >> 16) & 0xFFFF == h && p >> 32 == f
  {
  }

  /** Packed descriptions of targets under 65536 on each side tell all targets apart. */
  lemma {:induction false} PackTellsApart(a: Desc, b: Desc)
    requires a.width < 0x10000 && a.height < 0x10000 && b.width < 0x10000 && b.height < 0x10000
    ensures Pack(a) == Pack(b) <==> a == b
  {
    PackFields(a.width, a.height, a.format);
    PackFields(b.width, b.height, b.format);
  }

  // Wider ones may pack alike, and then keep the texture of the other size.
  lemma {:induction false} WidePackAlike(format: Dword)
    ensures Pack(Desc(0x10001, 1, format)) == Pack(Desc(1, 1, format))
  {
    OverlappingFields(format);
  }

  lemma {:induction false} OverlappingFields(f: bv64)
    ensures 0x10001 | (1 << 16) | (f << 32) == 1 | (1 << 16) | (f << 32)
  {
  }
}
