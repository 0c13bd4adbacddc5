/**
  Which fields of a draw the replay hash tells apart.
 */
module HashedFields {
  import opened Words
  import opened Packets
  import opened Replay
  import opened FrameLayout
  import opened EntryFields
  import opened FnvHash
  import opened ReplayHash

  const STAGE_WORDS := 15
  const FIRST_STAGE := 41
  const AFTER_STAGES := 161
  const HASHED := 201

  // The hashed words that come from one of a packet's words: which word that is.
  function SourceOf(j: nat): (at: nat)
    requires IsPlain(j)
    ensures at < DRAW_WORDS
  {
    if j < 14 then j - 1
    else if j < FIRST_STAGE then j - 15
    else if j < AFTER_STAGES then
      var s, t := (j - FIRST_STAGE) / STAGE_WORDS, (j - FIRST_STAGE) % STAGE_WORDS;
      if t < 6 then TEX_ID + STAGES * t + s else SAMPLERS + STAGES * (t - 9) + s
    else if j < 174 then COMBINER + (j - AFTER_STAGES)
    else RENDER_STATES + (j - 174)
  }

  // The others are constant, or belong to a ref.
  predicate IsPlain(j: nat) {
    1 <= j < 14 || 28 <= j < FIRST_STAGE || AFTER_STAGES <= j < 195
    || (FIRST_STAGE <= j < AFTER_STAGES && !(6 <= (j - FIRST_STAGE) % STAGE_WORDS < 9))
  }

  lemma {:induction false} StagesLength(body: Body, s: nat)
    requires |body| == DRAW_WORDS && s <= STAGES
    ensures |StagesFrom(body, s)| == STAGE_WORDS * (STAGES - s)
    decreases STAGES - s
  {
    if s < STAGES { StagesLength(body, s + 1); }
  }

  lemma {:induction false} StageAt(body: Body, s: nat, q: nat, t: nat)
    requires |body| == DRAW_WORDS && s <= q < STAGES && t < STAGE_WORDS
    ensures STAGE_WORDS * (q - s) + t < |StagesFrom(body, s)|
    ensures StagesFrom(body, s)[STAGE_WORDS * (q - s) + t] == StageWords(body, q)[t]
    decreases q - s
  {
    StagesLength(body, s);
    hide StageWords;
    StageLength(body, s);
    if s < q { StageAt(body, s + 1, q, t); }
  }

  lemma {:induction false} StageLength(body: Body, s: nat)
    requires |body| == DRAW_WORDS && s < STAGES
    ensures |StageWords(body, s)| == STAGE_WORDS
  {
  }

  lemma {:induction false} StageWord(body: Body, s: nat, t: nat)
    requires |body| == DRAW_WORDS && s < STAGES && t < STAGE_WORDS
    ensures StageWords(body, s)[t]
      == if t < 6 then body[TEX_ID + STAGES * t + s]
         else if t < 9 then RefWords(body, TEX_DATA + 3 * s)[t - 6]
         else body[SAMPLERS + STAGES * (t - 9) + s]
  {
  }

  // The hashed words in their parts: up to the stages, the stages, after them, and the refs.
  function Head(body: Body): (w: seq<u32>)
    requires |body| == DRAW_WORDS
    ensures |w| == FIRST_STAGE
  {
    [0] + body[..13] + Zeros(14) + body[13..TEX_ID]
  }

  function Tail(body: Body): (w: seq<u32>)
    requires |body| == DRAW_WORDS
    ensures |w| == 34
  {
    body[COMBINER..CONSTANTS_VS] + body[RENDER_STATES..]
  }

  function Refs(body: Body): (w: seq<u32>)
    requires |body| == DRAW_WORDS
    ensures |w| == 6
  {
    RefWords(body, CONSTANTS_VS) + RefWords(body, CONSTANTS_PS)
  }

  lemma {:induction false} Parts(body: Body)
    requires |body| == DRAW_WORDS
    ensures |StagesFrom(body, 0)| == 120
    ensures HashedWords(Draw(body)) == Head(body) + StagesFrom(body, 0) + Tail(body) + Refs(body)
  {
    StagesLength(body, 0);
    hide StagesFrom, RefWords, Zeros;
    var b, c, d, e := body[COMBINER..CONSTANTS_VS], body[RENDER_STATES..], RefWords(body, CONSTANTS_VS), RefWords(body, CONSTANTS_PS);
    assert HashedWords(Draw(body)) == Head(body) + StagesFrom(body, 0) + b + c + d + e;
    Regrouped(Head(body) + StagesFrom(body, 0), b, c, d, e);
  }

  lemma {:induction false} Regrouped(a: seq<u32>, b: seq<u32>, c: seq<u32>, d: seq<u32>, e: seq<u32>)
    ensures a + b + c + d + e == a + (b + c) + (d + e)
  {
  }

  // Word j of a sequence in four parts of these lengths.
  lemma {:induction false} PartAt(a: seq<u32>, b: seq<u32>, c: seq<u32>, d: seq<u32>, j: nat)
    requires |a| == FIRST_STAGE && |b| == 120 && |c| == 34 && |d| == 6 && j < HASHED
    ensures var w := a + b + c + d;
      |w| == HASHED && w[j] == if j < FIRST_STAGE then a[j] else if j < AFTER_STAGES then b[j - FIRST_STAGE]
                               else if j < 195 then c[j - AFTER_STAGES] else d[j - 195]
  {
  }

  lemma {:induction false} HeadWord(body: Body, j: nat)
    requires |body| == DRAW_WORDS && j < FIRST_STAGE
    ensures Head(body)[j] == if j == 0 || 14 <= j < 28 then 0 else body[SourceOf(j)]
  {
  }

  lemma {:induction false} TailWord(body: Body, j: nat)
    requires |body| == DRAW_WORDS && AFTER_STAGES <= j < 195
    ensures Tail(body)[j - AFTER_STAGES] == body[SourceOf(j)]
  {
  }

  lemma {:induction false} StageHashed(body: Body, j: nat)
    requires |body| == DRAW_WORDS && FIRST_STAGE <= j < AFTER_STAGES
    ensures |StagesFrom(body, 0)| == 120
    ensures var s, t := (j - FIRST_STAGE) / STAGE_WORDS, (j - FIRST_STAGE) % STAGE_WORDS;
      StagesFrom(body, 0)[j - FIRST_STAGE]
      == if 6 <= t < 9 then RefWords(body, TEX_DATA + 3 * s)[t - 6] else body[SourceOf(j)]
  {
    hide StagesFrom, StageWords, RefWords;
    StagesLength(body, 0);
    var s, t := (j - FIRST_STAGE) / STAGE_WORDS, (j - FIRST_STAGE) % STAGE_WORDS;
    StageAt(body, 0, s, t);
    StageWord(body, s, t);
  }

  // Every hashed word is a constant, a word of the packet, or part of a ref.
  lemma {:induction false} WordHashed(body: Body, j: nat)
    requires |body| == DRAW_WORDS && j < HASHED
    ensures |HashedWords(Draw(body))| == HASHED
    ensures IsPlain(j) ==> HashedWords(Draw(body))[j] == body[SourceOf(j)]
    ensures j == 0 || 14 <= j < 28 ==> HashedWords(Draw(body))[j] == 0
    ensures FIRST_STAGE <= j < AFTER_STAGES && !IsPlain(j) ==>
      HashedWords(Draw(body))[j]
      == RefWords(body, TEX_DATA + 3 * ((j - FIRST_STAGE) / STAGE_WORDS))[(j - FIRST_STAGE) % STAGE_WORDS - 6]
    ensures j >= 195 ==> HashedWords(Draw(body))[j] == Refs(body)[j - 195]
  {
    hide HashedWords, StagesFrom, RefWords, Head, Tail, Refs, SourceOf;
    Parts(body);
    PartAt(Head(body), StagesFrom(body, 0), Tail(body), Refs(body), j);
    if j < FIRST_STAGE { HeadWord(body, j); }
    else if j < AFTER_STAGES { StageHashed(body, j); }
    else if j < 195 { TailWord(body, j); }
  }

  // ---------------------------------------------------------------- fields

  // The viewport, the scissor and the index format are not hashed as such.
  predicate IsHashed(f: DrawField) {
    !f.View? && !f.IndexFormat?
  }

  // Where a field is hashed.
  function HashPlace(f: DrawField): (j: nat)
    requires IsHashed(f)
    ensures IsPlain(j)
  {
    match f
    case Primitive(g) => 2 + g.Index()
    case TargetId => 8
    case Target(g) => 10 + g.Index()
    case OfStage(g, s) => FIRST_STAGE + STAGE_WORDS * s + if g.IsSampler() then 3 + g.Index() else g.Index()
    case Combiner(g) => AFTER_STAGES + g.Index()
    case Render(g) => 174 + g.Index()
    case VertexShaderId => 31
    case PixelShaderId => 32
    case Fvf => 33
    case StreamOffset => 34
    case StreamStride => 35
  }

  lemma {:induction false} PlaceIsField(f: DrawField)
    requires IsHashed(f)
    ensures SourceOf(HashPlace(f)) == f.InPacket()
  {
    hide PrimitiveField.Index, TargetField.Index, ViewField.Index, CombinerField.Index, RenderField.Index,
      StageField.Index;
    if f.OfStage? {
      var t := if f.stage.IsSampler() then 3 + f.stage.Index() else f.stage.Index();
      DivMod(STAGE_WORDS * f.s + t, STAGE_WORDS, f.s, t);
    }
  }

  // Each of the packet's words is hashed at one place at most.
  lemma {:induction false} OnePlace(i: nat, j: nat)
    requires IsPlain(i) && IsPlain(j) && SourceOf(i) == SourceOf(j)
    ensures i == j
  {
    var s, t := (i - FIRST_STAGE) / STAGE_WORDS, (i - FIRST_STAGE) % STAGE_WORDS;
    var q, r := (j - FIRST_STAGE) / STAGE_WORDS, (j - FIRST_STAGE) % STAGE_WORDS;
  }

  lemma {:induction false} FieldApart(f: DrawField)
    ensures !(TEX_DATA <= f.InPacket() < SAMPLERS) && !(CONSTANTS_VS <= f.InPacket() < VIEWPORT)
    ensures !IsHashed(f) ==> VIEWPORT <= f.InPacket() < RENDER_STATES
  {
    hide PrimitiveField.Index, TargetField.Index, ViewField.Index, CombinerField.Index, RenderField.Index,
      StageField.Index;
  }

  lemma {:induction false} SourceRange(j: nat)
    requires IsPlain(j)
    ensures SourceOf(j) < COMBINER + 13 || SourceOf(j) >= RENDER_STATES
  {
  }

  lemma {:induction false} RefUnchanged(body: Body, at: nat, value: u32, i: nat)
    requires i + 3 <= |body| && at < |body| && !(i <= at < i + 3)
    ensures RefWords(body[at := value], i) == RefWords(body, i)
  {
  }

  lemma {:induction false} RefsUnchanged(body: Body, f: DrawField, value: u32, j: nat)
    requires |body| == DRAW_WORDS && j < HASHED && !IsPlain(j)
    ensures |HashedWords(Draw(body))| == HASHED == |HashedWords(Draw(body[f.InPacket() := value]))|
    ensures HashedWords(Draw(body[f.InPacket() := value]))[j] == HashedWords(Draw(body))[j]
  {
    hide HashedWords, RefWords, DrawField.InPacket;
    var other := body[f.InPacket() := value];
    WordHashed(body, j);
    WordHashed(other, j);
    FieldApart(f);
    if j >= 195 {
      RefUnchanged(body, f.InPacket(), value, CONSTANTS_VS);
      RefUnchanged(body, f.InPacket(), value, CONSTANTS_PS);
    } else if j >= 28 {
      RefUnchanged(body, f.InPacket(), value, TEX_DATA + 3 * ((j - FIRST_STAGE) / STAGE_WORDS));
    }
  }

  // Changing a field changes the hashed words at its place alone, if it has one.
  lemma {:induction false} FieldInWords(body: Body, f: DrawField, value: u32, j: nat)
    requires |body| == DRAW_WORDS && j < HASHED
    ensures |HashedWords(Draw(body))| == HASHED == |HashedWords(Draw(body[f.InPacket() := value]))|
    ensures HashedWords(Draw(body[f.InPacket() := value]))[j]
      == if IsHashed(f) && j == HashPlace(f) then value else HashedWords(Draw(body))[j]
  {
    hide HashedWords, DrawField.InPacket, HashPlace, SourceOf, RefWords;
    WordHashed(body, j);
    WordHashed(body[f.InPacket() := value], j);
    if IsPlain(j) {
      FieldApart(f);
      SourceRange(j);
      if IsHashed(f) {
        PlaceIsField(f);
        if SourceOf(j) == f.InPacket() { OnePlace(j, HashPlace(f)); }
      }
    } else {
      RefsUnchanged(body, f, value, j);
    }
  }

  /** Frames that differ in one field of one stored draw have different replay hashes, unless the
      field belongs to the viewport or the scissor or is the index format; then they have the same. */
  lemma {:induction false} FieldTellsFramesApart(f: Frame, g: Frame, c: nat, body: Body, field: DrawField, value: u32)
    requires |f.draws| == |g.draws| <= MAX_DRAWS && |body| == DRAW_WORDS
    requires forall k :: 0 <= k < |f.draws| ==> Sized(f.draws[k]) && Sized(g.draws[k])
    requires (f.frameId, f.total, f.dropped) == (g.frameId, g.total, g.dropped)
    requires c < |f.draws| && forall k :: 0 <= k < |f.draws| && k != c ==> f.draws[k] == g.draws[k]
    requires f.draws[c] == Draw(body) && g.draws[c] == Draw(body[field.InPacket() := value])
    ensures FrameHash(Hashed(f)) == FrameHash(Hashed(g)) <==> value == DrawValue(body, field) || !IsHashed(field)
  {
    hide HashedWords, FrameHash, DrawField.InPacket, HashPlace, Sized;
    var v, w := HashedWords(f.draws[c]), HashedWords(g.draws[c]);
    FieldInWords(body, field, value, 0);
    forall j | 0 <= j < HASHED ensures w[j] == if IsHashed(field) && j == HashPlace(field) then value else v[j] {
      FieldInWords(body, field, value, j);
    }
    if IsHashed(field) {
      PlaceIsField(field);
      WordHashed(body, HashPlace(field));
    }
    hide SourceOf;
    if IsHashed(field) && value != DrawValue(body, field) {
      ReplayHashDiffers(f, g, c, HashPlace(field));
    } else {
      assert v == w;
      assert HashedCommands(f.draws) == HashedCommands(g.draws);
    }
  }
}
