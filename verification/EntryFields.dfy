/**
  The fields of a draw and of a copy, by name: where a packet has each, and where the viewer
  reads it in the frame's entry.
 */
module EntryFields {
  import opened Words
  import opened Packets
  import opened Replay
  import opened FrameLayout

  type Stage = s: nat | s < STAGES

  // The fields that an entry takes over from a draw packet, other than its fifteen payloads, in
  // groups that stand together; a group's fields are in the order of both structures.
  datatype PrimitiveField = PrimitiveType | BaseVertex | MinVertexIndex | NumVertices | StartIndex | PrimitiveCount
  {
    function Index(): (i: nat)
      ensures i < 6
    {
      match this
      case PrimitiveType => 0 case BaseVertex => 1 case MinVertexIndex => 2
      case NumVertices => 3 case StartIndex => 4 case PrimitiveCount => 5
    }
  }

  datatype TargetField = TargetTexture | TargetWidth | TargetHeight | TargetFormat
  {
    function Index(): (i: nat)
      ensures i < 4
    {
      match this case TargetTexture => 0 case TargetWidth => 1 case TargetHeight => 2 case TargetFormat => 3
    }
  }

  datatype ViewField =
    | ViewportX | ViewportY | ViewportWidth | ViewportHeight | ViewportMinZ | ViewportMaxZ
    | ScissorLeft | ScissorTop | ScissorRight | ScissorBottom
  {
    function Index(): (i: nat)
      ensures i < 10
    {
      match this
      case ViewportX => 0 case ViewportY => 1 case ViewportWidth => 2 case ViewportHeight => 3
      case ViewportMinZ => 4 case ViewportMaxZ => 5
      case ScissorLeft => 6 case ScissorTop => 7 case ScissorRight => 8 case ScissorBottom => 9
    }
  }

  // Each of these is an array with one word for every stage.
  datatype StageField =
    | TextureId | TextureGeneration | TextureFormat | TextureWidth | TextureHeight | TexturePitch
    | MinFilter | MagFilter | MipFilter | AddressU | AddressV | AddressW
  {
    predicate IsSampler() {
      !(TextureId? || TextureGeneration? || TextureFormat? || TextureWidth? || TextureHeight? || TexturePitch?)
    }

    function Index(): (i: nat)
      ensures i < 12 && (IsSampler() <==> i >= 6)
    {
      match this
      case TextureId => 0 case TextureGeneration => 1 case TextureFormat => 2
      case TextureWidth => 3 case TextureHeight => 4 case TexturePitch => 5
      case MinFilter => 6 case MagFilter => 7 case MipFilter => 8
      case AddressU => 9 case AddressV => 10 case AddressW => 11
    }
  }

  datatype CombinerField =
    | ColorOp | ColorArg1 | ColorArg2 | AlphaOp | AlphaArg1 | AlphaArg2 | TextureFactor
    | AlphaBlendEnable | SrcBlend | DestBlend | AlphaTestEnable | AlphaRef | AlphaFunc
  {
    function Index(): (i: nat)
      ensures i < 13
    {
      match this
      case ColorOp => 0 case ColorArg1 => 1 case ColorArg2 => 2 case AlphaOp => 3 case AlphaArg1 => 4 case AlphaArg2 => 5
      case TextureFactor => 6 case AlphaBlendEnable => 7 case SrcBlend => 8 case DestBlend => 9
      case AlphaTestEnable => 10 case AlphaRef => 11 case AlphaFunc => 12
    }
  }

  datatype RenderField =
    | ZEnable | ZWriteEnable | ZFunc | StencilEnable | StencilFunc | StencilRef | StencilMask | StencilWriteMask
    | CullMode | ScissorTestEnable | BlendOp | ColorWriteEnable | StencilPass | StencilFail | StencilZFail
    | FogEnable | FogColor | FogStart | FogEnd | FogDensity | FogTableMode
  {
    function Index(): (i: nat)
      ensures i < 21
    {
      match this
      case ZEnable => 0 case ZWriteEnable => 1 case ZFunc => 2
      case StencilEnable => 3 case StencilFunc => 4 case StencilRef => 5 case StencilMask => 6 case StencilWriteMask => 7
      case CullMode => 8 case ScissorTestEnable => 9 case BlendOp => 10 case ColorWriteEnable => 11
      case StencilPass => 12 case StencilFail => 13 case StencilZFail => 14
      case FogEnable => 15 case FogColor => 16 case FogStart => 17 case FogEnd => 18
      case FogDensity => 19 case FogTableMode => 20
    }
  }

  datatype DrawField =
    | Primitive(primitive: PrimitiveField)
    | TargetId
    | Target(target: TargetField)
    | View(view: ViewField)
    | OfStage(stage: StageField, s: Stage)
    | Combiner(combiner: CombinerField)
    | Render(render: RenderField)
    | VertexShaderId | PixelShaderId | Fvf | StreamOffset | StreamStride | IndexFormat
  {
    // The field's word in a draw packet's body, which follows the packet's header.
    function InPacket(): (at: nat)
      ensures at < DRAW_WORDS
    {
      match this
      case Primitive(f) => 1 + f.Index()
      case TargetId => 7
      case Target(f) => 9 + f.Index()
      case VertexShaderId => 16 case PixelShaderId => 17 case Fvf => 18 case StreamOffset => 19 case StreamStride => 20
      case OfStage(f, s) => (if f.IsSampler() then 98 + STAGES * (f.Index() - 6) else 26 + STAGES * f.Index()) + s
      case Combiner(f) => 146 + f.Index()
      case View(f) => 165 + f.Index()
      case IndexFormat => 183
      case Render(f) => 196 + f.Index()
    }

    // The field's word in the frame's entry.
    function InEntry(): (at: nat)
      ensures at < ENTRY_WORDS
    {
      match this
      case Primitive(f) => 1 + f.Index()
      case TargetId => 7
      case Target(f) => 8 + f.Index()
      case View(f) => 26 + f.Index()
      case Fvf => 36 case PixelShaderId => 37 case StreamOffset => 38 case StreamStride => 39 case IndexFormat => 40
      case OfStage(f, s) => 41 + STAGES * f.Index() + s
      case Combiner(f) => 137 + f.Index()
      case VertexShaderId => 176
      case Render(f) => 181 + f.Index()
    }
  }

  // The fields of a copy.
  datatype StretchField =
    | SourceSurface | SourceTexture | SourceWidth | SourceHeight | SourceFormat
    | SourceLeft | SourceTop | SourceRight | SourceBottom
    | DestinationSurface | DestinationTexture | DestinationWidth | DestinationHeight | DestinationFormat
    | DestinationLeft | DestinationTop | DestinationRight | DestinationBottom | Filter
  {
    // The field's word in a copy packet, after its frame id.
    function InPacket(): (at: nat)
      ensures at < STRETCH_WORDS
    {
      match this
      case SourceSurface => 0 case SourceTexture => 1 case SourceWidth => 2 case SourceHeight => 3 case SourceFormat => 4
      case SourceLeft => 5 case SourceTop => 6 case SourceRight => 7 case SourceBottom => 8
      case DestinationSurface => 9 case DestinationTexture => 10
      case DestinationWidth => 11 case DestinationHeight => 12 case DestinationFormat => 13
      case DestinationLeft => 14 case DestinationTop => 15 case DestinationRight => 16 case DestinationBottom => 17
      case Filter => 18
    }

    // The field's word in the frame's entry: the destination stands where a draw has its target.
    function InEntry(): (at: nat)
      ensures at < ENTRY_WORDS
    {
      match this
      case DestinationSurface => 7 case DestinationTexture => 8
      case DestinationWidth => 9 case DestinationHeight => 10 case DestinationFormat => 11
      case SourceSurface => 12 case SourceTexture => 13 case SourceWidth => 14 case SourceHeight => 15 case SourceFormat => 16
      case SourceLeft => 17 case SourceTop => 18 case SourceRight => 19 case SourceBottom => 20
      case DestinationLeft => 21 case DestinationTop => 22 case DestinationRight => 23 case DestinationBottom => 24
      case Filter => 25
    }
  }

  const COMMAND_DRAW: u32 := 0
  const COMMAND_STRETCH: u32 := 1

  function DrawValue(body: Body, f: DrawField): u32
    requires |body| == DRAW_WORDS
  {
    body[f.InPacket()]
  }

  function StretchValue(rects: seq<u32>, f: StretchField): u32
    requires |rects| == STRETCH_WORDS
  {
    rects[f.InPacket()]
  }

  // The entry at a byte offset says it is this draw, field by field.
  ghost predicate SaysDraw(mem: seq<byte>, at: nat, body: Body)
    requires |body| == DRAW_WORDS
  {
    && at + ENTRY_BYTES <= |mem| && Word(mem, at) == COMMAND_DRAW
    && forall f: DrawField :: Word(mem, at + 4 * f.InEntry()) == DrawValue(body, f)
  }

  ghost predicate SaysStretch(mem: seq<byte>, at: nat, rects: seq<u32>)
    requires |rects| == STRETCH_WORDS
  {
    && at + ENTRY_BYTES <= |mem| && Word(mem, at) == COMMAND_STRETCH
    && forall f: StretchField :: Word(mem, at + 4 * f.InEntry()) == StretchValue(rects, f)
  }

  lemma {:induction false} DrawFieldPlaced(body: Body, bs: seq<Block>, f: DrawField)
    requires |body| == DRAW_WORDS
    ensures EntryWord(Draw(body), bs, f.InEntry()) == DrawValue(body, f)
  {
    hide OffsetOf, SizeOf, Low16, PrimitiveField.Index, TargetField.Index, ViewField.Index, StageField.Index,
      CombinerField.Index, RenderField.Index;
  }

  lemma {:induction false} StretchFieldPlaced(rects: seq<u32>, bs: seq<Block>, f: StretchField)
    requires |rects| == STRETCH_WORDS
    ensures EntryWord(Stretch(rects), bs, f.InEntry()) == StretchValue(rects, f)
  {
  }

  /** The entry of a draw, as the viewer reads it, has the value of every field of its packet. */
  lemma {:induction false} EntrySaysDraw(mem: seq<byte>, at: nat, body: Body, bs: seq<Block>)
    requires |body| == DRAW_WORDS && EntryAt(mem, at, Draw(body), bs)
    ensures SaysDraw(mem, at, body)
  {
    assert EntryWord(Draw(body), bs, 0) == COMMAND_DRAW;
    assert Word(mem, at + 4 * 0) == EntryWord(Draw(body), bs, 0);
    hide Word, EntryWord, DrawValue;
    forall f: DrawField ensures Word(mem, at + 4 * f.InEntry()) == DrawValue(body, f) {
      DrawFieldPlaced(body, bs, f);
      assert Word(mem, at + 4 * f.InEntry()) == EntryWord(Draw(body), bs, f.InEntry());
    }
  }

  /** The entry of a copy, likewise. */
  lemma {:induction false} EntrySaysStretch(mem: seq<byte>, at: nat, rects: seq<u32>, bs: seq<Block>)
    requires |rects| == STRETCH_WORDS && EntryAt(mem, at, Stretch(rects), bs)
    ensures SaysStretch(mem, at, rects)
  {
    assert EntryWord(Stretch(rects), bs, 0) == COMMAND_STRETCH;
    assert Word(mem, at + 4 * 0) == EntryWord(Stretch(rects), bs, 0);
    hide Word, EntryWord, StretchValue;
    forall f: StretchField ensures Word(mem, at + 4 * f.InEntry()) == StretchValue(rects, f) {
      StretchFieldPlaced(rects, bs, f);
      assert Word(mem, at + 4 * f.InEntry()) == EntryWord(Stretch(rects), bs, f.InEntry());
    }
  }
}
