/**
  Sizes of texture levels, their row pitch and upload size, and what the viewer reads of an
  upload.
 */
module MipLevels {
  import opened Options
  import opened Words

  const A8R8G8B8: u32 := 21
  const X8R8G8B8: u32 := 22
  const R5G6B5: u32 := 23
  const X1R5G5B5: u32 := 24
  const A1R5G5B5: u32 := 25
  const A8: u32 := 28
  const A16B16G16R16F: u32 := 113
  const R32F: u32 := 114
  const DXT1: u32 := 0x31545844
  const DXT3: u32 := 0x33545844
  const DXT5: u32 := 0x35545844

  // ---------------------------------------------------------------- level sizes

  function PowerOfTwo(k: nat): (p: nat)
    ensures p > 0
  {
    if k == 0 then 1 else 2 * PowerOfTwo(k - 1)
  }

  // The size a draw packet states for a level.
  function SentSize(size: u32, level: nat): u32 {
    ShiftedSmaller(size, level);
    if size / PowerOfTwo(level) == 0 then 1 else size / PowerOfTwo(level)
  }

  lemma {:induction false} ShiftedSmaller(size: nat, level: nat)
    ensures 0 <= size / PowerOfTwo(level) <= size
    decreases level
  {
    if level > 0 {
      ShiftedSmaller(size, level - 1);
      HalveQuotient(size, PowerOfTwo(level - 1));
    }
  }

  lemma {:induction false} HalveQuotient(n: nat, p: nat)
    requires p > 0
    ensures n / (2 * p) == n / p / 2
  {
    var q, r := n / p, n % p;
    assert n == p * q + r;
    Regroup(p, q);
    DivMod(n, 2 * p, q / 2, p * (q % 2) + r);
  }

  lemma {:induction false} Regroup(p: nat, q: nat)
    ensures p * q == (2 * p) * (q / 2) + p * (q % 2)
    ensures 0 <= p * (q % 2) <= p
  {
    var h, b := q / 2, q % 2;
    assert q == 2 * h + b;
    assert p * (2 * h + b) == (2 * p) * h + p * b;
  }

  /** The surfaces of a texture's levels. */
  method CreateLevels(width: u32, height: u32, levels: nat) returns (sizes: Option<seq<(u32, u32)>>)
    ensures sizes.Some? <==> width != 0 && height != 0
    ensures sizes.Some? ==> |sizes.value| == if levels == 0 then 1 else levels
    ensures sizes.Some? ==> forall i :: 0 <= i < |sizes.value| ==>
      sizes.value[i] == (SentSize(width, i), SentSize(height, i))
  {
    if width == 0 || height == 0 { return None; }
    var count := if levels == 0 then 1 else levels;
    var made: seq<(u32, u32)> := [];
    var w, h := width, height;
    for i := 0 to count
      invariant |made| == i && w == SentSize(width, i) && h == SentSize(height, i)
      invariant forall j :: 0 <= j < i ==> made[j] == (SentSize(width, j), SentSize(height, j))
    {
      HalvedIsNext(width, i);
      HalvedIsNext(height, i);
      made := made + [(w, h)];
      if w > 1 { w := w / 2; }
      if h > 1 { h := h / 2; }
    }
    sizes := Some(made);
  }

  lemma {:induction false} HalvedIsNext(size: u32, level: nat)
    requires size > 0
    ensures SentSize(size, level + 1) == if SentSize(size, level) > 1 then SentSize(size, level) / 2 else 1
  {
    HalveQuotient(size, PowerOfTwo(level));
  }

  // ---------------------------------------------------------------- pitch and upload size

  function Wrap(n: nat): u32 {
    n % TWO_32
  }

  predicate Compressed(format: u32) {
    format == DXT1 || format == DXT3 || format == DXT5
  }

  function Blocks(size: u32): u32 {
    if Add32(size, 3) / 4 == 0 then 1 else Add32(size, 3) / 4
  }

  function BytesPerPixel(format: u32): nat {
    if format == R5G6B5 || format == A1R5G5B5 || format == X1R5G5B5 then 2 else if format == A8 then 1 else 4
  }

  function SurfacePitch(format: u32, width: u32): u32 {
    if width == 0 then 0
    else if !Compressed(format) then Wrap(width * BytesPerPixel(format))
    else Wrap(Blocks(width) * if format == DXT1 then 8 else 16)
  }

  // Rows of pixels, or of blocks, and the bytes they take up at a pitch.
  function Rows(format: u32, height: u32): u32 {
    if Compressed(format) then Blocks(height) else height
  }

  function RowBytes(pitch: nat, rows: nat): nat {
    pitch * rows
  }

  function UploadSize(format: u32, width: u32, height: u32): u32 {
    Wrap(RowBytes(SurfacePitch(format, width), Rows(format, height)))
  }

  // ---------------------------------------------------------------- the viewer

  // The formats the viewer has a pixel format for.
  predicate Accepted(format: u32) {
    || format == A8R8G8B8 || format == X8R8G8B8 || format == A8 || format == A16B16G16R16F || format == R32F
    || Compressed(format)
  }

  function MinRowPitch(format: u32, width: u32): u32 {
    if format == DXT1 then Wrap(Blocks(width) * 8)
    else if format == DXT3 || format == DXT5 then Wrap(Blocks(width) * 16)
    else if format == A8 then width
    else if format == A16B16G16R16F then Wrap(width * 8)
    else Wrap(width * 4)
  }

  // The row pitch the viewer uploads with, given the one the packet states.
  function ViewerPitch(format: u32, width: u32, sent: u32): u32 {
    if sent < MinRowPitch(format, width) then MinRowPitch(format, width) else sent
  }

  // The bytes that the viewer takes from an upload at that pitch.
  function ViewerReads(format: u32, width: u32, height: u32, sent: u32): nat {
    RowBytes(ViewerPitch(format, width, sent), Rows(format, height))
  }

  lemma {:induction false} PitchesAgree(format: u32, width: u32)
    requires Accepted(format) && width != 0
    ensures format != A16B16G16R16F ==> ViewerPitch(format, width, SurfacePitch(format, width)) == SurfacePitch(format, width)
    ensures format == A16B16G16R16F && 8 * width < TWO_32 ==>
      ViewerPitch(format, width, SurfacePitch(format, width)) == 2 * SurfacePitch(format, width) > 0
  {
    hide ViewerPitch, SurfacePitch;
    if Compressed(format) {
      BlockPitches(format, width);
    } else if format == A16B16G16R16F {
      HalfFloatPitches(width);
    } else {
      PixelPitches(format, width);
    }
  }

  lemma {:induction false} BlockPitches(format: u32, width: u32)
    requires Compressed(format) && width != 0
    ensures ViewerPitch(format, width, SurfacePitch(format, width)) == SurfacePitch(format, width)
  {
    hide Blocks, Wrap;
    assert SurfacePitch(format, width) == MinRowPitch(format, width);
  }

  lemma {:induction false} PixelPitches(format: u32, width: u32)
    requires Accepted(format) && !Compressed(format) && format != A16B16G16R16F && width != 0
    ensures ViewerPitch(format, width, SurfacePitch(format, width)) == SurfacePitch(format, width)
  {
    if format == A8 {
      DivMod(width, TWO_32, 0, width);
    }
    hide Wrap;
    assert BytesPerPixel(format) == if format == A8 then 1 else 4;
    assert width * 1 == width;
  }

  lemma {:induction false} HalfFloatPitches(width: u32)
    requires width != 0
    ensures 8 * width < TWO_32 ==>
      ViewerPitch(A16B16G16R16F, width, SurfacePitch(A16B16G16R16F, width)) == 2 * SurfacePitch(A16B16G16R16F, width) > 0
  {
    if 8 * width < TWO_32 {
      DivMod(4 * width, TWO_32, 0, 4 * width);
      DivMod(8 * width, TWO_32, 0, 8 * width);
      assert SurfacePitch(A16B16G16R16F, width) == 4 * width;
    }
  }

  lemma {:induction false} SizesAgree(format: u32, width: u32, height: u32)
    requires Accepted(format) && width != 0 && height != 0
    ensures var taken := ViewerReads(format, width, height, SurfacePitch(format, width));
      && (format != A16B16G16R16F ==> Wrap(taken) == UploadSize(format, width, height))
      && (taken < TWO_32 && 8 * width < TWO_32 ==>
            (taken == UploadSize(format, width, height) <==> format != A16B16G16R16F))
  {
    PitchesAgree(format, width);
    var pitch := SurfacePitch(format, width);
    var taken := ViewerReads(format, width, height, pitch);
    hide SurfacePitch, MinRowPitch, ViewerPitch, Blocks, RowBytes;
    if format == A16B16G16R16F && 8 * width < TWO_32 {
      Doubled(pitch, height);
    }
  }

  /** For every level of every texture, with the level's size and pitch as its packet states
      them: what the viewer reads, in 32 bits, is what the frontend uploads; and as long as no
      size exceeds 32 bits it is exactly that many bytes if and only if the format is not
      A16B16G16R16F, whose pixels the two sides size differently. */
  lemma {:induction false} ViewerReadsUpload(format: u32, width: u32, height: u32, level: nat)
    requires Accepted(format) && width != 0 && height != 0
    ensures var w, h := SentSize(width, level), SentSize(height, level);
      var taken := ViewerReads(format, w, h, SurfacePitch(format, w));
      && (format != A16B16G16R16F ==> Wrap(taken) == UploadSize(format, w, h))
      && (taken < TWO_32 && 8 * w < TWO_32 ==> (taken == UploadSize(format, w, h) <==> format != A16B16G16R16F))
  {
    hide PowerOfTwo, SurfacePitch, ViewerReads, UploadSize, Wrap;
    SizesAgree(format, SentSize(width, level), SentSize(height, level));
  }

  lemma {:induction false} Doubled(pitch: nat, rows: nat)
    requires pitch > 0 && rows > 0
    ensures RowBytes(2 * pitch, rows) == 2 * RowBytes(pitch, rows) && RowBytes(pitch, rows) > 0
    ensures Wrap(RowBytes(pitch, rows)) < RowBytes(2 * pitch, rows)
  {
    assert 2 * pitch * rows == 2 * (pitch * rows);
  }
}
