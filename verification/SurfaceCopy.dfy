/**
  Rectangle copies between uncompressed surfaces: row copies at equal size, nearest-neighbour
  scaling otherwise.
 */
module SurfaceCopy {
  import opened Options
  import opened Words

  datatype Desc = Desc(width: u32, height: u32, bpp: nat)

  predicate ValidDesc(d: Desc) {
    0 < d.width && 0 < d.height && 0 < d.bpp <= 16
  }

  function Pitch(d: Desc): nat {
    d.width * d.bpp
  }

  function ByteCount(d: Desc): nat {
    d.width * d.height * d.bpp
  }

  predicate OnSurface(d: Desc, x: nat, y: nat) {
    x < d.width && y < d.height
  }

  // Where pixel (x, y) starts.
  function Offset(d: Desc, x: nat, y: nat): nat {
    (y * d.width + x) * d.bpp
  }

  lemma {:induction false} OffsetForm(d: Desc, x: nat, y: nat)
    ensures y * Pitch(d) + x * d.bpp == Offset(d, x, y)
  {
  }

  lemma {:induction false} OrderedProducts(a: nat, b: nat, n: nat)
    requires a < b
    ensures a * n + n <= b * n
  {
    assert b * n == a * n + n + (b - a - 1) * n;
  }

  lemma {:induction false} PixelIndex(d: Desc, x: nat, y: nat)
    requires OnSurface(d, x, y)
    ensures y * d.width + x < d.width * d.height
  {
    OrderedProducts(y, d.height, d.width);
  }

  lemma {:induction false} PixelInside(d: Desc, x: nat, y: nat)
    requires OnSurface(d, x, y)
    ensures Offset(d, x, y) + d.bpp <= ByteCount(d)
  {
    PixelIndex(d, x, y);
    OrderedProducts(y * d.width + x, d.width * d.height, d.bpp);
  }

  lemma {:induction false} IndexUnique(d: Desc, x: nat, y: nat, u: nat, v: nat)
    requires OnSurface(d, x, y) && OnSurface(d, u, v)
    ensures y * d.width + x == v * d.width + u <==> x == u && y == v
  {
    if y < v { OrderedProducts(y, v, d.width); }
    if v < y { OrderedProducts(v, y, d.width); }
  }

  lemma {:induction false} PixelsDisjoint(d: Desc, x: nat, y: nat, u: nat, v: nat)
    requires OnSurface(d, x, y) && OnSurface(d, u, v) && (x, y) != (u, v)
    ensures Offset(d, x, y) + d.bpp <= Offset(d, u, v) || Offset(d, u, v) + d.bpp <= Offset(d, x, y)
  {
    IndexUnique(d, x, y, u, v);
    var i, j := y * d.width + x, v * d.width + u;
    if i < j { OrderedProducts(i, j, d.bpp); } else { OrderedProducts(j, i, d.bpp); }
  }

  function PixelAt(d: Desc, mem: seq<byte>, x: nat, y: nat): (pixel: seq<byte>)
    requires OnSurface(d, x, y) && |mem| == ByteCount(d)
    ensures |pixel| == d.bpp
  {
    PixelInside(d, x, y);
    mem[Offset(d, x, y)..Offset(d, x, y) + d.bpp]
  }

  // Memory with one pixel overwritten.
  function WithPixel(d: Desc, mem: seq<byte>, x: nat, y: nat, pixel: seq<byte>): (r: seq<byte>)
    requires OnSurface(d, x, y) && |mem| == ByteCount(d) && |pixel| == d.bpp
    ensures |r| == |mem|
  {
    PixelInside(d, x, y);
    Write(mem, Offset(d, x, y), pixel)
  }

  // ---------------------------------------------------------------- rectangles

  datatype Rect = Rect(left: int, top: int, right: int, bottom: int)

  function Resolve(d: Desc, r: Option<Rect>): Rect {
    match r
    case None => Rect(0, 0, d.width, d.height)
    case Some(rect) => rect
  }

  predicate ValidRect(d: Desc, r: Rect) {
    0 <= r.left < r.right <= d.width && 0 <= r.top < r.bottom <= d.height
  }

  function Columns(r: Rect): int { r.right - r.left }
  function Rows(r: Rect): int { r.bottom - r.top }

  predicate InRect(r: Rect, x: int, y: int) {
    r.left <= x < r.right && r.top <= y < r.bottom
  }

  // The nearest source position for the k-th of n destination positions, out of m.
  function Nearest(k: nat, m: nat, n: nat): (r: nat)
    requires k < n && 0 < m
    ensures r < m
  {
    NearestBelow(k, m, n);
    k * m / n
  }

  lemma {:induction false} NearestBelow(k: nat, m: nat, n: nat)
    requires k < n && 0 < m
    ensures 0 <= k * m / n < m
  {
    OrderedProducts(k, n, m);
    var q, r := k * m / n, k * m % n;
    assert k * m == n * q + r;
    if q >= m {
      AtLeast(n, q, m);
    }
  }

  lemma {:induction false} AtLeast(n: nat, q: nat, m: nat)
    requires q >= m
    ensures n * q >= n * m
  {
    assert n * q == n * m + n * (q - m);
  }

  // The scaling loop's source position: its product is that of two uint32_t values.
  function Sampled(k: nat, m: nat, n: nat): (r: nat)
    requires k < n && 0 < m
    ensures r < m
  {
    NearestBelow(k, m, n);
    QuotientOrder(k * m % TWO_32, k * m, n);
    k * m % TWO_32 / n
  }

  lemma {:induction false} QuotientOrder(a: nat, b: nat, n: nat)
    requires a <= b && 0 < n
    ensures a / n <= b / n
  {
    var p, q := a / n, b / n;
    if p > q { AtLeast(n, p, q + 1); }
  }

  /** The scaling loop samples the nearest position exactly when its product does not wrap. */
  lemma {:induction false} SampledIsNearest(k: nat, m: nat, n: u32)
    requires k < n && 0 < m
    ensures Sampled(k, m, n) == Nearest(k, m, n) <==> k * m < TWO_32
  {
    var p := k * m;
    if p < TWO_32 {
      DivMod(p, TWO_32, 0, p);
    } else {
      var low := p - TWO_32;
      assert p % TWO_32 <= low by { QuotientRest(p); }
      QuotientOrder(p % TWO_32, low, n);
      QuotientOrder(low + n, p, n);
      DivMod(low + n, n, low / n + 1, low % n);
    }
  }

  lemma {:induction false} QuotientRest(p: nat)
    requires p >= TWO_32
    ensures p % TWO_32 <= p - TWO_32
  {
    var q := p / TWO_32;
    assert p == TWO_32 * q + p % TWO_32;
  }

  predicate SameExtent(dr: Rect, sr: Rect) {
    Columns(sr) == Columns(dr) && Rows(sr) == Rows(dr)
  }

  // The source position for the k-th of n destination positions: itself at equal extents.
  function Position(same: bool, k: nat, m: nat, n: nat): (r: nat)
    requires k < n && 0 < m && (same ==> m == n)
    ensures r < m
  {
    if same then k else Sampled(k, m, n)
  }

  // The source pixel for position (x, y) inside the destination rectangle.
  function SourcePixel(dr: Rect, s: Desc, sr: Rect, source: seq<byte>, x: nat, y: nat): (pixel: seq<byte>)
    requires |source| == ByteCount(s) && ValidRect(s, sr) && x < Columns(dr) && y < Rows(dr)
    ensures |pixel| == s.bpp
  {
    var same := SameExtent(dr, sr);
    PixelAt(s, source, sr.left + Position(same, x, Columns(sr), Columns(dr)),
            sr.top + Position(same, y, Rows(sr), Rows(dr)))
  }

  // What the copy must leave at pixel (x, y) of the destination.
  function Expected(d: Desc, dr: Rect, before: seq<byte>, s: Desc, sr: Rect, source: seq<byte>, x: nat, y: nat): seq<byte>
    requires OnSurface(d, x, y) && |before| == ByteCount(d) && |source| == ByteCount(s)
    requires ValidRect(d, dr) && ValidRect(s, sr)
  {
    if InRect(dr, x, y) then SourcePixel(dr, s, sr, source, x - dr.left, y - dr.top) else PixelAt(d, before, x, y)
  }

  // Writing one pixel changes that pixel and no other.
  lemma {:induction false} PixelWritten(d: Desc, mem: seq<byte>, x: nat, y: nat, pixel: seq<byte>, u: nat, v: nat)
    requires OnSurface(d, x, y) && OnSurface(d, u, v) && |mem| == ByteCount(d) && |pixel| == d.bpp
    ensures PixelAt(d, WithPixel(d, mem, x, y, pixel), u, v) == if (u, v) == (x, y) then pixel else PixelAt(d, mem, u, v)
  {
    PixelInside(d, x, y);
    PixelInside(d, u, v);
    hide Offset, ByteCount, Write;
    if (u, v) == (x, y) {
      WriteHere(mem, Offset(d, x, y), pixel);
    } else {
      PixelsDisjoint(d, x, y, u, v);
      WriteElsewhere(mem, Offset(d, x, y), pixel, Offset(d, u, v), Offset(d, u, v) + d.bpp);
    }
  }

  // The part of the copy that is done: whole rows above y, and pixels left of x in row y.
  predicate Done(dr: Rect, x: nat, y: nat, u: nat, v: nat) {
    v < dr.top + y || (v == dr.top + y && u < dr.left + x)
  }

  ghost predicate CopiedUpTo(d: Desc, dr: Rect, before: seq<byte>, after: seq<byte>, s: Desc, sr: Rect, source: seq<byte>,
                             x: nat, y: nat)
    requires |before| == |after| == ByteCount(d) && |source| == ByteCount(s)
    requires ValidRect(d, dr) && ValidRect(s, sr)
  {
    forall u, v {:trigger PixelAt(d, after, u, v)} :: OnSurface(d, u, v) ==>
      PixelAt(d, after, u, v)
      == if Done(dr, x, y, u, v) then Expected(d, dr, before, s, sr, source, u, v) else PixelAt(d, before, u, v)
  }

  // The whole copy, pixel by pixel.
  ghost predicate Copied(d: Desc, dr: Rect, before: seq<byte>, after: seq<byte>, s: Desc, sr: Rect, source: seq<byte>)
    requires |before| == |after| == ByteCount(d) && |source| == ByteCount(s)
    requires ValidRect(d, dr) && ValidRect(s, sr)
  {
    forall u, v {:trigger PixelAt(d, after, u, v)} :: OnSurface(d, u, v) ==>
      PixelAt(d, after, u, v) == Expected(d, dr, before, s, sr, source, u, v)
  }

  // ---------------------------------------------------------------- the copy loops

  // A run of n pixels of one row.
  lemma {:induction false} RunInside(d: Desc, x: nat, y: nat, n: nat)
    requires x + n <= d.width && y < d.height
    ensures Offset(d, x, y) + n * d.bpp <= ByteCount(d)
  {
    var last := y * d.width + x + n;
    OrderedProducts(y, d.height, d.width);
    assert Offset(d, x, y) + n * d.bpp == last * d.bpp;
    if last < d.width * d.height { OrderedProducts(last, d.width * d.height, d.bpp); }
  }

  // Pixel k of a run starts k pixels after its first.
  lemma {:induction false} RunPixel(d: Desc, x: nat, y: nat, k: nat)
    ensures Offset(d, x + k, y) == Offset(d, x, y) + k * d.bpp
  {
  }

  // The bytes of a run, and memory with a run overwritten.
  function RunAt(d: Desc, mem: seq<byte>, x: nat, y: nat, n: nat): (row: seq<byte>)
    requires x + n <= d.width && y < d.height && |mem| == ByteCount(d)
    ensures |row| == n * d.bpp
  {
    RunInside(d, x, y, n);
    mem[Offset(d, x, y)..Offset(d, x, y) + n * d.bpp]
  }

  function WithRun(d: Desc, mem: seq<byte>, x: nat, y: nat, n: nat, row: seq<byte>): (r: seq<byte>)
    requires x + n <= d.width && y < d.height && |mem| == ByteCount(d) && |row| == n * d.bpp
    ensures |r| == |mem|
  {
    RunInside(d, x, y, n);
    Write(mem, Offset(d, x, y), row)
  }

  // Pixel k of a run of bytes.
  function RunPixelBytes(row: seq<byte>, bpp: nat, n: nat, k: nat): seq<byte>
    requires |row| == n * bpp && k < n
  {
    OrderedProducts(k, n, bpp);
    row[k * bpp..k * bpp + bpp]
  }

  // The piece of freshly written bytes that is pixel k of the run.
  lemma {:induction false} RunPiece(mem: seq<byte>, at: nat, row: seq<byte>, bpp: nat, n: nat, k: nat)
    requires |row| == n * bpp && k < n && at + |row| <= |mem|
    ensures k * bpp + bpp <= |row|
    ensures Write(mem, at, row)[at + k * bpp..at + k * bpp + bpp] == RunPixelBytes(row, bpp, n, k)
  {
    hide Write;
    OrderedProducts(k, n, bpp);
    WriteHere(mem, at, row);
    var i := k * bpp;
    SliceOfSlice(Write(mem, at, row), at, |row|, i, i + bpp);
  }

  lemma {:induction false} RowWritten(d: Desc, mem: seq<byte>, x: nat, y: nat, n: nat, row: seq<byte>, u: nat, v: nat)
    requires x + n <= d.width && y < d.height && OnSurface(d, u, v) && |mem| == ByteCount(d) && |row| == n * d.bpp
    ensures PixelAt(d, WithRun(d, mem, x, y, n, row), u, v)
         == if v == y && x <= u < x + n then RunPixelBytes(row, d.bpp, n, u - x) else PixelAt(d, mem, u, v)
  {
    hide Offset, ByteCount, Write, RunPixelBytes;
    RunInside(d, x, y, n);
    PixelInside(d, u, v);
    if v == y && x <= u < x + n {
      RunPiece(mem, Offset(d, x, y), row, d.bpp, n, u - x);
      RunPixel(d, x, y, u - x);
    } else {
      RunApart(d, x, y, n, u, v);
      WriteElsewhere(mem, Offset(d, x, y), row, Offset(d, u, v), Offset(d, u, v) + d.bpp);
    }
  }

  lemma {:induction false} RunApart(d: Desc, x: nat, y: nat, n: nat, u: nat, v: nat)
    requires x + n <= d.width && y < d.height && OnSurface(d, u, v) && !(v == y && x <= u < x + n)
    ensures Offset(d, u, v) + d.bpp <= Offset(d, x, y) || Offset(d, x, y) + n * d.bpp <= Offset(d, u, v)
  {
    var i, j := v * d.width + u, y * d.width + x;
    IndexApart(d, x, y, n, u, v);
    if i < j {
      OrderedProducts(i, j, d.bpp);
    } else {
      BlockBefore(j, n, i, d.bpp);
    }
  }

  lemma {:induction false} IndexApart(d: Desc, x: nat, y: nat, n: nat, u: nat, v: nat)
    requires x + n <= d.width && OnSurface(d, u, v) && !(v == y && x <= u < x + n)
    ensures v * d.width + u < y * d.width + x || y * d.width + x + n <= v * d.width + u
  {
    if v < y { OrderedProducts(v, y, d.width); }
    if y < v { OrderedProducts(y, v, d.width); }
  }

  lemma {:induction false} BlockBefore(j: nat, n: nat, i: nat, b: nat)
    requires j + n <= i
    ensures j * b + n * b <= i * b
  {
    assert j * b + n * b == (j + n) * b;
    if j + n < i { OrderedProducts(j + n, i, b); }
  }

  lemma {:induction false} SliceOfSlice(mem: seq<byte>, a: nat, n: nat, i: nat, j: nat)
    requires a + n <= |mem| && i <= j <= n
    ensures mem[a..a + n][i..j] == mem[a + i..a + j]
  {
    var l, r := mem[a..a + n][i..j], mem[a + i..a + j];
    forall k | 0 <= k < j - i ensures l[k] == r[k] {
    }
  }

  lemma {:induction false} RowPixel(s: Desc, source: seq<byte>, x: nat, y: nat, n: nat, k: nat)
    requires x + n <= s.width && y < s.height && |source| == ByteCount(s) && k < n
    ensures RunPixelBytes(RunAt(s, source, x, y, n), s.bpp, n, k) == PixelAt(s, source, x + k, y)
  {
    hide Offset, ByteCount;
    RunInside(s, x, y, n);
    RunPixel(s, x, y, k);
    OrderedProducts(k, n, s.bpp);
    PixelInside(s, x + k, y);
    SliceOfSlice(source, Offset(s, x, y), n * s.bpp, k * s.bpp, k * s.bpp + s.bpp);
  }

  // One more pixel of the scaling loop.
  lemma {:induction false} PixelStep(d: Desc, dr: Rect, before: seq<byte>, mid: seq<byte>, after: seq<byte>, s: Desc, sr: Rect,
                                     source: seq<byte>, x: nat, y: nat)
    requires |before| == |mid| == ByteCount(d) && |source| == ByteCount(s)
    requires ValidRect(d, dr) && ValidRect(s, sr) && d.bpp == s.bpp && x < Columns(dr) && y < Rows(dr)
    requires CopiedUpTo(d, dr, before, mid, s, sr, source, x, y)
    requires after == WithPixel(d, mid, dr.left + x, dr.top + y, SourcePixel(dr, s, sr, source, x, y))
    ensures CopiedUpTo(d, dr, before, after, s, sr, source, x + 1, y)
  {
    hide PixelAt, SourcePixel, ByteCount, WithPixel;
    forall u: nat, v: nat | OnSurface(d, u, v)
      ensures PixelAt(d, after, u, v)
        == if Done(dr, x + 1, y, u, v) then Expected(d, dr, before, s, sr, source, u, v) else PixelAt(d, before, u, v)
    {
      PixelWritten(d, mid, dr.left + x, dr.top + y, SourcePixel(dr, s, sr, source, x, y), u, v);
      assert PixelAt(d, mid, u, v)
        == if Done(dr, x, y, u, v) then Expected(d, dr, before, s, sr, source, u, v) else PixelAt(d, before, u, v);
    }
  }

  // The end of a row is the start of the next.
  lemma {:induction false} RowEnds(d: Desc, dr: Rect, before: seq<byte>, after: seq<byte>, s: Desc, sr: Rect,
                                   source: seq<byte>, y: nat)
    requires |before| == |after| == ByteCount(d) && |source| == ByteCount(s)
    requires ValidRect(d, dr) && ValidRect(s, sr) && y < Rows(dr)
    requires CopiedUpTo(d, dr, before, after, s, sr, source, Columns(dr), y)
    ensures CopiedUpTo(d, dr, before, after, s, sr, source, 0, y + 1)
  {
    hide PixelAt, Position, ByteCount;
    forall u: nat, v: nat | OnSurface(d, u, v)
      ensures PixelAt(d, after, u, v)
        == if Done(dr, 0, y + 1, u, v) then Expected(d, dr, before, s, sr, source, u, v) else PixelAt(d, before, u, v)
    {
      assert PixelAt(d, after, u, v)
        == if Done(dr, Columns(dr), y, u, v) then Expected(d, dr, before, s, sr, source, u, v) else PixelAt(d, before, u, v);
    }
  }

  // One more row of the equal-size path.
  lemma {:induction false} RowStep(d: Desc, dr: Rect, before: seq<byte>, mid: seq<byte>, after: seq<byte>, s: Desc, sr: Rect,
                                   source: seq<byte>, y: nat)
    requires |before| == |mid| == ByteCount(d) && |source| == ByteCount(s)
    requires ValidRect(d, dr) && ValidRect(s, sr) && d.bpp == s.bpp && y < Rows(dr)
    requires Columns(sr) == Columns(dr) && Rows(sr) == Rows(dr)
    requires CopiedUpTo(d, dr, before, mid, s, sr, source, 0, y)
    requires after == WithRun(d, mid, dr.left, dr.top + y, Columns(dr), RunAt(s, source, sr.left, sr.top + y, Columns(sr)))
    ensures CopiedUpTo(d, dr, before, after, s, sr, source, 0, y + 1)
  {
    hide PixelAt, Sampled, ByteCount, WithRun, RunAt, RunPixelBytes;
    var row := RunAt(s, source, sr.left, sr.top + y, Columns(sr));
    forall u: nat, v: nat | OnSurface(d, u, v)
      ensures PixelAt(d, after, u, v)
        == if Done(dr, 0, y + 1, u, v) then Expected(d, dr, before, s, sr, source, u, v) else PixelAt(d, before, u, v)
    {
      RowWritten(d, mid, dr.left, dr.top + y, Columns(dr), row, u, v);
      assert PixelAt(d, mid, u, v)
        == if Done(dr, 0, y, u, v) then Expected(d, dr, before, s, sr, source, u, v) else PixelAt(d, before, u, v);
      if v == dr.top + y && InRect(dr, u, v) {
        RowPixel(s, source, sr.left, sr.top + y, Columns(sr), u - dr.left);
      }
    }
  }

  lemma {:induction false} NothingCopied(d: Desc, dr: Rect, before: seq<byte>, s: Desc, sr: Rect, source: seq<byte>)
    requires |before| == ByteCount(d) && |source| == ByteCount(s) && ValidRect(d, dr) && ValidRect(s, sr)
    ensures CopiedUpTo(d, dr, before, before, s, sr, source, 0, 0)
  {
    hide PixelAt, Position, ByteCount;
    forall u: nat, v: nat | OnSurface(d, u, v) && Done(dr, 0, 0, u, v)
      ensures PixelAt(d, before, u, v) == Expected(d, dr, before, s, sr, source, u, v)
    {
    }
  }

  lemma {:induction false} AllCopied(d: Desc, dr: Rect, before: seq<byte>, after: seq<byte>, s: Desc, sr: Rect, source: seq<byte>)
    requires |before| == |after| == ByteCount(d) && |source| == ByteCount(s) && ValidRect(d, dr) && ValidRect(s, sr)
    requires CopiedUpTo(d, dr, before, after, s, sr, source, 0, Rows(dr))
    ensures Copied(d, dr, before, after, s, sr, source)
  {
    hide PixelAt, Position, ByteCount;
    forall u: nat, v: nat | OnSurface(d, u, v)
      ensures PixelAt(d, after, u, v) == Expected(d, dr, before, s, sr, source, u, v)
    {
      assert PixelAt(d, after, u, v) == if Done(dr, 0, Rows(dr), u, v) then Expected(d, dr, before, s, sr, source, u, v)
                                        else PixelAt(d, before, u, v);
    }
  }

  method WriteRun(d: Desc, dst: array<byte>, x: nat, y: nat, n: nat, row: seq<byte>)
    requires dst.Length == ByteCount(d) && x + n <= d.width && y < d.height && |row| == n * d.bpp
    modifies dst
    ensures dst[..] == WithRun(d, old(dst[..]), x, y, n, row)
  {
    OffsetForm(d, x, y);
    RunInside(d, x, y, n);
    hide Offset, ByteCount, Write;
    CopyInto(dst, y * Pitch(d) + x * d.bpp, row);
  }

  /** The equal-size path: whole rows. */
  method CopyRows(d: Desc, dst: array<byte>, dr: Rect, s: Desc, src: array<byte>, sr: Rect)
    requires dst != src && dst.Length == ByteCount(d) && src.Length == ByteCount(s)
    requires ValidRect(d, dr) && ValidRect(s, sr) && d.bpp == s.bpp && SameExtent(dr, sr)
    modifies dst
    ensures Copied(d, dr, old(dst[..]), dst[..], s, sr, src[..])
  {
    hide CopiedUpTo, Offset, ByteCount, Write, Copied, WithRun, RunAt, Pitch;
    NothingCopied(d, dr, dst[..], s, sr, src[..]);
    for y := 0 to Rows(sr)
      invariant CopiedUpTo(d, dr, old(dst[..]), dst[..], s, sr, src[..], 0, y)
    {
      ghost var mid := dst[..];
      WriteRun(d, dst, dr.left, dr.top + y, Columns(dr), RunAt(s, src[..], sr.left, sr.top + y, Columns(sr)));
      RowStep(d, dr, old(dst[..]), mid, dst[..], s, sr, src[..], y);
    }
    AllCopied(d, dr, old(dst[..]), dst[..], s, sr, src[..]);
  }

  method WritePixel(d: Desc, dst: array<byte>, x: nat, y: nat, pixel: seq<byte>)
    requires dst.Length == ByteCount(d) && OnSurface(d, x, y) && |pixel| == d.bpp
    modifies dst
    ensures dst[..] == WithPixel(d, old(dst[..]), x, y, pixel)
  {
    OffsetForm(d, x, y);
    PixelInside(d, x, y);
    hide Offset, ByteCount, Write;
    CopyInto(dst, y * Pitch(d) + x * d.bpp, pixel);
  }

  /** The general path: one pixel at a time from the sampled source pixel. */
  method CopyScaled(d: Desc, dst: array<byte>, dr: Rect, s: Desc, src: array<byte>, sr: Rect)
    requires dst != src && dst.Length == ByteCount(d) && src.Length == ByteCount(s)
    requires ValidRect(d, dr) && ValidRect(s, sr) && d.bpp == s.bpp && !SameExtent(dr, sr)
    modifies dst
    ensures Copied(d, dr, old(dst[..]), dst[..], s, sr, src[..])
  {
    hide CopiedUpTo, ByteCount, Copied, WithPixel, PixelAt;
    NothingCopied(d, dr, dst[..], s, sr, src[..]);
    for y := 0 to Rows(dr)
      invariant CopiedUpTo(d, dr, old(dst[..]), dst[..], s, sr, src[..], 0, y)
    {
      var sy := sr.top + Sampled(y, Rows(sr), Rows(dr));
      for x := 0 to Columns(dr)
        invariant CopiedUpTo(d, dr, old(dst[..]), dst[..], s, sr, src[..], x, y)
      {
        var sx := sr.left + Sampled(x, Columns(sr), Columns(dr));
        ghost var mid := dst[..];
        WritePixel(d, dst, dr.left + x, dr.top + y, PixelAt(s, src[..], sx, sy));
        PixelStep(d, dr, old(dst[..]), mid, dst[..], s, sr, src[..], x, y);
      }
      RowEnds(d, dr, old(dst[..]), dst[..], s, sr, src[..], y);
    }
    AllCopied(d, dr, old(dst[..]), dst[..], s, sr, src[..]);
  }

  /** A rectangle copy between two surfaces: it succeeds exactly for equal pixel sizes, valid
      rectangles, and equal extents unless scaling is allowed; then every destination pixel is
      its source pixel inside the rectangle and unchanged outside it. */
  method CopyRect(d: Desc, dst: array<byte>, dstRect: Option<Rect>, s: Desc, src: array<byte>, srcRect: Option<Rect>,
                  allowScale: bool) returns (ok: bool)
    requires ValidDesc(d) && ValidDesc(s)
    requires dst != src && dst.Length == ByteCount(d) && src.Length == ByteCount(s)
    modifies dst
    ensures var dr, sr := Resolve(d, dstRect), Resolve(s, srcRect);
      && (ok <==> s.bpp == d.bpp && ValidRect(s, sr) && ValidRect(d, dr)
                  && (allowScale || (Columns(sr) == Columns(dr) && Rows(sr) == Rows(dr))))
      && (ok ==> Copied(d, dr, old(dst[..]), dst[..], s, sr, src[..]))
      && (!ok ==> dst[..] == old(dst[..]))
  {
    if s.bpp != d.bpp { return false; }
    var sr, dr := Resolve(s, srcRect), Resolve(d, dstRect);
    if !ValidRect(s, sr) || !ValidRect(d, dr) { return false; }
    if !allowScale && (Columns(sr) != Columns(dr) || Rows(sr) != Rows(dr)) { return false; }
    hide Copied, ByteCount;
    if SameExtent(dr, sr) {
      CopyRows(d, dst, dr, s, src, sr);
    } else {
      CopyScaled(d, dst, dr, s, src, sr);
    }
    ok := true;
  }

  // Every destination pixel is given the nearest source pixel.
  ghost predicate TakesNearest(dr: Rect, sr: Rect)
    requires 0 < Columns(sr) && 0 < Rows(sr)
    requires SameExtent(dr, sr) || (0 <= Columns(dr) && 0 <= Rows(dr))
  {
    && (forall x: nat :: x < Columns(dr) ==>
          Position(SameExtent(dr, sr), x, Columns(sr), Columns(dr)) == Nearest(x, Columns(sr), Columns(dr)))
    && (forall y: nat :: y < Rows(dr) ==>
          Position(SameExtent(dr, sr), y, Rows(sr), Rows(dr)) == Nearest(y, Rows(sr), Rows(dr)))
  }

  /** A copy is a nearest-neighbour copy exactly when it does not scale, or the largest product of
      each direction fits 32 bits; sides below 65536 ensure that. */
  lemma {:induction false} NearestExactly(d: Desc, dr: Rect, s: Desc, sr: Rect)
    requires ValidRect(d, dr) && ValidRect(s, sr)
    ensures TakesNearest(dr, sr) <==>
      SameExtent(dr, sr) || ((Columns(dr) - 1) * Columns(sr) < TWO_32 && (Rows(dr) - 1) * Rows(sr) < TWO_32)
  {
    hide Nearest, Sampled;
    NearestAlong(SameExtent(dr, sr), Columns(sr), Columns(dr));
    NearestAlong(SameExtent(dr, sr), Rows(sr), Rows(dr));
  }

  lemma {:induction false} NearestAlong(same: bool, m: nat, n: u32)
    requires 0 < m && 0 < n && (same ==> m == n)
    ensures (forall k: nat :: k < n ==> Position(same, k, m, n) == Nearest(k, m, n)) <==> same || (n - 1) * m < TWO_32
  {
    hide Sampled;
    forall k: nat | k < n
      ensures same ==> Position(same, k, m, n) == Nearest(k, m, n)
      ensures !same ==> (Position(same, k, m, n) == Nearest(k, m, n) <==> k * m < TWO_32)
    {
      if same { DivMod(k * n, n, k, 0); } else { SampledIsNearest(k, m, n); }
    }
    hide Nearest, Position;
    forall k: nat | k < n ensures k * m <= (n - 1) * m {
      if k < n - 1 { OrderedProducts(k, n - 1, m); }
    }
    if !same && (n - 1) * m >= TWO_32 { assert Position(same, n - 1, m, n) != Nearest(n - 1, m, n); }
  }

  lemma {:induction false} PixelByte(d: Desc, mem: seq<byte>, x: nat, y: nat, k: nat)
    requires OnSurface(d, x, y) && |mem| == ByteCount(d) && k < d.bpp
    ensures Offset(d, x, y) + k < |mem| && PixelAt(d, mem, x, y)[k] == mem[Offset(d, x, y) + k]
  {
    PixelInside(d, x, y);
    hide Offset, ByteCount;
  }

  lemma {:induction false} Divide(i: nat, n: nat, count: nat) returns (q: nat, r: nat)
    requires 0 < n && i < n * count
    ensures i == n * q + r && r < n && q < count
  {
    q, r := i / n, i % n;
    if q >= count { AtLeast(n, q, count); }
  }

  // Every byte belongs to a pixel.
  lemma {:induction false} FindPixel(d: Desc, i: nat) returns (x: nat, y: nat, k: nat)
    requires ValidDesc(d) && i < ByteCount(d)
    ensures OnSurface(d, x, y) && k < d.bpp && i == Offset(d, x, y) + k
  {
    Commute(d.width * d.height, d.bpp);
    var p, rest := Divide(i, d.bpp, d.width * d.height);
    var row, column := Divide(p, d.width, d.height);
    x, y, k := column, row, rest;
    Commute(row, d.width);
    Commute(p, d.bpp);
  }

  lemma {:induction false} Commute(a: nat, b: nat)
    ensures a * b == b * a
  {
  }

  lemma {:induction false} ByteOfPixel(d: Desc, mem: seq<byte>, i: nat) returns (x: nat, y: nat, k: nat)
    requires ValidDesc(d) && |mem| == ByteCount(d) && i < |mem|
    ensures OnSurface(d, x, y) && k < d.bpp && PixelAt(d, mem, x, y)[k] == mem[i] && i == Offset(d, x, y) + k
  {
    hide PixelAt, Offset, ByteCount;
    x, y, k := FindPixel(d, i);
    PixelByte(d, mem, x, y, k);
  }

  /** The copy is determined by its contract: two outcomes that meet it are equal. */
  lemma {:induction false} CopyDetermined(d: Desc, dr: Rect, before: seq<byte>, m: seq<byte>, n: seq<byte>, s: Desc, sr: Rect,
                                          source: seq<byte>)
    requires ValidDesc(d) && |before| == |m| == |n| == ByteCount(d) && |source| == ByteCount(s)
    requires ValidRect(d, dr) && ValidRect(s, sr)
    requires Copied(d, dr, before, m, s, sr, source) && Copied(d, dr, before, n, s, sr, source)
    ensures m == n
  {
    hide ByteCount, Offset, PixelAt, Expected;
    forall i | 0 <= i < |m| ensures m[i] == n[i] {
      var x, y, k := ByteOfPixel(d, m, i);
      var u, v, j := ByteOfPixel(d, n, i);
      SamePlace(d, x, y, k, u, v, j);
      assert PixelAt(d, m, x, y) == PixelAt(d, n, x, y);
    }
  }

  lemma {:induction false} SamePlace(d: Desc, x: nat, y: nat, k: nat, u: nat, v: nat, j: nat)
    requires OnSurface(d, x, y) && OnSurface(d, u, v) && k < d.bpp && j < d.bpp
    requires Offset(d, x, y) + k == Offset(d, u, v) + j
    ensures (x, y, k) == (u, v, j)
  {
    if (x, y) != (u, v) { PixelsDisjoint(d, x, y, u, v); }
  }
}
