/**
 The colour path without the codec: the encoder's in-place conversion of a BGRA picture to a 16-aligned NV12
 buffer (core/encoder/h264_encoder.cpp) and the decoder's loop from NV12 back to BGRA (app/native/decoder.cpp).
 A shift right by eight of a signed value is the floor of the division by 256.
 */
module Pixels {
  import opened Prelude
  import opened Grid

  function Clip(v: int): Byte {
    if v < 0 then 0 else if v > 255 then 255 else v
  }

  datatype Colour = Colour(b: Byte, g: Byte, r: Byte)

  function RawY(c: Colour): int { (66 * c.r + 129 * c.g + 25 * c.b + 128) / 256 + 16 }
  function RawU(c: Colour): int { (-38 * c.r - 74 * c.g + 112 * c.b + 128) / 256 + 128 }
  function RawV(c: Colour): int { (112 * c.r - 94 * c.g - 18 * c.b + 128) / 256 + 128 }

  /** The colour of a decoded sample. */
  function ToBgr(y: Byte, u: Byte, v: Byte): Colour {
    var c := if y < 16 then 0 else y - 16;
    var d, e := u - 128, v - 128;
    Colour(Clip((298 * c + 516 * d + 128) / 256),
           Clip((298 * c - 100 * d - 208 * e + 128) / 256),
           Clip((298 * c + 409 * e + 128) / 256))
  }

  /** The encoder's clamps never bind: luma stays in 16..235 and chroma in 16..240. */
  lemma ClampsNeverBind(c: Colour)
    ensures 16 <= RawY(c) <= 235 && Clip(RawY(c)) == RawY(c)
    ensures 16 <= RawU(c) <= 240 && Clip(RawU(c)) == RawU(c)
    ensures 16 <= RawV(c) <= 240 && Clip(RawV(c)) == RawV(c)
  {
  }

  predicate Near(a: int, b: int, bound: int) {
    b - bound <= a <= b + bound
  }

  /** What the three floors of the encoder leave: sample y, u and v, each less than one step below the exact value. */
  predicate Sampled(c: Colour, y: int, u: int, v: int) {
    && 0 <= 66 * c.r + 129 * c.g + 25 * c.b + 128 - 256 * y < 256
    && 0 <= -38 * c.r - 74 * c.g + 112 * c.b + 128 - 256 * u < 256
    && 0 <= 112 * c.r - 94 * c.g - 18 * c.b + 128 - 256 * v < 256
  }

  lemma FloorsAreSamples(c: Colour)
    ensures Sampled(c, RawY(c) - 16, RawU(c) - 128, RawV(c) - 128)
  {
  }

  // The decoder's numerators, over the samples: 256 times the original value, and a bounded error.

  lemma BlueNumerator(c: Colour, y: int, u: int, v: int)
    requires Sampled(c, y, u, v)
    ensures 256 * (c.b - 3) <= 298 * y + 516 * u + 128 < 256 * (c.b + 4)
  {
  }

  lemma GreenNumerator(c: Colour, y: int, u: int, v: int)
    requires Sampled(c, y, u, v)
    ensures 256 * (c.g - 2) <= 298 * y - 100 * u - 208 * v + 128 < 256 * (c.g + 3)
  {
  }

  lemma RedNumerator(c: Colour, y: int, u: int, v: int)
    requires Sampled(c, y, u, v)
    ensures 256 * (c.r - 2) <= 298 * y + 409 * v + 128 < 256 * (c.r + 3)
  {
  }

  lemma ClipKeepsNear(a: Byte, numerator: int, bound: nat)
    requires 256 * (a - bound) <= numerator < 256 * (a + bound + 1)
    ensures Near(Clip(numerator / 256), a, bound)
  {
  }

  // The three decoded values of a luma of at least 16, each alone.

  function BlueOf(y: Byte, u: Byte): Byte { Clip((298 * (y - 16) + 516 * (u - 128) + 128) / 256) }
  function GreenOf(y: Byte, u: Byte, v: Byte): Byte {
    Clip((298 * (y - 16) - 100 * (u - 128) - 208 * (v - 128) + 128) / 256)
  }
  function RedOf(y: Byte, v: Byte): Byte { Clip((298 * (y - 16) + 409 * (v - 128) + 128) / 256) }

  lemma BgrIs(y: Byte, u: Byte, v: Byte)
    requires y >= 16
    ensures ToBgr(y, u, v) == Colour(BlueOf(y, u), GreenOf(y, u, v), RedOf(y, v))
  {
  }

  lemma BlueNear(c: Colour, y: Byte, u: Byte, v: Byte)
    requires Sampled(c, y - 16, u - 128, v - 128)
    ensures Near(BlueOf(y, u), c.b, 3)
  {
    BlueNumerator(c, y - 16, u - 128, v - 128);
    ClipKeepsNear(c.b, 298 * (y - 16) + 516 * (u - 128) + 128, 3);
  }

  lemma GreenNear(c: Colour, y: Byte, u: Byte, v: Byte)
    requires Sampled(c, y - 16, u - 128, v - 128)
    ensures Near(GreenOf(y, u, v), c.g, 2)
  {
    GreenNumerator(c, y - 16, u - 128, v - 128);
    ClipKeepsNear(c.g, 298 * (y - 16) - 100 * (u - 128) - 208 * (v - 128) + 128, 2);
  }

  lemma RedNear(c: Colour, y: Byte, u: Byte, v: Byte)
    requires Sampled(c, y - 16, u - 128, v - 128)
    ensures Near(RedOf(y, v), c.r, 2)
  {
    RedNumerator(c, y - 16, u - 128, v - 128);
    ClipKeepsNear(c.r, 298 * (y - 16) + 409 * (v - 128) + 128, 2);
  }

  predicate NearColour(back: Colour, c: Colour) {
    Near(back.b, c.b, 3) && Near(back.g, c.g, 2) && Near(back.r, c.r, 2)
  }

  /** What the encoder stores for one colour; the chroma half is kept for one pixel of each block only. */
  datatype Sample = Sample(y: Byte, u: Byte, v: Byte)

  function SampleOf(c: Colour): Sample {
    Sample(Clip(RawY(c)), Clip(RawU(c)), Clip(RawV(c)))
  }

  /** One colour through both formulas. */
  function Back(c: Colour): Colour {
    ToBgr(SampleOf(c).y, SampleOf(c).u, SampleOf(c).v)
  }

  /** A colour comes back off by at most 2 in red and green and 3 in blue. */
  lemma ColourRoundTrip(c: Colour)
    ensures NearColour(Back(c), c)
  {
    ClampsNeverBind(c);
    FloorsAreSamples(c);
    BgrIs(RawY(c), RawU(c), RawV(c));
    BlueNear(c, RawY(c), RawU(c), RawV(c));
    GreenNear(c, RawY(c), RawU(c), RawV(c));
    RedNear(c, RawY(c), RawU(c), RawV(c));
  }

  /** The three bounds cannot be made smaller. */
  lemma BoundsAreReached()
    ensures Back(Colour(215, 1, 0)).r == 0 + 2
    ensures Back(Colour(141, 184, 0)).g == 184 - 2
    ensures Back(Colour(230, 4, 0)).b == 230 - 3
  {
    assert SampleOf(Colour(215, 1, 0)) == Sample(38, 222, 113);
    assert SampleOf(Colour(141, 184, 0)) == Sample(122, 137, 51);
    assert SampleOf(Colour(230, 4, 0)) == Sample(40, 227, 110);
  }

  // ---------------------------------------------------------------- rows

  function PixelAt(row: Bytes, x: nat): Colour
    requires 4 * x + 4 <= |row|
  {
    Colour(row[4 * x], row[4 * x + 1], row[4 * x + 2])
  }

  function SamplesOf(row: Bytes): (samples: seq<Sample>)
    ensures |samples| == |row| / 4
  {
    seq(|row| / 4, x requires 0 <= x < |row| / 4 => SampleOf(PixelAt(row, x)))
  }

  /** Luma over one picture row: black behind its end. */
  function LumaIn(row: seq<Sample>, x: nat): Byte {
    if x < |row| then row[x].y else 16
  }

  /** Byte x of the chroma row below an even picture row: the left pixel of each pair, neutral behind the end. */
  function ChromaIn(row: seq<Sample>, x: nat): Byte {
    var left := x - x % 2;
    if left >= |row| then 128 else if x % 2 == 0 then row[left].u else row[left].v
  }

  ghost predicate LumaLine(s: Bytes, base: nat, row: seq<Sample>, n: nat) {
    base + n <= |s| && forall x | 0 <= x < n :: s[base + x] == LumaIn(row, x)
  }

  ghost predicate ChromaLine(s: Bytes, base: nat, row: seq<Sample>, n: nat) {
    base + n <= |s| && forall x | 0 <= x < n :: s[base + x] == ChromaIn(row, x)
  }

  /** Nothing outside the two lines of a row differs. */
  ghost predicate OnlyLines(s: Bytes, t: Bytes, base: nat, chroma: nat, width: nat, even: bool) {
    && |s| == |t|
    && forall k | 0 <= k < |s| && !(base <= k < base + width) && !(even && chroma <= k < chroma + width) :: s[k] == t[k]
  }

  lemma OnlyLinesCompose(s: Bytes, t: Bytes, u: Bytes, base: nat, chroma: nat, width: nat, even: bool)
    requires OnlyLines(s, t, base, chroma, width, even) && OnlyLines(t, u, base, chroma, width, even)
    ensures OnlyLines(s, u, base, chroma, width, even)
  {
  }

  /** One round of an inner loop: a luma byte, and on even rows and columns the two chroma bytes of the block. */
  method StoreSample(nv12: array<Byte>, base: nat, chroma: nat, width: nat, even: bool, ghost row: seq<Sample>,
      i: nat, v: Sample)
    requires width % 2 == 0 && i < width && base + width <= chroma && chroma + width <= nv12.Length
    requires v == if i < |row| then row[i] else Sample(16, 128, 128)
    requires LumaLine(nv12[..], base, row, i)
    requires even ==> ChromaLine(nv12[..], chroma, row, i + i % 2)
    modifies nv12
    ensures LumaLine(nv12[..], base, row, i + 1)
    ensures even ==> ChromaLine(nv12[..], chroma, row, i + 1 + (i + 1) % 2)
    ensures OnlyLines(old(nv12[..]), nv12[..], base, chroma, width, even)
  {
    nv12[base + i] := v.y;
    if even && i % 2 == 0 {
      nv12[chroma + i] := v.u;
      nv12[chroma + i + 1] := v.v;
    }
  }

  /** The picture's part of a row. */
  method FillPixels(row: Bytes, w: nat, nv12: array<Byte>, base: nat, chroma: nat, width: nat, even: bool)
    requires |row| == 4 * w && w <= width && width % 2 == 0
    requires base + width <= chroma && chroma + width <= nv12.Length
    modifies nv12
    ensures LumaLine(nv12[..], base, SamplesOf(row), w)
    ensures even ==> ChromaLine(nv12[..], chroma, SamplesOf(row), w + w % 2)
    ensures OnlyLines(old(nv12[..]), nv12[..], base, chroma, width, even)
  {
    ghost var samples := SamplesOf(row);
    var i := 0;
    while i < w
      invariant 0 <= i <= w
      invariant LumaLine(nv12[..], base, samples, i)
      invariant even ==> ChromaLine(nv12[..], chroma, samples, i + i % 2)
      invariant OnlyLines(old(nv12[..]), nv12[..], base, chroma, width, even)
    {
      ghost var before := nv12[..];
      var sample := SampleOf(Colour(row[4 * i], row[4 * i + 1], row[4 * i + 2]));
      StoreSample(nv12, base, chroma, width, even, samples, i, sample);
      OnlyLinesCompose(old(nv12[..]), before, nv12[..], base, chroma, width, even);
      i := i + 1;
    }
  }

  /** A picture row and the black edge behind it. */
  method FillRow(row: Bytes, w: nat, nv12: array<Byte>, base: nat, chroma: nat, width: nat, even: bool)
    requires |row| == 4 * w && w <= width && width % 2 == 0
    requires base + width <= chroma && chroma + width <= nv12.Length
    modifies nv12
    ensures LumaLine(nv12[..], base, SamplesOf(row), width)
    ensures even ==> ChromaLine(nv12[..], chroma, SamplesOf(row), width)
    ensures OnlyLines(old(nv12[..]), nv12[..], base, chroma, width, even)
  {
    FillPixels(row, w, nv12, base, chroma, width, even);
    ghost var samples := SamplesOf(row);
    var i := w;
    while i < width
      invariant w <= i <= width
      invariant LumaLine(nv12[..], base, samples, i)
      invariant even ==> ChromaLine(nv12[..], chroma, samples, i + i % 2)
      invariant OnlyLines(old(nv12[..]), nv12[..], base, chroma, width, even)
    {
      ghost var before := nv12[..];
      StoreSample(nv12, base, chroma, width, even, samples, i, Sample(16, 128, 128));
      OnlyLinesCompose(old(nv12[..]), before, nv12[..], base, chroma, width, even);
      i := i + 1;
    }
  }

  method Memset(a: array<Byte>, base: nat, n: nat, v: Byte)
    requires base + n <= a.Length
    modifies a
    ensures forall k | 0 <= k < a.Length :: a[k] == if base <= k < base + n then v else old(a[k])
  {
    for i := 0 to n
      invariant forall k | 0 <= k < a.Length :: a[k] == if base <= k < base + i then v else old(a[k])
    {
      a[base + i] := v;
    }
  }

  /** A row below the picture. */
  method FillBlackRow(nv12: array<Byte>, base: nat, chroma: nat, width: nat, even: bool)
    requires width % 2 == 0 && base + width <= chroma && chroma + width <= nv12.Length
    modifies nv12
    ensures LumaLine(nv12[..], base, [], width)
    ensures even ==> ChromaLine(nv12[..], chroma, [], width)
    ensures OnlyLines(old(nv12[..]), nv12[..], base, chroma, width, even)
  {
    Memset(nv12, base, width, 16);
    if even { Memset(nv12, chroma, width, 128); }
  }

  // ---------------------------------------------------------------- the size of the buffer

  /** The size of the buffer: the luma plane and half of it again. */
  function BufferSize(width: nat, height: nat): nat {
    Offset(height, width) + Offset(height / 2, width)
  }

  lemma BufferSizeIsThreeHalves(width: nat, height: nat)
    requires height % 2 == 0
    ensures BufferSize(width, height) == width * height * 3 / 2
  {
    OffsetIsProduct(height, width);
    TwiceTheRows(width, height / 2);
    assert width * height == height * width;
  }

  // ---------------------------------------------------------------- the encoder's buffer

  /** A BGRA picture, rows on top of each other without padding. */
  datatype Picture = Picture(bgra: Bytes, w: nat, h: nat) {
    predicate Valid() {
      0 < w <= 16384 && 0 < h <= 16384 && |bgra| == Offset(h, 4 * w)
    }
  }

  /** A row of the picture. */
  function RowBytes(p: Picture, y: nat): (row: Bytes)
    requires p.Valid() && y < p.h
    ensures |row| == 4 * p.w
  {
    RowsApart(4 * p.w, y, p.h);
    p.bgra[Offset(y, 4 * p.w)..Offset(y, 4 * p.w) + 4 * p.w]
  }

  /** The whole picture as samples, row by row. */
  function PictureSamples(p: Picture): (rows: seq<seq<Sample>>)
    requires p.Valid()
    ensures |rows| == p.h && forall y | 0 <= y < p.h :: |rows[y]| == p.w
  {
    seq(p.h, y requires 0 <= y < p.h => SamplesOf(RowBytes(p, y)))
  }

  /** Below the picture there are only empty rows. */
  function Row(rows: seq<seq<Sample>>, y: nat): (row: seq<Sample>) {
    if y < |rows| then rows[y] else []
  }

  /** The sizes the conversion needs: room for the picture, even in both directions. */
  predicate Holds(p: Picture, width: nat, height: nat) {
    p.w <= width && p.h <= height && width % 2 == 0 && height % 2 == 0
  }

  function Aligned16(n: nat): nat {
    (n + 15) / 16 * 16
  }

  /** The encoder's sizes do hold the picture, add less than 16 in each direction and fit a 32-bit int. */
  lemma AlignedSizes(p: Picture)
    requires p.Valid()
    ensures Holds(p, Aligned16(p.w), Aligned16(p.h))
    ensures Aligned16(p.w) < p.w + 16 && Aligned16(p.h) < p.h + 16
    ensures Aligned16(p.w) * Aligned16(p.h) * 3 < 0x8000_0000
  {
    AlignedBounds(p.w);
    AlignedBounds(p.h);
    ProductBound(Aligned16(p.w), Aligned16(p.h));
  }

  lemma AlignedBounds(n: nat)
    requires n <= 16384
    ensures n <= Aligned16(n) < n + 16 && Aligned16(n) % 2 == 0 && Aligned16(n) <= 16384
  {
  }

  lemma ProductBound(a: nat, b: nat)
    requires a <= 16384 && b <= 16384
    ensures a * b <= 16384 * 16384
  {
    assert (16384 - a) * b >= 0;
    assert a * b <= 16384 * b;
  }

  ghost predicate LumaRowAt(s: Bytes, rows: seq<seq<Sample>>, width: nat, y: nat) {
    LumaLine(s, Offset(y, width), Row(rows, y), width)
  }

  ghost predicate ChromaRowAt(s: Bytes, rows: seq<seq<Sample>>, width: nat, top: nat, y: nat) {
    ChromaLine(s, top + Offset(y, width), Row(rows, 2 * y), width)
  }

  ghost predicate LumaRows(s: Bytes, rows: seq<seq<Sample>>, width: nat, n: nat) {
    forall y: nat | y < n :: LumaRowAt(s, rows, width, y)
  }

  ghost predicate ChromaRows(s: Bytes, rows: seq<seq<Sample>>, width: nat, top: nat, n: nat) {
    forall y: nat | y < n :: ChromaRowAt(s, rows, width, top, y)
  }

  /** The whole buffer: each luma row is its picture row, each chroma row is the even picture row of its pair. */
  ghost predicate Encoded(s: Bytes, rows: seq<seq<Sample>>, width: nat, height: nat) {
    && |s| == BufferSize(width, height)
    && LumaRows(s, rows, width, height)
    && ChromaRows(s, rows, width, Offset(height, width), height / 2)
  }

  predicate Apart(b: nat, n: nat, base: nat, chroma: nat, width: nat, even: bool) {
    (b + n <= base || base + width <= b) && (even ==> b + n <= chroma || chroma + width <= b)
  }

  lemma LumaLineKept(s: Bytes, t: Bytes, b: nat, row: seq<Sample>, n: nat, base: nat, chroma: nat, width: nat,
      even: bool)
    requires LumaLine(s, b, row, n) && OnlyLines(s, t, base, chroma, width, even)
        && Apart(b, n, base, chroma, width, even)
    ensures LumaLine(t, b, row, n)
  {
    forall x | 0 <= x < n ensures t[b + x] == LumaIn(row, x) { assert s[b + x] == t[b + x]; }
  }

  lemma ChromaLineKept(s: Bytes, t: Bytes, b: nat, row: seq<Sample>, n: nat, base: nat, chroma: nat, width: nat,
      even: bool)
    requires ChromaLine(s, b, row, n) && OnlyLines(s, t, base, chroma, width, even)
        && Apart(b, n, base, chroma, width, even)
    ensures ChromaLine(t, b, row, n)
  {
    forall x | 0 <= x < n ensures t[b + x] == ChromaIn(row, x) { assert s[b + x] == t[b + x]; }
  }

  lemma LumaRowsGrow(s: Bytes, t: Bytes, rows: seq<seq<Sample>>, width: nat, j: nat, chroma: nat, even: bool)
    requires LumaRows(s, rows, width, j) && LumaRowAt(t, rows, width, j)
    requires OnlyLines(s, t, Offset(j, width), chroma, width, even) && Offset(j, width) <= chroma
    ensures LumaRows(t, rows, width, j + 1)
  {
    forall y: nat | y < j ensures LumaRowAt(t, rows, width, y) {
      assert LumaRowAt(s, rows, width, y);
      RowsApart(width, y, j);
      LumaLineKept(s, t, Offset(y, width), Row(rows, y), width, Offset(j, width), chroma, width, even);
    }
  }

  lemma ChromaRowsKept(s: Bytes, t: Bytes, rows: seq<seq<Sample>>, width: nat, top: nat, n: nat, base: nat,
      chroma: nat, even: bool)
    requires ChromaRows(s, rows, width, top, n) && base + width <= top
    requires OnlyLines(s, t, base, chroma, width, even) && (even ==> chroma == top + Offset(n, width))
    ensures ChromaRows(t, rows, width, top, n)
  {
    forall y: nat | y < n ensures ChromaRowAt(t, rows, width, top, y) {
      assert ChromaRowAt(s, rows, width, top, y);
      RowsApart(width, y, n);
      ChromaLineKept(s, t, top + Offset(y, width), Row(rows, 2 * y), width, base, chroma, width, even);
    }
  }

  /** Both planes are filled up to row j. */
  ghost predicate FilledTo(s: Bytes, rows: seq<seq<Sample>>, width: nat, height: nat, j: nat)
  {
    LumaRows(s, rows, width, j) && ChromaRows(s, rows, width, Offset(height, width), (j + 1) / 2)
  }

  lemma FilledGrows(s: Bytes, t: Bytes, rows: seq<seq<Sample>>, width: nat, height: nat, j: nat)
    requires j < height && FilledTo(s, rows, width, height, j)
    requires OnlyLines(s, t, Offset(j, width), Offset(height, width) + Offset(j / 2, width), width, j % 2 == 0)
    requires LumaRowAt(t, rows, width, j)
    requires j % 2 == 0 ==> ChromaRowAt(t, rows, width, Offset(height, width), j / 2)
    ensures FilledTo(t, rows, width, height, j + 1)
  {
    var top, chroma := Offset(height, width), Offset(height, width) + Offset(j / 2, width);
    RowsApart(width, j, height);
    LumaRowsGrow(s, t, rows, width, j, chroma, j % 2 == 0);
    ChromaRowsKept(s, t, rows, width, top, (j + 1) / 2, Offset(j, width), chroma, j % 2 == 0);
  }

  /** Where row j of both planes lies. */
  lemma RowsLie(width: nat, height: nat, j: nat)
    requires j < height && height % 2 == 0
    ensures Offset(j, width) + width <= Offset(height, width)
    ensures Offset(height, width) + Offset(j / 2, width) + width <= BufferSize(width, height)
  {
    RowsApart(width, j, height);
    RowsApart(width, j / 2, height / 2);
  }

  /** The conversion fills the whole buffer, never reads behind the picture and never writes behind the buffer. */
  method BgraToNv12(p: Picture, nv12: array<Byte>, width: nat, height: nat)
    requires p.Valid() && Holds(p, width, height) && nv12.Length == BufferSize(width, height)
    modifies nv12
    ensures Encoded(nv12[..], PictureSamples(p), width, height)
  {
    ghost var rows := PictureSamples(p);
    for j := 0 to p.h
      invariant FilledTo(nv12[..], rows, width, height, j)
    {
      RowOfSamples(p, j);
      FillRowOf(RowBytes(p, j), p.w, rows, nv12, width, height, j);
    }
    for j := p.h to height
      invariant FilledTo(nv12[..], rows, width, height, j)
    {
      ghost var before := nv12[..];
      RowsLie(width, height, j);
      FillBlackRow(nv12, Offset(j, width), Offset(height, width) + Offset(j / 2, width), width, j % 2 == 0);
      FilledGrows(before, nv12[..], rows, width, height, j);
    }
  }

  /** Row j of both planes, from the bytes of the picture's row. */
  method FillRowOf(row: Bytes, w: nat, ghost rows: seq<seq<Sample>>, nv12: array<Byte>, width: nat, height: nat, j: nat)
    requires |row| == 4 * w && w <= width && width % 2 == 0 && height % 2 == 0 && j < height
    requires nv12.Length == BufferSize(width, height) && Row(rows, j) == SamplesOf(row)
    requires FilledTo(nv12[..], rows, width, height, j)
    modifies nv12
    ensures FilledTo(nv12[..], rows, width, height, j + 1)
  {
    ghost var before := nv12[..];
    RowsLie(width, height, j);
    FillRow(row, w, nv12, Offset(j, width), Offset(height, width) + Offset(j / 2, width), width, j % 2 == 0);
    FilledGrows(before, nv12[..], rows, width, height, j);
  }

  lemma RowOfSamples(p: Picture, j: nat)
    requires p.Valid() && j < p.h
    ensures Row(PictureSamples(p), j) == SamplesOf(RowBytes(p, j))
  {
  }

  lemma LumaByte(s: Bytes, rows: seq<seq<Sample>>, width: nat, n: nat, y: nat, x: nat)
    requires LumaRows(s, rows, width, n) && y < n && x < width
    ensures var k := Offset(y, width) + x; k < |s| && s[k] == LumaIn(Row(rows, y), x)
  {
    assert LumaRowAt(s, rows, width, y);
  }

  lemma ChromaByte(s: Bytes, rows: seq<seq<Sample>>, width: nat, top: nat, n: nat, y: nat, x: nat)
    requires ChromaRows(s, rows, width, top, n) && y < n && x < width
    ensures var k := top + Offset(y, width) + x; k < |s| && s[k] == ChromaIn(Row(rows, 2 * y), x)
  {
    assert ChromaRowAt(s, rows, width, top, y);
  }

  /** The specification pins down every byte: two buffers that meet it are equal, whatever they held before. */
  lemma EveryByteIsWritten(s: Bytes, t: Bytes, rows: seq<seq<Sample>>, width: nat, height: nat)
    requires Encoded(s, rows, width, height) && Encoded(t, rows, width, height)
    ensures s == t
  {
    var top := Offset(height, width);
    forall k | 0 <= k < |s| ensures s[k] == t[k] {
      if k < top {
        var y := InSomeRow(width, height, k);
        LumaByte(s, rows, width, height, y, k - Offset(y, width));
        LumaByte(t, rows, width, height, y, k - Offset(y, width));
      } else {
        var y := InSomeRow(width, height / 2, k - top);
        ChromaByte(s, rows, width, top, height / 2, y, k - top - Offset(y, width));
        ChromaByte(t, rows, width, top, height / 2, y, k - top - Offset(y, width));
      }
    }
  }

  // ---------------------------------------------------------------- the decoder's loop

  /** One decoded pixel in place. */
  predicate BgraAt(out: Bytes, o: nat, c: Colour) {
    o + 4 <= |out| && out[o] == c.b && out[o + 1] == c.g && out[o + 2] == c.r && out[o + 3] == 255
  }

  /** The colours of a row, from its luma and the chroma of its row pair; two pixels share one chroma pair. */
  function Colours(luma: Bytes, chroma: Bytes): (colours: seq<Colour>)
    requires |luma| == |chroma| && |luma| % 2 == 0
    ensures |colours| == |luma|
  {
    seq(|luma|, x requires 0 <= x < |luma| => ToBgr(luma[x], chroma[x - x % 2], chroma[x - x % 2 + 1]))
  }

  ghost predicate BgraLine(out: Bytes, base: nat, colours: seq<Colour>, n: nat)
    requires n <= |colours|
  {
    forall x: nat | x < n :: BgraAt(out, base + 4 * x, colours[x])
  }

  method PutPixel(out: array<Byte>, o: nat, c: Colour)
    requires o + 4 <= out.Length
    modifies out
    ensures BgraAt(out[..], o, c) && SameOutside(old(out[..]), out[..], o, o + 4)
  {
    out[o], out[o + 1], out[o + 2], out[o + 3] := c.b, c.g, c.r, 255;
  }

  lemma BgraLineKept(s: Bytes, t: Bytes, base: nat, colours: seq<Colour>, n: nat, from: nat, to: nat)
    requires n <= |colours| && BgraLine(s, base, colours, n)
    requires SameOutside(s, t, from, to) && (base + 4 * n <= from || to <= base)
    ensures BgraLine(t, base, colours, n)
  {
    forall x: nat | x < n ensures BgraAt(t, base + 4 * x, colours[x]) {
      assert BgraAt(s, base + 4 * x, colours[x]);
    }
  }

  method DecodeAt(luma: Bytes, chroma: Bytes, x: nat, out: array<Byte>, o: nat)
    requires |luma| == |chroma| && |luma| % 2 == 0 && x < |luma| && o + 4 <= out.Length
    modifies out
    ensures BgraAt(out[..], o, Colours(luma, chroma)[x]) && SameOutside(old(out[..]), out[..], o, o + 4)
  {
    PutPixel(out, o, ToBgr(luma[x], chroma[x - x % 2], chroma[x - x % 2 + 1]));
  }

  method DecodeRow(luma: Bytes, chroma: Bytes, out: array<Byte>, base: nat)
    requires |luma| == |chroma| && |luma| % 2 == 0 && base + 4 * |luma| <= out.Length
    modifies out
    ensures BgraLine(out[..], base, Colours(luma, chroma), |luma|)
    ensures SameOutside(old(out[..]), out[..], base, base + 4 * |luma|)
  {
    ghost var colours := Colours(luma, chroma);
    for x := 0 to |luma|
      invariant BgraLine(out[..], base, colours, x)
      invariant SameOutside(old(out[..]), out[..], base, base + 4 * |luma|)
    {
      ghost var before := out[..];
      DecodeAt(luma, chroma, x, out, base + 4 * x);
      BgraLineKept(before, out[..], base, colours, x, base + 4 * x, base + 4 * x + 4);
    }
  }

  /** The decoder accepts a plane layout whose width and height are even and whose stride covers a row. */
  predicate Layout(width: nat, height: nat, stride: nat) {
    0 < width <= stride && 0 < height && width % 2 == 0 && height % 2 == 0
  }

  /** Both planes, with the luma plane's stride. */
  function Need(height: nat, stride: nat): nat {
    Offset(height, stride) + Offset((height + 1) / 2, stride)
  }

  lemma LinesFit(height: nat, stride: nat, y: nat)
    requires y < height
    ensures Offset(y, stride) + stride <= Need(height, stride)
    ensures Offset(height, stride) + Offset(y / 2, stride) + stride <= Need(height, stride)
  {
    RowsApart(stride, y, height);
    RowsApart(stride, y / 2, (height + 1) / 2);
  }

  /** The colours of row y of the planes. */
  function RowColours(src: Bytes, width: nat, height: nat, stride: nat, y: nat): (colours: seq<Colour>)
    requires Layout(width, height, stride) && |src| >= Need(height, stride) && y < height
    ensures |colours| == width
  {
    LinesFit(height, stride, y);
    var luma, chroma := Offset(y, stride), Offset(height, stride) + Offset(y / 2, stride);
    Colours(src[luma..luma + width], src[chroma..chroma + width])
  }

  /** The whole decoded picture, row by row. */
  function FrameColours(src: Bytes, width: nat, height: nat, stride: nat): (frame: seq<seq<Colour>>)
    requires Layout(width, height, stride) && |src| >= Need(height, stride)
    ensures |frame| == height && forall y | 0 <= y < height :: |frame[y]| == width
  {
    seq(height, y requires 0 <= y < height => RowColours(src, width, height, stride, y))
  }

  ghost predicate DecodedRowAt(out: Bytes, frame: seq<seq<Colour>>, width: nat, y: nat)
    requires y < |frame|
  {
    |frame[y]| == width && BgraLine(out, Offset(y, 4 * width), frame[y], width)
  }

  ghost predicate Decoded(out: Bytes, frame: seq<seq<Colour>>, width: nat, n: nat)
    requires n <= |frame|
  {
    forall y: nat | y < n :: DecodedRowAt(out, frame, width, y)
  }

  lemma DecodedGrows(s: Bytes, t: Bytes, frame: seq<seq<Colour>>, width: nat, n: nat)
    requires n < |frame| && Decoded(s, frame, width, n) && DecodedRowAt(t, frame, width, n)
    requires SameOutside(s, t, Offset(n, 4 * width), Offset(n, 4 * width) + 4 * width)
    ensures Decoded(t, frame, width, n + 1)
  {
    forall y: nat | y < n ensures DecodedRowAt(t, frame, width, y) {
      assert DecodedRowAt(s, frame, width, y);
      RowsApart(4 * width, y, n);
      BgraLineKept(s, t, Offset(y, 4 * width), frame[y], width, Offset(n, 4 * width), Offset(n, 4 * width) + 4 * width);
    }
  }

  /** A buffer too short for its layout is not decoded; otherwise every pixel is written. */
  method Nv12ToBgra(src: Bytes, width: nat, height: nat, stride: nat, out: array<Byte>) returns (ok: bool)
    requires Layout(width, height, stride) && out.Length == Offset(height, 4 * width)
    modifies out
    ensures ok <==> |src| >= Need(height, stride)
    ensures ok ==> Decoded(out[..], FrameColours(src, width, height, stride), width, height)
    ensures !ok ==> out[..] == old(out[..])
  {
    ok := |src| >= Need(height, stride);
    if ok { DecodeRows(src, width, height, stride, out); }
  }

  method DecodeRows(src: Bytes, width: nat, height: nat, stride: nat, out: array<Byte>)
    requires Layout(width, height, stride) && |src| >= Need(height, stride) && out.Length == Offset(height, 4 * width)
    modifies out
    ensures Decoded(out[..], FrameColours(src, width, height, stride), width, height)
  {
    ghost var frame := FrameColours(src, width, height, stride);
    for y := 0 to height
      invariant Decoded(out[..], frame, width, y)
    {
      ghost var before := out[..];
      DecodeLine(src, width, height, stride, y, out);
      DecodedGrows(before, out[..], frame, width, y);
    }
  }

  method DecodeLine(src: Bytes, width: nat, height: nat, stride: nat, y: nat, out: array<Byte>)
    requires Layout(width, height, stride) && |src| >= Need(height, stride) && out.Length == Offset(height, 4 * width)
    requires y < height
    modifies out
    ensures BgraLine(out[..], Offset(y, 4 * width), RowColours(src, width, height, stride, y), width)
    ensures SameOutside(old(out[..]), out[..], Offset(y, 4 * width), Offset(y, 4 * width) + 4 * width)
  {
    LinesFit(height, stride, y);
    RowsApart(4 * width, y, height);
    var luma, chroma := Offset(y, stride), Offset(height, stride) + Offset(y / 2, stride);
    var lumaLine, chromaLine := src[luma..luma + width], src[chroma..chroma + width];
    assert RowColours(src, width, height, stride, y) == Colours(lumaLine, chromaLine);
    DecodeRow(lumaLine, chromaLine, out, Offset(y, 4 * width));
  }

  // ---------------------------------------------------------------- there and back

  function PictureColour(p: Picture, x: nat, y: nat): Colour
    requires p.Valid() && x < p.w && y < p.h
  {
    PixelAt(RowBytes(p, y), x)
  }

  lemma SampleIsOfColour(p: Picture, x: nat, y: nat)
    requires p.Valid() && x < p.w && y < p.h
    ensures PictureSamples(p)[y][x] == SampleOf(PictureColour(p, x, y))
  {
  }

  lemma ColourOfBytes(p: Picture, x: nat, y: nat)
    requires p.Valid() && x < p.w && y < p.h
    ensures var o := Offset(y, 4 * p.w) + 4 * x;
      o + 3 <= |p.bgra| && PictureColour(p, x, y) == Colour(p.bgra[o], p.bgra[o + 1], p.bgra[o + 2])
  {
    RowsApart(4 * p.w, y, p.h);
  }

  /** The two chroma bytes of a block. */
  lemma ChromaBytes(s: Bytes, rows: seq<seq<Sample>>, width: nat, top: nat, n: nat, left: nat, half: nat)
    requires ChromaRows(s, rows, width, top, n) && left + 1 < width && half < n
    ensures var c := top + Offset(half, width) + left;
      c + 1 < |s| && s[c] == ChromaIn(Row(rows, 2 * half), left) && s[c + 1] == ChromaIn(Row(rows, 2 * half), left + 1)
  {
    ChromaByte(s, rows, width, top, n, half, left);
    ChromaByte(s, rows, width, top, n, half, left + 1);
  }

  predicate Measures(y: Byte, u: Byte, v: Byte, c: Colour) {
    Sampled(c, y - 16, u - 128, v - 128)
  }

  lemma SampleMeasures(c: Colour)
    ensures Measures(SampleOf(c).y, SampleOf(c).u, SampleOf(c).v, c)
  {
    ClampsNeverBind(c);
    FloorsAreSamples(c);
  }

  lemma LumaInPlace(s: Bytes, row: seq<Sample>, rows: seq<seq<Sample>>, width: nat, height: nat, x: nat, y: nat, l: nat)
    requires Encoded(s, rows, width, height) && y < height && row == Row(rows, y) && x < width && x < |row|
    requires l == Offset(y, width) + x
    ensures l < |s| && s[l] == row[x].y
  {
    LumaByte(s, rows, width, height, y, x);
  }

  lemma CornerChroma(row: seq<Sample>, x: nat)
    requires x % 2 == 0 && x < |row|
    ensures ChromaIn(row, x) == row[x].u && ChromaIn(row, x + 1) == row[x].v
  {
    assert (x + 1) % 2 == 1;
  }

  lemma ChromaByteAt(s: Bytes, row: seq<Sample>, rows: seq<seq<Sample>>, width: nat, height: nat, x: nat, half: nat,
      c: nat)
    requires Encoded(s, rows, width, height) && half < height / 2 && row == Row(rows, 2 * half) && x < width
    requires c == Offset(height, width) + Offset(half, width) + x
    ensures c < |s| && s[c] == ChromaIn(row, x)
  {
    ChromaByte(s, rows, width, Offset(height, width), height / 2, half, x);
  }

  lemma ChromaInPlace(s: Bytes, row: seq<Sample>, rows: seq<seq<Sample>>, width: nat, height: nat, x: nat, half: nat,
      c: nat)
    requires Encoded(s, rows, width, height) && half < height / 2 && row == Row(rows, 2 * half)
    requires x % 2 == 0 && x + 1 < width && x < |row|
    requires c == Offset(height, width) + Offset(half, width) + x
    ensures c + 1 < |s| && s[c] == row[x].u && s[c + 1] == row[x].v
  {
    CornerChroma(row, x);
    ChromaByteAt(s, row, rows, width, height, x, half, c);
    ChromaByteAt(s, row, rows, width, height, x + 1, half, c + 1);
  }

  /** Every pixel of the picture is measured by the luma byte in its own place. */
  lemma LumaMeasures(s: Bytes, p: Picture, width: nat, height: nat, x: nat, y: nat, l: nat)
    requires p.Valid() && Holds(p, width, height) && Encoded(s, PictureSamples(p), width, height)
    requires x < p.w && y < p.h && l == Offset(y, width) + x
    ensures l < |s| && exists u, v :: Measures(s[l], u, v, PictureColour(p, x, y))
  {
    SampleIsOfColour(p, x, y);
    SampleMeasures(PictureColour(p, x, y));
    LumaInPlace(s, PictureSamples(p)[y], PictureSamples(p), width, height, x, y, l);
  }

  /**
   Where the chroma goes: luma byte l of a block's corner and the pair at c, blue difference first, measure the colour
   of that corner.
   */
  lemma CornersMeasured(s: Bytes, p: Picture, width: nat, height: nat, x: nat, y: nat, l: nat, c: nat)
    requires p.Valid() && Holds(p, width, height) && Encoded(s, PictureSamples(p), width, height)
    requires x < p.w && y < p.h && x % 2 == 0 && y % 2 == 0
    requires l == Offset(y, width) + x && c == Offset(height, width) + Offset(y / 2, width) + x
    ensures l < |s| && c + 1 < |s| && Measures(s[l], s[c], s[c + 1], PictureColour(p, x, y))
  {
    var row, half := PictureSamples(p)[y], y / 2;
    assert y == 2 * half;
    SampleIsOfColour(p, x, y);
    SampleMeasures(PictureColour(p, x, y));
    LumaInPlace(s, row, PictureSamples(p), width, height, x, y, l);
    ChromaInPlace(s, row, PictureSamples(p), width, height, x, half, c);
  }

  /** The three bytes of a row's pixel, before they become a colour. */
  lemma SliceBytes(src: Bytes, luma: nat, chroma: nat, width: nat, x: nat)
    requires luma + width <= |src| && chroma + width <= |src| && width % 2 == 0 && x < width
    ensures var l, c, left := src[luma..luma + width], src[chroma..chroma + width], x - x % 2;
      left + 1 < width && l[x] == src[luma + x] && c[left] == src[chroma + left] && c[left + 1]
          == src[chroma + left + 1]
  {
  }

  lemma ColoursAt(luma: Bytes, chroma: Bytes, x: nat, y: Byte, u: Byte, v: Byte)
    requires |luma| == |chroma| && |luma| % 2 == 0 && x < |luma|
    requires y == luma[x] && u == chroma[x - x % 2] && v == chroma[x - x % 2 + 1]
    ensures Colours(luma, chroma)[x] == ToBgr(y, u, v)
  {
  }

  lemma RowColourAt(src: Bytes, width: nat, height: nat, stride: nat, y: nat, x: nat)
    requires Layout(width, height, stride) && |src| >= Need(height, stride) && y < height && x < width
    ensures var o, c := Offset(y, stride) + x, Offset(height, stride) + Offset(y / 2, stride) + (x - x % 2);
      o < |src| && c + 1 < |src| && RowColours(src, width, height, stride, y)[x] == ToBgr(src[o], src[c], src[c + 1])
  {
    LinesFit(height, stride, y);
    var luma, chroma, left := Offset(y, stride), Offset(height, stride) + Offset(y / 2, stride), x - x % 2;
    SliceBytes(src, luma, chroma, width, x);
    ColoursAt(src[luma..luma + width], src[chroma..chroma + width], x, src[luma + x], src[chroma + left],
        src[chroma + left + 1]);
  }

  /** The decoder's pixel, from the three bytes of the buffer it reads. */
  lemma DecodedPixel(out: Bytes, s: Bytes, width: nat, height: nat, stride: nat, x: nat, y: nat)
    requires Layout(width, height, stride) && |s| >= Need(height, stride)
    requires Decoded(out, FrameColours(s, width, height, stride), width, height)
    requires x < width && y < height
    ensures var o, c := Offset(y, stride) + x, Offset(height, stride) + Offset(y / 2, stride) + (x - x % 2);
      o < |s| && c + 1 < |s| && BgraAt(out, Offset(y, 4 * width) + 4 * x, ToBgr(s[o], s[c], s[c + 1]))
  {
    RowColourAt(s, width, height, stride, y, x);
    FrameByte(out, FrameColours(s, width, height, stride), width, y, x);
  }

  lemma DecodedAs(out: Bytes, s: Bytes, width: nat, height: nat, stride: nat, x: nat, y: nat, l: Byte, u: Byte, v: Byte)
    requires Layout(width, height, stride) && |s| >= Need(height, stride)
    requires Decoded(out, FrameColours(s, width, height, stride), width, height)
    requires x < width && y < height
    requires var o, c := Offset(y, stride) + x, Offset(height, stride) + Offset(y / 2, stride) + (x - x % 2);
      o < |s| && c + 1 < |s| && s[o] == l && s[c] == u && s[c + 1] == v
    ensures BgraAt(out, Offset(y, 4 * width) + 4 * x, ToBgr(l, u, v))
  {
    DecodedPixel(out, s, width, height, stride, x, y);
  }

  lemma FrameByte(out: Bytes, frame: seq<seq<Colour>>, width: nat, y: nat, x: nat)
    requires Decoded(out, frame, width, |frame|) && y < |frame| && x < width <= |frame[y]|
    ensures BgraAt(out, Offset(y, 4 * width) + 4 * x, frame[y][x])
  {
    assert DecodedRowAt(out, frame, width, y);
  }

  lemma BufferSuffices(width: nat, height: nat)
    requires height % 2 == 0
    ensures BufferSize(width, height) == Need(height, width)
  {
  }

  /** The colour that comes back for pixel (x, y), over any rows of samples. */
  lemma PixelThroughBuffer(s: Bytes, out: Bytes, rows: seq<seq<Sample>>, width: nat, height: nat, shown: nat, x: nat,
      y: nat)
    requires Encoded(s, rows, width, height) && width % 2 == 0 && x < shown && y < height
    requires Layout(shown, height, width) && Decoded(out, FrameColours(s, shown, height, width), shown, height)
    ensures var above := Row(rows, 2 * (y / 2));
      BgraAt(out, Offset(y, 4 * shown) + 4 * x,
             ToBgr(LumaIn(Row(rows, y), x), ChromaIn(above, x - x % 2), ChromaIn(above, x - x % 2 + 1)))
  {
    var left, half := x - x % 2, y / 2;
    var above := Row(rows, 2 * half);
    BufferSuffices(width, height);
    LumaByte(s, rows, width, height, y, x);
    ChromaBytes(s, rows, width, Offset(height, width), height / 2, left, half);
    DecodedAs(out, s, shown, height, width, x, y,
              LumaIn(Row(rows, y), x), ChromaIn(above, left), ChromaIn(above, left + 1));
  }

  /** A pixel and its block's corner, with the same sample v. */
  ghost predicate SameInBlock(rows: seq<seq<Sample>>, x: nat, y: nat, left: nat, above: nat, v: Sample) {
    y < |rows| && x < |rows[y]| && above < |rows| && left < |rows[above]| && rows[y][x] == rows[above][left] == v
  }

  lemma SampleComesBack(s: Bytes, out: Bytes, rows: seq<seq<Sample>>, width: nat, height: nat, shown: nat, x: nat,
      y: nat, v: Sample)
    requires Encoded(s, rows, width, height) && width % 2 == 0 && x < shown && y < height
    requires Layout(shown, height, width) && Decoded(out, FrameColours(s, shown, height, width), shown, height)
    requires SameInBlock(rows, x, y, x - x % 2, y - y % 2, v)
    ensures BgraAt(out, Offset(y, 4 * shown) + 4 * x, ToBgr(v.y, v.u, v.v))
  {
    BlockSamples(rows, x, y, v);
    PixelThroughBuffer(s, out, rows, width, height, shown, x, y);
  }

  /**
   Encoder and decoder back to back, any picture size: a pixel that has the colour of the corner of its
   two-by-two block comes back opaque, within 2 in red and green and within 3 in blue.
   */
  lemma PictureRoundTrip(s: Bytes, out: Bytes, p: Picture, width: nat, height: nat, shown: nat, x: nat, y: nat)
    requires p.Valid() && Holds(p, width, height) && Encoded(s, PictureSamples(p), width, height)
    requires Layout(shown, height, width) && Decoded(out, FrameColours(s, shown, height, width), shown, height)
    requires x < p.w && x < shown && y < p.h
    requires PictureColour(p, x, y) == PictureColour(p, x - x % 2, y - y % 2)
    ensures var back := Back(PictureColour(p, x, y));
      BgraAt(out, Offset(y, 4 * shown) + 4 * x, back) && NearColour(back, PictureColour(p, x, y))
  {
    var c := PictureColour(p, x, y);
    TwoSamples(p, x, y, x - x % 2, y - y % 2, c);
    SampleComesBack(s, out, PictureSamples(p), width, height, shown, x, y, SampleOf(c));
    ColourRoundTrip(c);
  }

  lemma TwoSamples(p: Picture, x: nat, y: nat, left: nat, above: nat, c: Colour)
    requires p.Valid() && left <= x < p.w && above <= y < p.h && PictureColour(p, x, y)
        == PictureColour(p, left, above) == c
    ensures SameInBlock(PictureSamples(p), x, y, left, above, SampleOf(c))
  {
    SampleIsOfColour(p, x, y);
    SampleIsOfColour(p, left, above);
  }

  lemma BlockSamples(rows: seq<seq<Sample>>, x: nat, y: nat, v: Sample)
    requires SameInBlock(rows, x, y, x - x % 2, y - y % 2, v)
    ensures LumaIn(Row(rows, y), x) == v.y
    ensures ChromaIn(Row(rows, 2 * (y / 2)), x - x % 2) == v.u
    ensures ChromaIn(Row(rows, 2 * (y / 2)), x - x % 2 + 1) == v.v
  {
    assert 2 * (y / 2) == y - y % 2;
  }

  lemma PaddingSamples(rows: seq<seq<Sample>>, w: nat, x: nat, y: nat)
    requires forall j | 0 <= j < |rows| :: |rows[j]| == w
    requires x - x % 2 >= w || y - y % 2 >= |rows|
    ensures LumaIn(Row(rows, y), x) == 16
    ensures ChromaIn(Row(rows, 2 * (y / 2)), x - x % 2) == 128
    ensures ChromaIn(Row(rows, 2 * (y / 2)), x - x % 2 + 1) == 128
  {
    assert 2 * (y / 2) == y - y % 2;
  }

  /** The padding the encoder adds decodes to black, from the first whole block behind the picture. */
  lemma PaddingIsBlack(s: Bytes, out: Bytes, p: Picture, width: nat, height: nat, shown: nat, x: nat, y: nat)
    requires p.Valid() && Holds(p, width, height) && Encoded(s, PictureSamples(p), width, height)
    requires Layout(shown, height, width) && Decoded(out, FrameColours(s, shown, height, width), shown, height)
    requires x < shown && y < height && (x - x % 2 >= p.w || y - y % 2 >= p.h)
    ensures BgraAt(out, Offset(y, 4 * shown) + 4 * x, Colour(0, 0, 0))
  {
    PaddingSamples(PictureSamples(p), p.w, x, y);
    PixelThroughBuffer(s, out, PictureSamples(p), width, height, shown, x, y);
    BlackDecodes();
  }

  lemma BlackDecodes()
    ensures ToBgr(16, 128, 128) == Colour(0, 0, 0)
  {
  }
}
