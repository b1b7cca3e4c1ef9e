/**
 Pictures on the clipboard (core/clipboard/clipboard.go): the writer of a 24-bit bottom-up device-independent
 bitmap and the reader of 24- and 32-bit bitmaps in either row order.  The writer leaves the header fields
 behind the image size as the allocator returned them, so one of them decides whether the reader accepts.
 */
module Dib {
  import opened Prelude
  import opened Grid

  // ---------------------------------------------------------------- little-endian fields

  function Le16(d: Bytes, i: nat): nat
    requires i + 2 <= |d|
  {
    d[i] as nat + 0x100 * d[i + 1] as nat
  }

  function Le32(d: Bytes, i: nat): nat
    requires i + 4 <= |d|
  {
    d[i] as nat + 0x100 * d[i + 1] as nat + 0x1_0000 * d[i + 2] as nat + 0x100_0000 * d[i + 3] as nat
  }

  /** The same four bytes as a two's complement number. */
  function Int32(u: nat): int {
    if u < 0x8000_0000 then u else u - 0x1_0000_0000
  }

  function Abs(n: int): nat {
    if n < 0 then -n else n
  }

  method Put16(mem: array<Byte>, i: nat, v: nat)
    requires i + 2 <= mem.Length && v < 0x1_0000
    modifies mem
    ensures Le16(mem[..], i) == v && SameOutside(old(mem[..]), mem[..], i, i + 2)
  {
    mem[i], mem[i + 1] := v % 256, v / 256;
  }

  method Put32(mem: array<Byte>, i: nat, v: nat)
    requires i + 4 <= mem.Length && v < 0x1_0000_0000
    modifies mem
    ensures Le32(mem[..], i) == v && SameOutside(old(mem[..]), mem[..], i, i + 4)
  {
    var v1 := v / 256;
    var v2 := v1 / 256;
    mem[i], mem[i + 1], mem[i + 2], mem[i + 3] := v % 256, v1 % 256, v2 % 256, v2 / 256;
  }

  // ---------------------------------------------------------------- pictures

  datatype Rgba = Rgba(r: Byte, g: Byte, b: Byte, a: Byte)

  type Rows = seq<seq<Rgba>>

  predicate Shape(rows: Rows, w: nat, h: nat) {
    |rows| == h && forall y | 0 <= y < h :: |rows[y]| == w
  }

  /** At most 16384 in each direction and 16 Mi pixels in all. */
  predicate ValidImageSize(w: int, h: int) {
    0 < w <= 16384 && 0 < h <= 16384 && Offset(h, w) <= 16 * 1024 * 1024
  }

  function Opaque(c: Rgba): Rgba {
    c.(a := 255)
  }

  /** Bytes of a pixel, before the padding. */
  function PixelStep(bpp: nat, x: nat): nat {
    if bpp == 24 then 3 * x else 4 * x
  }

  function Pitch(w: nat, bpp: nat): nat {
    (PixelStep(bpp, w) + 3) / 4 * 4
  }

  // ---------------------------------------------------------------- reading

  predicate Accepts(d: Bytes) {
    |d| >= 40
    && var header, w, h, bpp := Le32(d, 0), Int32(Le32(d, 4)), Abs(Int32(Le32(d, 8))), Le16(d, 14);
      && ValidImageSize(w, h) && (bpp == 24 || bpp == 32)
      && Le16(d, 12) == 1 && Le32(d, 16) == 0 && Le32(d, 32) == 0
      && 40 <= header <= |d|
      && header + Offset(h, Pitch(w, bpp)) <= |d|
  }

  datatype Layout = Layout(header: nat, w: nat, h: nat, bpp: nat, bottomUp: bool)

  function LayoutOf(d: Bytes): Layout
    requires |d| >= 40
  {
    Layout(Le32(d, 0), Abs(Int32(Le32(d, 4))), Abs(Int32(Le32(d, 8))), Le16(d, 14), Int32(Le32(d, 8)) > 0)
  }

  predicate Fits(d: Bytes, l: Layout) {
    (l.bpp == 24 || l.bpp == 32) && l.header + Offset(l.h, Pitch(l.w, l.bpp)) <= |d|
  }

  function PixelOf(d: Bytes, o: nat, bpp: nat): Rgba
    requires o + PixelStep(bpp, 1) <= |d|
  {
    Rgba(d[o + 2], d[o + 1], d[o], if bpp != 24 && d[o + 3] != 0 then d[o + 3] else 255)
  }

  function LineOf(line: Bytes, bpp: nat, w: nat): (row: seq<Rgba>)
    requires PixelStep(bpp, w) <= |line|
    ensures |row| == w
  {
    seq(w, x requires 0 <= x < w => PixelOf(line, PixelStep(bpp, x), bpp))
  }

  /** Line k of the file, counted from the start of the pixels. */
  function FileLine(d: Bytes, l: Layout, k: nat): (row: seq<Rgba>)
    requires Fits(d, l) && k < l.h
    ensures |row| == l.w
  {
    var pitch := Pitch(l.w, l.bpp);
    RowsApart(pitch, k, l.h);
    var from := l.header + Offset(k, pitch);
    LineOf(d[from..from + pitch], l.bpp, l.w)
  }

  /** The picture a bitmap stands for, its top row first. */
  function DibRows(d: Bytes, l: Layout): (rows: Rows)
    requires Fits(d, l)
    ensures Shape(rows, l.w, l.h)
  {
    seq(l.h, y requires 0 <= y < l.h => FileLine(d, l, if l.bottomUp then l.h - 1 - y else y))
  }

  // The reader's picture buffer: four bytes a pixel, rows without padding.

  predicate RgbaAt(pix: Bytes, o: nat, c: Rgba) {
    o + 4 <= |pix| && pix[o] == c.r && pix[o + 1] == c.g && pix[o + 2] == c.b && pix[o + 3] == c.a
  }

  ghost predicate RgbaLine(pix: Bytes, base: nat, row: seq<Rgba>, n: nat)
    requires n <= |row|
  {
    forall x: nat | x < n :: RgbaAt(pix, base + 4 * x, row[x])
  }

  ghost predicate RgbaRowAt(pix: Bytes, rows: Rows, w: nat, y: nat)
    requires y < |rows|
  {
    |rows[y]| == w && RgbaLine(pix, Offset(y, 4 * w), rows[y], w)
  }

  ghost predicate Holds(pix: Bytes, rows: Rows, w: nat, n: nat)
    requires n <= |rows|
  {
    forall y: nat | y < n :: RgbaRowAt(pix, rows, w, y)
  }

  method PutPixel(pix: array<Byte>, o: nat, c: Rgba)
    requires o + 4 <= pix.Length
    modifies pix
    ensures RgbaAt(pix[..], o, c) && SameOutside(old(pix[..]), pix[..], o, o + 4)
  {
    pix[o], pix[o + 1], pix[o + 2], pix[o + 3] := c.r, c.g, c.b, c.a;
  }

  lemma RgbaLineKept(s: Bytes, t: Bytes, base: nat, row: seq<Rgba>, n: nat, from: nat, to: nat)
    requires n <= |row| && RgbaLine(s, base, row, n)
    requires SameOutside(s, t, from, to) && (base + 4 * n <= from || to <= base)
    ensures RgbaLine(t, base, row, n)
  {
    forall x: nat | x < n ensures RgbaAt(t, base + 4 * x, row[x]) { assert RgbaAt(s, base + 4 * x, row[x]); }
  }

  method DecodeLine(line: Bytes, bpp: nat, w: nat, pix: array<Byte>, base: nat)
    requires (bpp == 24 || bpp == 32) && PixelStep(bpp, w) <= |line| && base + 4 * w <= pix.Length
    modifies pix
    ensures RgbaLine(pix[..], base, LineOf(line, bpp, w), w)
    ensures SameOutside(old(pix[..]), pix[..], base, base + 4 * w)
  {
    ghost var row := LineOf(line, bpp, w);
    for x := 0 to w
      invariant RgbaLine(pix[..], base, row, x)
      invariant SameOutside(old(pix[..]), pix[..], base, base + 4 * w)
    {
      ghost var before := pix[..];
      var o := PixelStep(bpp, x);
      var alpha: Byte := 255;
      if bpp == 32 && line[o + 3] != 0 { alpha := line[o + 3]; }
      PutPixel(pix, base + 4 * x, Rgba(line[o + 2], line[o + 1], line[o], alpha));
      RgbaLineKept(before, pix[..], base, row, x, base + 4 * x, base + 4 * x + 4);
    }
  }

  lemma HoldsGrows(s: Bytes, t: Bytes, rows: Rows, w: nat, n: nat)
    requires n < |rows| && Holds(s, rows, w, n) && RgbaRowAt(t, rows, w, n)
    requires SameOutside(s, t, Offset(n, 4 * w), Offset(n, 4 * w) + 4 * w)
    ensures Holds(t, rows, w, n + 1)
  {
    forall y: nat | y < n ensures RgbaRowAt(t, rows, w, y) {
      assert RgbaRowAt(s, rows, w, y);
      RowsApart(4 * w, y, n);
      RgbaLineKept(s, t, Offset(y, 4 * w), rows[y], w, Offset(n, 4 * w), Offset(n, 4 * w) + 4 * w);
    }
  }

  method DecodeRow(d: Bytes, l: Layout, y: nat, pix: array<Byte>)
    requires Fits(d, l) && y < l.h && pix.Length == Offset(l.h, 4 * l.w)
    modifies pix
    ensures RgbaLine(pix[..], Offset(y, 4 * l.w), FileLine(d, l, if l.bottomUp then l.h - 1 - y else y), l.w)
    ensures SameOutside(old(pix[..]), pix[..], Offset(y, 4 * l.w), Offset(y, 4 * l.w) + 4 * l.w)
  {
    var k := if l.bottomUp then l.h - 1 - y else y;
    var pitch := Pitch(l.w, l.bpp);
    RowsApart(pitch, k, l.h);
    RowsApart(4 * l.w, y, l.h);
    var from := l.header + Offset(k, pitch);
    DecodeLine(d[from..from + pitch], l.bpp, l.w, pix, Offset(y, 4 * l.w));
  }

  method DecodeRows(d: Bytes, l: Layout, pix: array<Byte>)
    requires Fits(d, l) && pix.Length == Offset(l.h, 4 * l.w)
    modifies pix
    ensures Holds(pix[..], DibRows(d, l), l.w, l.h)
  {
    ghost var rows := DibRows(d, l);
    for y := 0 to l.h
      invariant Holds(pix[..], rows, l.w, y)
    {
      ghost var before := pix[..];
      DecodeRow(d, l, y, pix);
      HoldsGrows(before, pix[..], rows, l.w, y);
    }
  }

  /** What the decoder returns for an accepted byte string: all pixels, top row first. */
  ghost predicate Decodes(d: Bytes, pix: Bytes) {
    Accepts(d) && var l := LayoutOf(d); |pix| == Offset(l.h, 4 * l.w) && Holds(pix, DibRows(d, l), l.w, l.h)
  }

  /** The decoder on any byte string at all: it never reads outside, and accepts exactly the well-formed ones. */
  method DecodeDib(d: Bytes) returns (image: Option<Bytes>)
    ensures image.Some? <==> Accepts(d)
    ensures image.Some? ==> Decodes(d, image.value)
  {
    if |d| < 40 { return None; }
    var header, w, rawH := Le32(d, 0), Int32(Le32(d, 4)), Int32(Le32(d, 8));
    var h := if rawH < 0 then -rawH else rawH;
    var bpp := Le16(d, 14);
    if !ValidImageSize(w, h) || (bpp != 24 && bpp != 32) || Le16(d, 12) != 1 || Le32(d, 16) != 0 || Le32(d, 32) != 0
      || header < 40 || header > |d|
    {
      return None;
    }
    if header + Offset(h, Pitch(w, bpp)) > |d| { return None; }
    var l := LayoutOf(d);
    var pix := new Byte[Offset(l.h, 4 * l.w)];
    DecodeRows(d, l, pix);
    return Some(pix[..]);
  }

  // ---------------------------------------------------------------- writing

  ghost predicate BgrLine(mem: Bytes, base: nat, row: seq<Rgba>, n: nat)
    requires n <= |row|
  {
    forall x: nat | x < n :: BgrAt(mem, base + 3 * x, row[x])
  }

  predicate BgrAt(mem: Bytes, o: nat, c: Rgba) {
    o + 3 <= |mem| && mem[o] == c.b && mem[o + 1] == c.g && mem[o + 2] == c.r
  }

  /** File line k holds the picture's row h - 1 - k. */
  ghost predicate BgrRowAt(mem: Bytes, rows: Rows, w: nat, k: nat)
    requires k < |rows|
  {
    |rows[|rows| - 1 - k]| == w && BgrLine(mem, 40 + Offset(k, Pitch(w, 24)), rows[|rows| - 1 - k], w)
  }

  ghost predicate BgrRows(mem: Bytes, rows: Rows, w: nat, n: nat)
    requires n <= |rows|
  {
    forall k: nat | k < n :: BgrRowAt(mem, rows, w, k)
  }

  predicate HeaderIs(mem: Bytes, w: nat, h: nat) {
    && |mem| >= 40
    && Le32(mem, 0) == 40 && Le32(mem, 4) == w && Le32(mem, 8) == h
    && Le16(mem, 12) == 1 && Le16(mem, 14) == 24
    && Le32(mem, 16) == 0 && Le32(mem, 20) == Offset(h, Pitch(w, 24))
  }

  ghost predicate Written(mem: Bytes, rows: Rows, w: nat, h: nat)
    requires |rows| == h
  {
    |mem| == 40 + Offset(h, Pitch(w, 24)) && HeaderIs(mem, w, h) && BgrRows(mem, rows, w, h)
  }

  /** The header fields the writer sets; bytes 24 to 39 keep what the allocator left there. */
  method WriteHeader(mem: array<Byte>, w: nat, h: nat, imageSize: nat)
    requires mem.Length >= 40 && w < 0x8000_0000 && h < 0x8000_0000
    requires imageSize == Offset(h, Pitch(w, 24)) < 0x1_0000_0000
    modifies mem
    ensures HeaderIs(mem[..], w, h)
    ensures SameOutside(old(mem[..]), mem[..], 0, 24)
  {
    Put32(mem, 0, 40);
    Put32(mem, 4, w);
    Put32(mem, 8, h);
    Put16(mem, 12, 1);
    Put16(mem, 14, 24);
    Put32(mem, 16, 0);
    Put32(mem, 20, imageSize);
  }

  lemma HeaderKept(s: Bytes, t: Bytes, w: nat, h: nat, from: nat, to: nat)
    requires HeaderIs(s, w, h) && SameOutside(s, t, from, to) && from >= 24
    ensures HeaderIs(t, w, h)
  {
  }

  lemma BgrLineKept(s: Bytes, t: Bytes, base: nat, row: seq<Rgba>, n: nat, from: nat, to: nat)
    requires n <= |row| && BgrLine(s, base, row, n)
    requires SameOutside(s, t, from, to) && (base + 3 * n <= from || to <= base)
    ensures BgrLine(t, base, row, n)
  {
    forall x: nat | x < n ensures BgrAt(t, base + 3 * x, row[x]) { assert BgrAt(s, base + 3 * x, row[x]); }
  }

  /** A row of the writer's picture buffer. */
  function RowOf(line: Bytes, w: nat): (row: seq<Rgba>)
    requires |line| == 4 * w
    ensures |row| == w
  {
    seq(w, x requires 0 <= x < w => Rgba(line[4 * x], line[4 * x + 1], line[4 * x + 2], line[4 * x + 3]))
  }

  function LineBytes(pix: Bytes, w: nat, h: nat, y: nat): (line: Bytes)
    requires |pix| == Offset(h, 4 * w) && y < h
    ensures |line| == 4 * w
  {
    RowsApart(4 * w, y, h);
    pix[Offset(y, 4 * w)..Offset(y, 4 * w) + 4 * w]
  }

  function PixRows(pix: Bytes, w: nat, h: nat): (rows: Rows)
    requires |pix| == Offset(h, 4 * w)
    ensures Shape(rows, w, h)
  {
    seq(h, y requires 0 <= y < h => RowOf(LineBytes(pix, w, h, y), w))
  }

  method WriteLine(line: Bytes, w: nat, mem: array<Byte>, base: nat)
    requires |line| == 4 * w && base + 3 * w <= mem.Length
    modifies mem
    ensures BgrLine(mem[..], base, RowOf(line, w), w)
    ensures SameOutside(old(mem[..]), mem[..], base, base + 3 * w)
  {
    ghost var row := RowOf(line, w);
    for x := 0 to w
      invariant BgrLine(mem[..], base, row, x)
      invariant SameOutside(old(mem[..]), mem[..], base, base + 3 * w)
    {
      ghost var before := mem[..];
      mem[base + 3 * x] := line[4 * x + 2];
      mem[base + 3 * x + 1] := line[4 * x + 1];
      mem[base + 3 * x + 2] := line[4 * x];
      BgrLineKept(before, mem[..], base, row, x, base + 3 * x, base + 3 * x + 3);
      assert BgrAt(mem[..], base + 3 * x, row[x]);
    }
  }

  lemma BgrRowsGrow(s: Bytes, t: Bytes, rows: Rows, w: nat, n: nat)
    requires n < |rows| && BgrRows(s, rows, w, n) && BgrRowAt(t, rows, w, n)
    requires SameOutside(s, t, 40 + Offset(n, Pitch(w, 24)), 40 + Offset(n, Pitch(w, 24)) + 3 * w)
    ensures BgrRows(t, rows, w, n + 1)
  {
    var pitch := Pitch(w, 24);
    forall k: nat | k < n ensures BgrRowAt(t, rows, w, k) {
      assert BgrRowAt(s, rows, w, k);
      RowsApart(pitch, k, n);
      BgrLineKept(s, t, 40 + Offset(k, pitch), rows[|rows| - 1 - k], w, 40 + Offset(n, pitch), 40 + Offset(n, pitch)
          + 3 * w);
    }
  }

  /** One round of the writer's outer loop. */
  method WriteRow(pix: Bytes, w: nat, h: nat, k: nat, mem: array<Byte>)
    requires |pix| == Offset(h, 4 * w) && k < h && mem.Length == 40 + Offset(h, Pitch(w, 24))
    requires BgrRows(mem[..], PixRows(pix, w, h), w, k)
    modifies mem
    ensures BgrRows(mem[..], PixRows(pix, w, h), w, k + 1)
    ensures SameOutside(old(mem[..]), mem[..], 40, mem.Length)
  {
    ghost var before := mem[..];
    var y, pitch := h - 1 - k, Pitch(w, 24);
    RowsApart(pitch, k, h);
    WriteLine(LineBytes(pix, w, h, y), w, mem, 40 + Offset(k, pitch));
    BgrRowsGrow(before, mem[..], PixRows(pix, w, h), w, k);
  }

  /** The writer over freshly allocated memory: everything but bytes 24 to 39 and the padding is set. */
  method WriteDib(pix: Bytes, w: nat, h: nat, mem: array<Byte>)
    requires ValidImageSize(w, h) && |pix| == Offset(h, 4 * w)
    requires mem.Length == 40 + Offset(h, Pitch(w, 24))
    modifies mem
    ensures Written(mem[..], PixRows(pix, w, h), w, h)
    ensures mem[24..40] == old(mem[24..40])
  {
    DibSizeBound(w, h);
    WriteHeader(mem, w, h, Offset(h, Pitch(w, 24)));
    ghost var headed := mem[..];
    ghost var rows := PixRows(pix, w, h);
    for k := 0 to h
      invariant BgrRows(mem[..], rows, w, k)
      invariant SameOutside(headed, mem[..], 40, mem.Length)
    {
      WriteRow(pix, w, h, k, mem);
    }
    HeaderKept(headed, mem[..], w, h, 40, mem.Length);
    forall i | 24 <= i < 40 ensures mem[i] == old(mem[i]) {
      assert headed[i] == old(mem[..])[i];
      assert mem[..][i] == headed[i];
    }
  }

  /** Padding adds at most three bytes a row, so the image size of a valid picture fits its 32-bit field. */
  lemma {:induction false} DibSizeBound(w: nat, h: nat)
    ensures Offset(h, Pitch(w, 24)) <= 3 * Offset(h, w) + 3 * h
  {
    if h == 0 {
    } else {
      DibSizeBound(w, h - 1);
    }
  }

  // ---------------------------------------------------------------- there and back

  function OpaqueRow(row: seq<Rgba>): (o: seq<Rgba>)
    ensures |o| == |row|
  {
    seq(|row|, x requires 0 <= x < |row| => Opaque(row[x]))
  }

  function OpaqueRows(rows: Rows): (o: Rows)
    ensures |o| == |rows|
  {
    seq(|rows|, y requires 0 <= y < |rows| => OpaqueRow(rows[y]))
  }

  /** The reader's view of one line the writer wrote. */
  lemma LineReadsBack(line: Bytes, row: seq<Rgba>, w: nat)
    requires |row| == w && 3 * w <= |line| && BgrLine(line, 0, row, w)
    ensures LineOf(line, 24, w) == OpaqueRow(row)
  {
    forall x | 0 <= x < w ensures LineOf(line, 24, w)[x] == OpaqueRow(row)[x] {
      assert BgrAt(line, 0 + 3 * x, row[x]);
    }
  }

  lemma SliceOfLine(d: Bytes, from: nat, to: nat, row: seq<Rgba>, w: nat)
    requires |row| == w && from + 3 * w <= to <= |d| && BgrLine(d, from, row, w)
    ensures BgrLine(d[from..to], 0, row, w)
  {
    forall x: nat | x < w ensures BgrAt(d[from..to], 0 + 3 * x, row[x]) {
      assert BgrAt(d, from + 3 * x, row[x]);
    }
  }

  lemma TailKeepsLine(mem: Bytes, tail: Bytes, base: nat, row: seq<Rgba>, w: nat)
    requires |row| == w && BgrLine(mem, base, row, w)
    ensures BgrLine(mem + tail, base, row, w)
  {
    forall x: nat | x < w ensures BgrAt(mem + tail, base + 3 * x, row[x]) {
      assert BgrAt(mem, base + 3 * x, row[x]);
    }
  }

  lemma FileLineReadsBack(mem: Bytes, tail: Bytes, rows: Rows, w: nat, h: nat, k: nat)
    requires Shape(rows, w, h) && Written(mem, rows, w, h) && k < h
    ensures var l := Layout(40, w, h, 24, true);
      Fits(mem + tail, l) && FileLine(mem + tail, l, k) == OpaqueRow(rows[h - 1 - k])
  {
    var d, pitch := mem + tail, Pitch(w, 24);
    var from := 40 + Offset(k, pitch);
    RowsApart(pitch, k, h);
    assert BgrRowAt(mem, rows, w, k);
    TailKeepsLine(mem, tail, from, rows[h - 1 - k], w);
    SliceOfLine(d, from, from + pitch, rows[h - 1 - k], w);
    LineReadsBack(d[from..from + pitch], rows[h - 1 - k], w);
  }

  lemma WordsReadBack(mem: Bytes, tail: Bytes, i: nat)
    requires i + 4 <= |mem|
    ensures Le32(mem + tail, i) == Le32(mem, i) && Le16(mem + tail, i) == Le16(mem, i)
  {
  }

  lemma HeaderReadsBack(mem: Bytes, tail: Bytes, w: nat, h: nat)
    requires ValidImageSize(w, h) && HeaderIs(mem, w, h) && |mem| == 40 + Offset(h, Pitch(w, 24))
    ensures Accepts(mem + tail) <==> Le32(mem, 32) == 0
    ensures LayoutOf(mem + tail) == Layout(40, w, h, 24, true)
  {
    WordsReadBack(mem, tail, 0);
    WordsReadBack(mem, tail, 4);
    WordsReadBack(mem, tail, 8);
    WordsReadBack(mem, tail, 12);
    WordsReadBack(mem, tail, 14);
    WordsReadBack(mem, tail, 16);
    WordsReadBack(mem, tail, 32);
  }

  /**
   What the writer wrote, with any bytes behind it, is accepted exactly when the color-count word, which the
   writer never sets, happened to be zero; it then stands for the same picture, made opaque.
   */
  lemma DibRoundTrip(mem: Bytes, tail: Bytes, rows: Rows, w: nat, h: nat)
    requires ValidImageSize(w, h) && Shape(rows, w, h) && Written(mem, rows, w, h)
    ensures Accepts(mem + tail) <==> Le32(mem, 32) == 0
    ensures LayoutOf(mem + tail) == Layout(40, w, h, 24, true) && Fits(mem + tail, LayoutOf(mem + tail))
    ensures DibRows(mem + tail, LayoutOf(mem + tail)) == OpaqueRows(rows)
  {
    HeaderReadsBack(mem, tail, w, h);
    RowsReadBack(mem, tail, rows, w, h);
  }

  lemma RowsReadBack(mem: Bytes, tail: Bytes, rows: Rows, w: nat, h: nat)
    requires Shape(rows, w, h) && Written(mem, rows, w, h)
    ensures var l := Layout(40, w, h, 24, true); Fits(mem + tail, l) && DibRows(mem + tail, l) == OpaqueRows(rows)
  {
    var d, l := mem + tail, Layout(40, w, h, 24, true);
    assert Fits(d, l);
    forall y: nat | y < h ensures DibRows(d, l)[y] == OpaqueRow(rows[y]) {
      RowReadsBack(mem, tail, rows, w, h, y);
    }
    assert DibRows(d, l) == OpaqueRows(rows);
  }

  lemma RowReadsBack(mem: Bytes, tail: Bytes, rows: Rows, w: nat, h: nat, y: nat)
    requires Shape(rows, w, h) && Written(mem, rows, w, h) && y < h
    ensures var l := Layout(40, w, h, 24, true); Fits(mem + tail, l) && DibRows(mem + tail, l)[y] == OpaqueRow(rows[y])
  {
    var k: nat := h - 1 - y;
    FileLineReadsBack(mem, tail, rows, w, h, k);
    BottomUpRow(mem + tail, Layout(40, w, h, 24, true), y);
    assert h - 1 - k == y;
  }

  lemma BottomUpRow(d: Bytes, l: Layout, y: nat)
    requires Fits(d, l) && l.bottomUp && y < l.h
    ensures DibRows(d, l)[y] == FileLine(d, l, l.h - 1 - y)
  {
  }

  lemma {:induction false} OffsetOfPixels(y: nat, w: nat)
    ensures Offset(y, 4 * w) == 4 * Offset(y, w)
  {
    if y == 0 {
    } else {
      OffsetOfPixels(y - 1, w);
    }
  }

  lemma OpaqueByte(out: Bytes, pix: Bytes, w: nat, h: nat, k: nat)
    requires |pix| == |out| == Offset(h, 4 * w) && k < |pix|
    requires Holds(out, OpaqueRows(PixRows(pix, w, h)), w, h)
    ensures out[k] == if k % 4 == 3 then 255 else pix[k]
  {
    var y := InSomeRow(4 * w, h, k);
    OffsetOfPixels(y, w);
    var q, r := k / 4, k % 4;
    var x: nat := q - Offset(y, w);
    assert k == 4 * Offset(y, w) + 4 * x + r;
    OpaquePixel(out, pix, w, h, y, x);
  }

  lemma OpaquePixel(out: Bytes, pix: Bytes, w: nat, h: nat, y: nat, x: nat)
    requires |pix| == |out| == Offset(h, 4 * w) && y < h && x < w
    requires Holds(out, OpaqueRows(PixRows(pix, w, h)), w, h)
    ensures var o := Offset(y, 4 * w) + 4 * x;
      o + 4 <= |pix| && out[o] == pix[o] && out[o + 1] == pix[o + 1] && out[o + 2] == pix[o + 2] && out[o + 3] == 255
  {
    RowsApart(4 * w, y, h);
    var rows := OpaqueRows(PixRows(pix, w, h));
    assert RgbaRowAt(out, rows, w, y);
    assert RgbaAt(out, Offset(y, 4 * w) + 4 * x, rows[y][x]);
    assert rows[y] == OpaqueRow(RowOf(LineBytes(pix, w, h, y), w));
  }

  /** A picture copied and pasted comes back byte for byte exactly when it was opaque. */
  lemma PixelsReadBack(pix: Bytes, out: Bytes, mem: Bytes, tail: Bytes, w: nat, h: nat)
    requires ValidImageSize(w, h) && |pix| == Offset(h, 4 * w) && Written(mem, PixRows(pix, w, h), w, h)
    requires Decodes(mem + tail, out)
    ensures |out| == |pix| && forall k | 0 <= k < |pix| && k % 4 != 3 :: out[k] == pix[k]
    ensures out == pix <==> forall k | 0 <= k < |pix| && k % 4 == 3 :: pix[k] == 255
  {
    DibRoundTrip(mem, tail, PixRows(pix, w, h), w, h);
    forall k | 0 <= k < |pix| ensures out[k] == if k % 4 == 3 then 255 else pix[k] {
      OpaqueByte(out, pix, w, h, k);
    }
  }

  /** The same lines under a negative height stand for the picture upside down. */
  lemma RowOrders(d: Bytes, up: Layout, down: Layout)
    requires Fits(d, up) && up.bottomUp && down == up.(bottomUp := false)
    ensures forall y | 0 <= y < up.h :: DibRows(d, down)[y] == DibRows(d, up)[up.h - 1 - y]
  {
  }

  // ---------------------------------------------------------------- bitmaps of any other writer

  /** Lines are padded to whole 32-bit words. */
  function Stride(w: nat, bpp: nat): nat {
    (w * bpp + 31) / 32 * 4
  }

  /** A header that is followed by its picture. */
  predicate Headed(d: Bytes, l: Layout) {
    && |d| >= 40 && ValidImageSize(l.w, l.h) && (l.bpp == 24 || l.bpp == 32) && l.header >= 40
    && Le32(d, 0) == l.header
    && Int32(Le32(d, 4)) == l.w
    && (if l.bottomUp then Int32(Le32(d, 8)) else -Int32(Le32(d, 8))) == l.h
    && Le16(d, 12) == 1 && Le16(d, 14) == l.bpp
    && Le32(d, 16) == 0 && Le32(d, 32) == 0
    && l.header + l.h * Stride(l.w, l.bpp) <= |d|
  }

  predicate StoredAt(d: Bytes, o: nat, c: Rgba, bpp: nat) {
    BgrAt(d, o, c) && (bpp == 32 ==> o + 4 <= |d| && d[o + 3] == c.a)
  }

  /** Where the file keeps the pixel in column x of the picture's row y. */
  function Place(l: Layout, x: nat, y: nat): nat
    requires y < l.h
  {
    l.header + (if l.bottomUp then l.h - 1 - y else y) * Stride(l.w, l.bpp) + x * (l.bpp / 8)
  }

  ghost predicate Stores(d: Bytes, l: Layout, rows: Rows)
    requires Shape(rows, l.w, l.h)
  {
    forall x: nat, y: nat | x < l.w && y < l.h :: StoredAt(d, Place(l, x, y), rows[y][x], l.bpp)
  }

  /** The reader takes an alpha of zero for no alpha at all. */
  function Seen(c: Rgba, bpp: nat): Rgba {
    if bpp == 24 || c.a == 0 then Opaque(c) else c
  }

  function SeenRow(row: seq<Rgba>, bpp: nat): (o: seq<Rgba>)
    ensures |o| == |row|
  {
    seq(|row|, x requires 0 <= x < |row| => Seen(row[x], bpp))
  }

  function SeenRows(rows: Rows, bpp: nat): (o: Rows)
    ensures |o| == |rows|
  {
    seq(|rows|, y requires 0 <= y < |rows| => SeenRow(rows[y], bpp))
  }

  lemma WordsOfLine(n: nat)
    ensures (24 * n + 31) / 32 == (3 * n + 3) / 4 && (32 * n + 31) / 32 == (4 * n + 3) / 4
  {
  }

  lemma StrideIsPitch(w: nat, bpp: nat)
    requires bpp == 24 || bpp == 32
    ensures Stride(w, bpp) == Pitch(w, bpp)
  {
    WordsOfLine(w);
    if bpp == 24 { assert w * bpp == 24 * w; } else { assert w * bpp == 32 * w; }
  }

  /** The reader accepts exactly the headers that are followed by their picture, and finds its layout. */
  lemma AcceptedExactly(d: Bytes, l: Layout)
    ensures Headed(d, l) <==> Accepts(d) && LayoutOf(d) == l
  {
    if l.bpp == 24 || l.bpp == 32 {
      StrideIsPitch(l.w, l.bpp);
      OffsetIsProduct(l.h, Pitch(l.w, l.bpp));
    }
  }

  /** A line of the file from `base` on. */
  ghost predicate StoredLine(d: Bytes, base: nat, row: seq<Rgba>, bpp: nat) {
    forall x: nat | x < |row| :: StoredAt(d, base + PixelStep(bpp, x), row[x], bpp)
  }

  /** The place, in the terms of the reader. */
  lemma PlaceOfPixel(l: Layout, x: nat, y: nat)
    requires (l.bpp == 24 || l.bpp == 32) && y < l.h
    ensures Place(l, x, y) == LineStart(l, y) + PixelStep(l.bpp, x)
  {
    StrideIsPitch(l.w, l.bpp);
    OffsetIsProduct(if l.bottomUp then l.h - 1 - y else y, Pitch(l.w, l.bpp));
    if l.bpp == 24 { assert x * (l.bpp / 8) == 3 * x; } else { assert x * (l.bpp / 8) == 4 * x; }
  }

  function LineStart(l: Layout, y: nat): nat
    requires y < l.h
  {
    l.header + Offset(if l.bottomUp then l.h - 1 - y else y, Pitch(l.w, l.bpp))
  }

  lemma LineIsStored(d: Bytes, l: Layout, rows: Rows, y: nat)
    requires (l.bpp == 24 || l.bpp == 32) && Shape(rows, l.w, l.h) && Stores(d, l, rows) && y < l.h
    ensures StoredLine(d, LineStart(l, y), rows[y], l.bpp)
  {
    forall x: nat | x < |rows[y]| ensures StoredAt(d, LineStart(l, y) + PixelStep(l.bpp, x), rows[y][x], l.bpp) {
      PlaceOfPixel(l, x, y);
      assert StoredAt(d, Place(l, x, y), rows[y][x], l.bpp);
    }
  }

  lemma StoredSlice(d: Bytes, from: nat, to: nat, row: seq<Rgba>, bpp: nat)
    requires (bpp == 24 || bpp == 32) && StoredLine(d, from, row, bpp)
    requires from + PixelStep(bpp, |row|) <= to <= |d|
    ensures StoredLine(d[from..to], 0, row, bpp)
  {
    forall x: nat | x < |row| ensures StoredAt(d[from..to], 0 + PixelStep(bpp, x), row[x], bpp) {
      assert StoredAt(d, from + PixelStep(bpp, x), row[x], bpp);
    }
  }

  lemma LineIsSeen(line: Bytes, row: seq<Rgba>, bpp: nat)
    requires (bpp == 24 || bpp == 32) && PixelStep(bpp, |row|) <= |line| && StoredLine(line, 0, row, bpp)
    ensures LineOf(line, bpp, |row|) == SeenRow(row, bpp)
  {
    forall x: nat | x < |row| ensures LineOf(line, bpp, |row|)[x] == SeenRow(row, bpp)[x] {
      assert StoredAt(line, 0 + PixelStep(bpp, x), row[x], bpp);
    }
  }

  lemma FileLineIsSeen(d: Bytes, l: Layout, k: nat, row: seq<Rgba>)
    requires Fits(d, l) && k < l.h && |row| == l.w
    requires StoredLine(d, l.header + Offset(k, Pitch(l.w, l.bpp)), row, l.bpp)
    ensures FileLine(d, l, k) == SeenRow(row, l.bpp)
  {
    var pitch := Pitch(l.w, l.bpp);
    var from := l.header + Offset(k, pitch);
    RowsApart(pitch, k, l.h);
    StoredSlice(d, from, from + pitch, row, l.bpp);
    LineIsSeen(d[from..from + pitch], row, l.bpp);
  }

  lemma RowIsSeen(d: Bytes, l: Layout, rows: Rows, y: nat)
    requires Fits(d, l) && Shape(rows, l.w, l.h) && Stores(d, l, rows) && y < l.h
    ensures FileLine(d, l, if l.bottomUp then l.h - 1 - y else y) == SeenRow(rows[y], l.bpp)
  {
    LineIsStored(d, l, rows, y);
    FileLineIsSeen(d, l, if l.bottomUp then l.h - 1 - y else y, rows[y]);
  }

  /**
   A bitmap of any writer, with 24 or 32 bits a pixel, in either row order and with a header of any length, is accepted
   and reads back as the picture it stores, top row first; a pixel without alpha, or with the alpha zero, is opaque.
   */
  lemma AnyBitmapReads(d: Bytes, l: Layout, rows: Rows)
    requires Headed(d, l) && Shape(rows, l.w, l.h) && Stores(d, l, rows)
    ensures Accepts(d) && LayoutOf(d) == l && Fits(d, l)
    ensures DibRows(d, l) == SeenRows(rows, l.bpp)
  {
    AcceptedExactly(d, l);
    RowsAreSeen(d, l, rows);
  }

  lemma RowsAreSeen(d: Bytes, l: Layout, rows: Rows)
    requires Fits(d, l) && Shape(rows, l.w, l.h) && Stores(d, l, rows)
    ensures DibRows(d, l) == SeenRows(rows, l.bpp)
  {
    forall y: nat | y < l.h ensures DibRows(d, l)[y] == SeenRow(rows[y], l.bpp) {
      RowIsSeen(d, l, rows, y);
    }
  }

  /** One red pixel, written over memory whose color-count word happened to be one. */
  const UNLUCKY: Bytes := seq(44, i requires 0 <= i < 44 => UnluckyByte(i))

  function UnluckyByte(i: nat): Byte {
    match i
    case 0 => 40
    case 4 => 1
    case 8 => 1
    case 12 => 1
    case 14 => 24
    case 20 => 4
    case 32 => 1
    case 42 => 255
    case _ => 0
  }

  lemma SmallSizes()
    ensures Pitch(1, 24) == 4 && Offset(1, 4) == 4 && Offset(1, 1) == 1
  {
    assert Offset(1, 4) == Offset(0, 4) + 4 && Offset(1, 1) == Offset(0, 1) + 1;
  }

  lemma UnluckyWords()
    ensures Le32(UNLUCKY, 0) == 40 && Le32(UNLUCKY, 4) == 1 && Le32(UNLUCKY, 8) == 1
    ensures Le16(UNLUCKY, 12) == 1 && Le16(UNLUCKY, 14) == 24
    ensures Le32(UNLUCKY, 16) == 0 && Le32(UNLUCKY, 20) == 4 && Le32(UNLUCKY, 32) == 1
  {
  }

  lemma UnluckyHeader()
    ensures HeaderIs(UNLUCKY, 1, 1)
  {
    SmallSizes();
    UnluckyWords();
  }

  lemma UnluckyPixels()
    ensures BgrRows(UNLUCKY, [[Rgba(255, 0, 0, 255)]], 1, 1)
  {
    assert BgrAt(UNLUCKY, 40, Rgba(255, 0, 0, 255));
    assert BgrLine(UNLUCKY, 40, [Rgba(255, 0, 0, 255)], 1);
    assert BgrRowAt(UNLUCKY, [[Rgba(255, 0, 0, 255)]], 1, 0);
  }

  /** What the writer wrote there is a bitmap the reader does not take. */
  lemma UnluckyIsRejected()
    ensures Written(UNLUCKY, [[Rgba(255, 0, 0, 255)]], 1, 1) && !Accepts(UNLUCKY)
  {
    SmallSizes();
    UnluckyHeader();
    UnluckyPixels();
    UnluckyWords();
  }
}
