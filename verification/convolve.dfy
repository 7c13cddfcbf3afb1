/**
 * convolve.c: the native loop that applies an N x N kernel to an edge-padded
 * RGB image held in flat row-major buffers, adds a bias, clamps to [0, 255]
 * and stores the truncated result in the destination buffer.
 */
module ConvolveC {
  import opened Images
  import opened Sums
  import opened Layout

  /** Channel c of padded pixel (y + ky, x + kx) in a buffer whose rows are pw pixels long. */
  function PaddedAt(padded: seq<Byte>, pw: nat, y: nat, x: nat, c: nat, ky: nat, kx: nat): Byte {
    ElementOr(padded, Offset(y + ky, x + kx, c, pw), 0)
  }

  /** Kernel weight (ky, kx) of a row-major kernel whose rows are kw weights long. */
  function KernelAt(kern: seq<real>, kw: nat, ky: nat, kx: nat): real {
    ElementOr(kern, kw * ky + kx, 0.0)
  }

  /** A channel value times a kernel weight, in floating point. */
  function Weigh(v: Byte, weight: real): real {
    v as real * weight
  }

  /**
   * The term that the loop adds for kernel cell (ky, kx) when it computes
   * channel c of destination pixel (y, x): the padded pixel (y + ky, x + kx)
   * times kern[kw * ky + kx].  The kernel is not flipped.
   */
  function WindowTerm(padded: seq<Byte>, kern: seq<real>, pw: nat, kw: nat, y: nat, x: nat, c: nat): (nat, nat) -> real
  {
    (ky: nat, kx: nat) => Weigh(PaddedAt(padded, pw, y, x, c, ky, kx), KernelAt(kern, kw, ky, kx))
  }

  /** The window sum of channel c at (y, x), plus the bias, clamped and truncated. */
  function OutputChannel(padded: seq<Byte>, kern: seq<real>, bias: real, pw: nat, kh: nat, kw: nat,
                         y: nat, x: nat, c: nat): Byte
  {
    ToByte(GridSum(WindowTerm(padded, kern, pw, kw, y, x, c), kh, kw) + bias)
  }

  /** The three channels of destination pixel (y, x). */
  function OutputPixel(padded: seq<Byte>, kern: seq<real>, bias: real, pw: nat, kh: nat, kw: nat,
                       y: nat, x: nat): (p: seq<Byte>)
    ensures |p| == ColorDepth
  {
    [OutputChannel(padded, kern, bias, pw, kh, kw, y, x, 0),
     OutputChannel(padded, kern, bias, pw, kh, kw, y, x, 1),
     OutputChannel(padded, kern, bias, pw, kh, kw, y, x, 2)]
  }

  /** Channel c of an output pixel is the channel's clamped window sum. */
  lemma OutputPixelAt(padded: seq<Byte>, kern: seq<real>, bias: real, pw: nat, kh: nat, kw: nat,
                      y: nat, x: nat, c: nat)
    requires c < ColorDepth
    ensures OutputPixel(padded, kern, bias, pw, kh, kw, y, x)[c] == OutputChannel(padded, kern, bias, pw, kh, kw, y, x, c)
  {
  }

  /** The destination image as height rows of width pixels. */
  function OutputCells(padded: seq<Byte>, kern: seq<real>, bias: real,
                       height: nat, width: nat, kh: nat, kw: nat): (cells: seq<seq<seq<Byte>>>)
    requires 1 <= kw
    ensures |cells| == height && Rectangular(cells, width)
  {
    seq(height, y requires 0 <= y < height =>
      seq(width, x requires 0 <= x < width =>
        OutputPixel(padded, kern, bias, width + kw - 1, kh, kw, y, x)))
  }

  /** The whole destination buffer, row-major. */
  function ConvolveOutput(padded: seq<Byte>, kern: seq<real>, bias: real,
                          height: nat, width: nat, kh: nat, kw: nat): seq<Byte>
    requires 1 <= kw
  {
    Flatten(OutputCells(padded, kern, bias, height, width, kh, kw))
  }

  /**
   * Every byte of the destination: the buffer has height * width * 3 bytes,
   * and channel c of pixel (y, x) holds the clamped window sum plus bias.
   */
  lemma ConvolveOutputAt(padded: seq<Byte>, kern: seq<real>, bias: real,
                         height: nat, width: nat, kh: nat, kw: nat, y: nat, x: nat, c: nat)
    requires 1 <= kw && y < height && x < width && c < ColorDepth
    ensures |ConvolveOutput(padded, kern, bias, height, width, kh, kw)| == height * (width * ColorDepth)
    ensures 0 <= Offset(y, x, c, width) < height * (width * ColorDepth)
    ensures ConvolveOutput(padded, kern, bias, height, width, kh, kw)[Offset(y, x, c, width)]
         == OutputChannel(padded, kern, bias, width + kw - 1, kh, kw, y, x, c)
  {
    var cells := OutputCells(padded, kern, bias, height, width, kh, kw);
    assert cells[y][x][c] == OutputChannel(padded, kern, bias, width + kw - 1, kh, kw, y, x, c) by {
      assert cells[y][x] == OutputPixel(padded, kern, bias, width + kw - 1, kh, kw, y, x);
      OutputPixelAt(padded, kern, bias, width + kw - 1, kh, kw, y, x, c);
    }
    FlattenAt(cells, width, y, x, c);
  }

  /**
   * Each output pixel depends only on its own window: two padded buffers that
   * agree on the kh x kw cells at (y, x) give the same channel value there.
   */
  lemma OutputDependsOnlyOnWindow(padded: seq<Byte>, padded': seq<Byte>, kern: seq<real>, bias: real,
                                  pw: nat, kh: nat, kw: nat, y: nat, x: nat, c: nat)
    requires forall ky: nat, kx: nat :: ky < kh && kx < kw ==>
      PaddedAt(padded, pw, y, x, c, ky, kx) == PaddedAt(padded', pw, y, x, c, ky, kx)
    ensures OutputChannel(padded, kern, bias, pw, kh, kw, y, x, c)
         == OutputChannel(padded', kern, bias, pw, kh, kw, y, x, c)
  {
    var f := WindowTerm(padded, kern, pw, kw, y, x, c);
    var g := WindowTerm(padded', kern, pw, kw, y, x, c);
    forall ky: nat, kx: nat | ky < kh && kx < kw
      ensures f(ky, kx) == g(ky, kx)
    {
    }
    GridSumExt(f, g, kh, kw);
  }

  /**
   * A kernel that is 1 at its centre and 0 elsewhere, with bias 0, copies
   * the padded centre cell (y + kh/2, x + kw/2) of each window.
   */
  lemma CentreKernelCopiesCentre(padded: seq<Byte>, kern: seq<real>, pw: nat, kh: nat, kw: nat,
                                 y: nat, x: nat, c: nat)
    requires 1 <= kh && 1 <= kw
    requires forall ky: nat, kx: nat :: ky < kh && kx < kw ==>
      KernelAt(kern, kw, ky, kx) == (if ky == kh / 2 && kx == kw / 2 then 1.0 else 0.0)
    ensures OutputChannel(padded, kern, 0.0, pw, kh, kw, y, x, c)
         == PaddedAt(padded, pw, y, x, c, kh / 2, kw / 2)
  {
    var f := WindowTerm(padded, kern, pw, kw, y, x, c);
    forall ky: nat, kx: nat | ky < kh && kx < kw && (ky, kx) != (kh / 2, kw / 2)
      ensures f(ky, kx) == 0.0
    {
    }
    GridSumSingle(f, kh / 2, kw / 2, kh, kw);
    ToByteOfByte(PaddedAt(padded, pw, y, x, c, kh / 2, kw / 2));
  }

  /**
   * The strides convolve computes for a row-major buffer whose rows are w
   * pixels long (s1 per pixel, s0 per row) locate pixel (y, x) at its Offset.
   */
  lemma Strides(y: nat, x: nat, w: nat, s0: int, s1: int)
    requires s1 == ColorDepth && s0 == s1 * w
    ensures 0 <= y * s0 + x * s1
    ensures y * s0 + x * s1 == Offset(y, x, 0, w) == Offset(y, 0, 0, w) + x * ColorDepth
    ensures y * s0 + (x + 1) * s1 == Offset(y, x, 0, w) + ColorDepth
    ensures (y + 1) * s0 == y * s0 + w * s1
  {
    MulMonotone(0, y, s0);
  }

  /**
   * Writing row y right after the first y rows extends the written prefix of
   * the destination by that row.
   */
  lemma RowsProgress(before: seq<Byte>, after: seq<Byte>, rows: seq<seq<Byte>>, y: nat, start: nat, next: nat)
    requires y < |rows| && next == start + |rows[y]| <= |before|
    requires before[..start] == Concat(rows[..y])
    requires after == before[..start] + rows[y] + before[next..]
    ensures next <= |after| && after[..next] == Concat(rows[..y + 1])
  {
    assert after[..next] == before[..start] + rows[y];
    ConcatSnoc(rows, y);
  }

  /** Weight (ky, kx) of a kh x kw kernel lies inside its kh * kw weights. */
  lemma KernelIndex(ky: nat, kx: nat, kh: nat, kw: nat)
    requires ky < kh && kx < kw
    ensures 0 <= kw * ky + kx < kh * kw
  {
    BlockBound(ky, kx, kh, kw);
  }

  /** Row y of an h-row image lies inside its buffer. */
  lemma RowBound(y: nat, h: nat, w: nat)
    requires y < h
    ensures 0 <= Offset(y, 0, 0, w) && Offset(y, 0, 0, w) + w * ColorDepth <= h * (w * ColorDepth)
  {
    MulMonotone(0, y, w * ColorDepth);
    MulMonotone(y + 1, h, w * ColorDepth);
  }

  /** Row y + 1 starts one row of w pixels after row y. */
  lemma NextRow(y: nat, w: nat)
    ensures 0 <= Offset(y, 0, 0, w)
    ensures Offset(y + 1, 0, 0, w) == Offset(y, 0, 0, w) + w * ColorDepth
  {
    MulMonotone(0, y, w * ColorDepth);
  }

  /**
   * One pass of the inner kernel loop for channel c, in the loop's own terms:
   * with wy and the strides as convolve computes them, the byte it reads lies
   * inside the padded buffer, the weight inside the kernel, and adding their
   * product extends the row sum of the window by one term.
   */
  lemma WindowStep(padded: seq<Byte>, kern: seq<real>, height: nat, width: nat, kh: nat, kw: nat,
                   y: nat, x: nat, c: nat, ky: nat, kx: nat, s1: int, ps0: int, wy: int, windowOffset: int)
    requires |padded| == (height + kh - 1) * ((width + kw - 1) * ColorDepth) && |kern| == kh * kw
    requires y < height && x < width && c < ColorDepth && ky < kh && kx < kw
    requires s1 == ColorDepth && ps0 == (width + kw - 1) * s1 && wy == (y + ky) * ps0
    requires windowOffset == wy + (x + kx) * s1 + c
    ensures 0 <= windowOffset < |padded| && 0 <= kw * ky + kx < |kern|
    ensures RowSum(WindowTerm(padded, kern, width + kw - 1, kw, y, x, c), ky, kx + 1)
         == RowSum(WindowTerm(padded, kern, width + kw - 1, kw, y, x, c), ky, kx)
            + Weigh(padded[windowOffset], kern[kw * ky + kx])
  {
    OffsetBound(y + ky, x + kx, c, height + kh - 1, width + kw - 1);
    KernelIndex(ky, kx, kh, kw);
    assert windowOffset == Offset(y + ky, x + kx, c, width + kw - 1);
  }

  /**
   * Destination pixel (y, x) holds the three window sums of that pixel plus
   * the bias, each clamped and truncated.
   */
  lemma OutputCellAt(padded: seq<Byte>, kern: seq<real>, bias: real,
                     height: nat, width: nat, kh: nat, kw: nat, y: nat, x: nat, r: real, g: real, b: real)
    requires 1 <= kw && y < height && x < width
    requires r == GridSum(WindowTerm(padded, kern, width + kw - 1, kw, y, x, 0), kh, kw)
    requires g == GridSum(WindowTerm(padded, kern, width + kw - 1, kw, y, x, 1), kh, kw)
    requires b == GridSum(WindowTerm(padded, kern, width + kw - 1, kw, y, x, 2), kh, kw)
    ensures OutputCells(padded, kern, bias, height, width, kh, kw)[y][x]
         == [ToByte(r + bias), ToByte(g + bias), ToByte(b + bias)]
  {
  }

  /**
   * Writing pixel x of a row whose first x pixels are already in place (the
   * row starting at byte o) extends the written part of the row by that pixel.
   */
  lemma RowProgress(before: seq<Byte>, after: seq<Byte>, orig: seq<Byte>, o: nat,
                    pixels: seq<seq<Byte>>, x: nat)
    requires x < |pixels| && Uniform(pixels, ColorDepth)
    requires o + (x + 1) * ColorDepth <= |orig| == |before|
    requires before == orig[..o] + Concat(pixels[..x]) + orig[o + x * ColorDepth..]
    requires after == before[..o + x * ColorDepth] + pixels[x] + before[o + x * ColorDepth + ColorDepth..]
    ensures after == orig[..o] + Concat(pixels[..x + 1]) + orig[o + (x + 1) * ColorDepth..]
  {
    ConcatLength(pixels[..x], ColorDepth);
    ConcatSnoc(pixels, x);
    assert before[..o + x * ColorDepth] == orig[..o] + Concat(pixels[..x]);
    assert before[o + x * ColorDepth + ColorDepth..] == orig[o + (x + 1) * ColorDepth..];
  }

  /**
   * The kernel loops of convolve (ky outer, kx inner) for destination pixel
   * (y, x): the three accumulators start at zero and end as the window sums
   * of their channel.  Every read lies inside the padded buffer.
   */
  method WindowSums(imgPadded: seq<Byte>, kern: seq<real>,
                    height: nat, width: nat, kheight: nat, kwidth: nat, y: nat, x: nat)
    returns (r: real, g: real, b: real)
    requires 1 <= kheight && 1 <= kwidth && y < height && x < width
    requires |imgPadded| == (height + kheight - 1) * ((width + kwidth - 1) * ColorDepth)
    requires |kern| == kheight * kwidth
    ensures r == GridSum(WindowTerm(imgPadded, kern, width + kwidth - 1, kwidth, y, x, 0), kheight, kwidth)
    ensures g == GridSum(WindowTerm(imgPadded, kern, width + kwidth - 1, kwidth, y, x, 1), kheight, kwidth)
    ensures b == GridSum(WindowTerm(imgPadded, kern, width + kwidth - 1, kwidth, y, x, 2), kheight, kwidth)
  {
    var s1 := ColorDepth;
    var ps0 := (width + kwidth - 1) * s1;
    ghost var t0 := WindowTerm(imgPadded, kern, width + kwidth - 1, kwidth, y, x, 0);
    ghost var t1 := WindowTerm(imgPadded, kern, width + kwidth - 1, kwidth, y, x, 1);
    ghost var t2 := WindowTerm(imgPadded, kern, width + kwidth - 1, kwidth, y, x, 2);

    r, g, b := 0.0, 0.0, 0.0;
    var ky := 0;
    while ky < kheight
      invariant ky <= kheight
      invariant r == GridSum(t0, ky, kwidth)
      invariant g == GridSum(t1, ky, kwidth)
      invariant b == GridSum(t2, ky, kwidth)
    {
      var wy := (y + ky) * ps0;
      var kx := 0;
      while kx < kwidth
        invariant kx <= kwidth
        invariant r == GridSum(t0, ky, kwidth) + RowSum(t0, ky, kx)
        invariant g == GridSum(t1, ky, kwidth) + RowSum(t1, ky, kx)
        invariant b == GridSum(t2, ky, kwidth) + RowSum(t2, ky, kx)
      {
        KernelIndex(ky, kx, kheight, kwidth);
        var kval := kern[kwidth * ky + kx];
        var windowOffset := wy + (x + kx) * s1;
        WindowStep(imgPadded, kern, height, width, kheight, kwidth, y, x, 0, ky, kx, s1, ps0, wy, windowOffset);
        r := r + Weigh(imgPadded[windowOffset], kval);
        windowOffset := windowOffset + 1;
        WindowStep(imgPadded, kern, height, width, kheight, kwidth, y, x, 1, ky, kx, s1, ps0, wy, windowOffset);
        g := g + Weigh(imgPadded[windowOffset], kval);
        windowOffset := windowOffset + 1;
        WindowStep(imgPadded, kern, height, width, kheight, kwidth, y, x, 2, ky, kx, s1, ps0, wy, windowOffset);
        b := b + Weigh(imgPadded[windowOffset], kval);
        kx := kx + 1;
      }
      ky := ky + 1;
    }
  }


  /**
   * The store at the end of the pixel loop: the clamped sums plus bias go to
   * the three bytes at pixelOffset, and nothing else in dest changes.
   */
  method StorePixel(dest: array<Byte>, pixelOffset: nat, bias: real, r: real, g: real, b: real)
    requires pixelOffset + ColorDepth <= dest.Length
    modifies dest
    ensures dest[..] == old(dest[..])[..pixelOffset]
                        + [ToByte(r + bias), ToByte(g + bias), ToByte(b + bias)]
                        + old(dest[..])[pixelOffset + ColorDepth..]
  {
    var offset := pixelOffset;
    dest[offset] := ToByte(r + bias);
    offset := offset + 1;
    dest[offset] := ToByte(g + bias);
    offset := offset + 1;
    dest[offset] := ToByte(b + bias);
  }

  /**
   * One pass of the pixel loop of convolve: the window sums of pixel (y, x)
   * plus the bias go, clamped and truncated, to the three bytes at
   * pixelOffset, and no other byte of dest changes.
   */
  method ConvolvePixel(imgPadded: array<Byte>, kern: array<real>, dest: array<Byte>, bias: real,
                       height: nat, width: nat, kheight: nat, kwidth: nat, y: nat, x: nat, pixelOffset: nat)
    requires 1 <= kheight && 1 <= kwidth && y < height && x < width
    requires imgPadded.Length == (height + kheight - 1) * ((width + kwidth - 1) * ColorDepth)
    requires kern.Length == kheight * kwidth
    requires dest.Length == height * (width * ColorDepth)
    requires imgPadded != dest
    requires pixelOffset == Offset(y, x, 0, width)
    modifies dest
    ensures pixelOffset + ColorDepth <= dest.Length
    ensures imgPadded[..] == old(imgPadded[..]) && kern[..] == old(kern[..])
    ensures dest[..] == old(dest[..])[..pixelOffset]
                        + OutputCells(imgPadded[..], kern[..], bias, height, width, kheight, kwidth)[y][x]
                        + old(dest[..])[pixelOffset + ColorDepth..]
  {
    var r, g, b := WindowSums(imgPadded[..], kern[..], height, width, kheight, kwidth, y, x);
    OutputCellAt(imgPadded[..], kern[..], bias, height, width, kheight, kwidth, y, x, r, g, b);
    OffsetBound(y, x, ColorDepth - 1, height, width);
    // set the pixel on the destination image
    StorePixel(dest, pixelOffset, bias, r, g, b);
  }

  /**
   * One pass of the outer loop of convolve: the pixels of destination row y,
   * left to right.  Row y of dest receives the row's output bytes and no
   * other byte of dest changes.
   */
  method ConvolveRow(imgPadded: array<Byte>, kern: array<real>, dest: array<Byte>, bias: real,
                     height: nat, width: nat, kheight: nat, kwidth: nat, y: nat)
    requires 1 <= kheight && 1 <= kwidth && y < height
    requires imgPadded.Length == (height + kheight - 1) * ((width + kwidth - 1) * ColorDepth)
    requires kern.Length == kheight * kwidth
    requires dest.Length == height * (width * ColorDepth)
    requires imgPadded != dest
    modifies dest
    ensures Offset(y, 0, 0, width) + width * ColorDepth <= dest.Length
    ensures dest[..] == old(dest[..])[..Offset(y, 0, 0, width)]
                        + Concat(OutputCells(imgPadded[..], kern[..], bias, height, width, kheight, kwidth)[y])
                        + old(dest[..])[Offset(y, 0, 0, width) + width * ColorDepth..]
  {
    // strides of the destination image
    var s1 := ColorDepth;
    var s0 := s1 * width;

    ghost var cells := OutputCells(imgPadded[..], kern[..], bias, height, width, kheight, kwidth);
    ghost var orig := dest[..];
    ghost var rowStart := Offset(y, 0, 0, width);
    RowBound(y, height, width);
    assert dest[..] == orig[..rowStart] + Concat(cells[y][..0]) + orig[rowStart + 0 * ColorDepth..];
    var x := 0;
    while x < width
      invariant x <= width
      invariant dest[..] == orig[..rowStart] + Concat(cells[y][..x]) + orig[rowStart + x * ColorDepth..]
      invariant imgPadded[..] == old(imgPadded[..]) && kern[..] == old(kern[..])
    {
      var pixelOffset := y * s0 + x * s1;
      Strides(y, x, width, s0, s1);
      ghost var before := dest[..];
      ConvolvePixel(imgPadded, kern, dest, bias, height, width, kheight, kwidth, y, x, pixelOffset);
      RowProgress(before, dest[..], orig, rowStart, cells[y], x);
      x := x + 1;
    }
    assert cells[y][..width] == cells[y];
  }

  /**
   * The native convolve routine.  For every destination pixel, in row-major
   * order, it computes the three window sums, adds the bias, and stores
   * clamp(sum + bias) truncated to a byte.  The writes fill the destination
   * buffer exactly: dest afterwards is the row-major layout of the output.
   */
  method Convolve(imgPadded: array<Byte>, kern: array<real>, dest: array<Byte>, bias: real,
                  height: nat, width: nat, kheight: nat, kwidth: nat)
    requires 1 <= kheight && 1 <= kwidth
    requires imgPadded.Length == (height + kheight - 1) * ((width + kwidth - 1) * ColorDepth)
    requires kern.Length == kheight * kwidth
    requires dest.Length == height * (width * ColorDepth)
    requires imgPadded != dest
    modifies dest
    ensures dest[..] == ConvolveOutput(imgPadded[..], kern[..], bias, height, width, kheight, kwidth)
  {
    ghost var cells := OutputCells(imgPadded[..], kern[..], bias, height, width, kheight, kwidth);
    ghost var rows := FlatRows(cells);

    var y := 0;
    while y < height
      invariant y <= height
      invariant Offset(y, 0, 0, width) <= dest.Length
      invariant dest[..Offset(y, 0, 0, width)] == Concat(rows[..y])
      invariant imgPadded[..] == old(imgPadded[..]) && kern[..] == old(kern[..])
    {
      ghost var before := dest[..];
      ConvolveRow(imgPadded, kern, dest, bias, height, width, kheight, kwidth, y);
      ConcatLength(cells[y], ColorDepth);
      NextRow(y, width);
      RowsProgress(before, dest[..], rows, y, Offset(y, 0, 0, width), Offset(y + 1, 0, 0, width));
      y := y + 1;
    }
    assert dest[..] == dest[..Offset(height, 0, 0, width)];
    assert rows[..height] == rows;
  }
}
