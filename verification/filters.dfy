/**
 * filters.py: the Python half of the convolution engine and the kernels
 * built on it.  _convolve validates the image and the kernel, pads the
 * image by N / 2 pixels on every side with its edge pixels (np.pad in
 * 'edge' mode), lays the padded image out contiguously, allocates the
 * destination and hands the three buffers to the native loop of
 * convolve.c.  The result is a correlation of the image with the kernel
 * whose out-of-range samples are clamped to the nearest edge pixel.
 */
module Filters {
  import opened Images
  import opened Sums
  import opened Layout
  import opened ConvolveC
  import BpImage

  /** What _convolve inspects in the kernel array: dtype, shape and weights. */
  datatype KernelArray = KernelArray(dtype: DType, shape: seq<nat>, weights: seq<seq<real>>)
  {
    function NDim(): nat { |shape| }

    /** A 2-D kernel holds shape[0] rows of shape[1] weights. */
    ghost predicate Valid() {
      |shape| == 2 ==>
        |weights| == shape[0] && forall i :: 0 <= i < |weights| ==> |weights[i]| == shape[1]
    }
  }

  const RgbMessage := "Expected RGB Image array of shape (h,w,3)."
  const KernelMessage := "Kernel must be a NxN square of floats where N is an odd number greater than one."
  const SizeMessage := "Image must be larger than Kernel"
  /** What np.pad raises when asked to extend an empty axis in 'edge' mode. */
  const EmptyAxisMessage := "can't extend empty axis 1 using modes other than 'constant' or 'empty'"

  /** The kernel test of _convolve, with Python's short-circuit `or`. */
  predicate KernelRejected(k: KernelArray): (r: bool)
    ensures !r ==>
      k.dtype == Float32 && |k.shape| == 2 && 1 <= k.shape[0] / 2 &&
      k.shape[0] == k.shape[1] == 2 * (k.shape[0] / 2) + 1
  {
    k.dtype != Float32 || k.NDim() != 2 || k.shape[0] != k.shape[1] || k.shape[0] % 2 == 0 || k.shape[0] <= 1
  }

  /** Python's `a > b` on tuples of integers: lexicographic, a proper prefix being smaller. */
  predicate LexGreater(a: seq<nat>, b: seq<nat>): (r: bool)
    ensures r ==> a != [] && a != b && (b != [] ==> a[0] >= b[0])
    decreases |a|
  {
    if a == [] then false
    else if b == [] then true
    else if a[0] != b[0] then a[0] > b[0]
    else LexGreater(a[1..], b[1..])
  }

  /** On pairs the size guard compares the heights first and the widths only on a tie. */
  lemma LexGreaterPair(p: nat, q: nat, h: nat, w: nat)
    ensures LexGreater([p, q], [h, w]) <==> p > h || (p == h && q > w)
  {
    assert [p, q][1..] == [q] && [h, w][1..] == [w];
    assert LexGreater([q], [w]) <==> q > w by {
      assert [q][1..] == [] && [w][1..] == [];
    }
  }

  /**
   * np.pad in 'edge' mode along one axis: r copies of the first element,
   * the elements, then r copies of the last one.  Index i of the result is
   * element i - r of the input, clamped into range.
   */
  function PadAxis<T>(s: seq<T>, r: nat): (p: seq<T>)
    ensures |s| > 0 ==> |p| == |s| + 2 * r
    ensures |s| > 0 ==> forall i :: 0 <= i < |p| ==> p[i] == s[BpImage.Clamp(i - r, |s| - 1)]
  {
    if s == [] then [] else Replicate(s[0], r) + s + Replicate(s[|s| - 1], r)
  }

  /**
   * np.pad(img, ((r, r), (r, r), (0, 0)), 'edge'): the rows are padded
   * first, then every row's pixels; the channels are left alone.
   */
  function EdgePad(img: Image, r: nat): (e: Image)
    requires img.Valid() && 0 < img.Height() && 0 < img.Width()
    ensures e.Valid() && e.depth == img.depth
    ensures e.Height() == img.Height() + 2 * r && e.Width() == img.Width() + 2 * r
  {
    var rows := PadAxis(img.grid.cells, r);
    var cells := seq(|rows|, i requires 0 <= i < |rows| => PadAxis(rows[i], r));
    Image(img.depth, Grid(img.Height() + 2 * r, img.Width() + 2 * r, cells))
  }

  /** Cell (i, j) of the edge-padded image is the source pixel at the clamped (i - r, j - r). */
  lemma EdgePadAt(img: Image, r: nat, i: nat, j: nat)
    requires img.Valid() && 0 < img.Height() && 0 < img.Width()
    requires i < img.Height() + 2 * r && j < img.Width() + 2 * r
    ensures EdgePad(img, r).grid.cells[i][j]
         == img.grid.cells[BpImage.Clamp(i - r, img.Height() - 1)][BpImage.Clamp(j - r, img.Width() - 1)]
  {
    var rows := PadAxis(img.grid.cells, r);
    assert rows[i] == img.grid.cells[BpImage.Clamp(i - r, img.Height() - 1)];
  }

  /** Every cell (i, j) of cells is the source pixel at the clamped (i - r, j - r). */
  ghost predicate EdgePadded(cells: seq<seq<Pixel>>, img: Image, r: nat)
    requires img.Valid() && 0 < img.Height() && 0 < img.Width()
  {
    forall i, j :: 0 <= i < |cells| && 0 <= j < |cells[i]| ==>
      cells[i][j] == img.grid.cells[BpImage.Clamp(i - r, img.Height() - 1)][BpImage.Clamp(j - r, img.Width() - 1)]
  }

  /** The edge pad of the image is edge-padded in that sense. */
  lemma EdgePadClamped(img: Image, r: nat)
    requires img.Valid() && 0 < img.Height() && 0 < img.Width()
    ensures EdgePadded(EdgePad(img, r).grid.cells, img, r)
  {
    var cells := EdgePad(img, r).grid.cells;
    forall i, j | 0 <= i < |cells| && 0 <= j < |cells[i]|
      ensures cells[i][j] == img.grid.cells[BpImage.Clamp(i - r, img.Height() - 1)][BpImage.Clamp(j - r, img.Width() - 1)]
    {
      EdgePadAt(img, r, i, j);
    }
  }

  /** The hand-written _pad of bpimage.py is np.pad in 'edge' mode with radius 1. */
  lemma PadIsEdgePad(img: Image, i: nat, j: nat)
    requires img.Valid() && 0 < img.Height() && 0 < img.Width()
    requires i < img.Height() + 2 && j < img.Width() + 2
    ensures EdgePad(img, 1).grid.cells[i][j] == BpImage.PadSource(img, i, j)
  {
    EdgePadAt(img, 1, i, j);
  }

  /** Weight (i, j) of a kernel, 0 outside it. */
  function Weight(weights: seq<seq<real>>, i: nat, j: nat): real {
    if i < |weights| && j < |weights[i]| then weights[i][j] else 0.0
  }

  /** The weights as a term of a double sum. */
  function KernelTerm(weights: seq<seq<real>>): (nat, nat) -> real {
    (i: nat, j: nat) => Weight(weights, i, j)
  }

  /** The sum of all weights of an n x n kernel. */
  function KernelSum(weights: seq<seq<real>>, n: nat): real {
    GridSum(KernelTerm(weights), n, n)
  }

  /**
   * The term for kernel cell (ky, kx) of channel c at output pixel (y, x):
   * the weight times the source pixel (y + ky - r, x + kx - r), each
   * coordinate clamped to the image.  The kernel is not flipped.
   */
  function SampleTerm(img: Image, weights: seq<seq<real>>, r: nat, y: nat, x: nat, c: nat): (nat, nat) -> real
  {
    (ky: nat, kx: nat) =>
      Weigh(img.Channel(BpImage.Clamp(y + ky - r, img.Height() - 1), BpImage.Clamp(x + kx - r, img.Width() - 1), c),
            Weight(weights, ky, kx))
  }

  /** Channel c of output pixel (y, x): the correlation sum plus bias, clamped and truncated. */
  function CorrelateChannel(img: Image, weights: seq<seq<real>>, n: nat, bias: real, y: nat, x: nat, c: nat): Byte {
    ToByte(GridSum(SampleTerm(img, weights, n / 2, y, x, c), n, n) + bias)
  }

  function CorrelatePixel(img: Image, weights: seq<seq<real>>, n: nat, bias: real, y: nat, x: nat): (p: Pixel)
    ensures |p| == ColorDepth
  {
    [CorrelateChannel(img, weights, n, bias, y, x, 0),
     CorrelateChannel(img, weights, n, bias, y, x, 1),
     CorrelateChannel(img, weights, n, bias, y, x, 2)]
  }

  /** The correlated image, pixel by pixel, with the input's height and width. */
  function CorrelateCells(img: Image, weights: seq<seq<real>>, n: nat, bias: real): (cells: seq<seq<Pixel>>)
    ensures |cells| == img.Height()
    ensures forall y :: 0 <= y < |cells| ==> |cells[y]| == img.Width()
  {
    seq(img.Height(), y requires 0 <= y < img.Height() =>
      seq(img.Width(), x requires 0 <= x < img.Width() => CorrelatePixel(img, weights, n, bias, y, x)))
  }

  /** Pixel (y, x) of the correlated image. */
  lemma CorrelateCellsAt(img: Image, weights: seq<seq<real>>, n: nat, bias: real, y: nat, x: nat)
    requires y < img.Height() && x < img.Width()
    ensures CorrelateCells(img, weights, n, bias)[y][x] == CorrelatePixel(img, weights, n, bias, y, x)
  {
  }

  /**
   * What _convolve returns or raises: the checks in their source order,
   * then the edge-clamped correlation.  A successful result has exactly the
   * shape of the input image.
   */
  function Convolution(img: Image, kern: KernelArray, bias: real): (r: Result<Image>)
    ensures r.Failure? ==> r.error.ValueError?
    ensures r.Success? ==>
      r.value.Valid() && r.value.depth == img.depth == ColorDepth &&
      r.value.Height() == img.Height() && r.value.Width() == img.Width()
  {
    if img.depth != ColorDepth then Failure(ValueError(RgbMessage))
    else if KernelRejected(kern) then Failure(ValueError(KernelMessage))
    else if LexGreater(kern.shape, [img.Height(), img.Width()]) then Failure(ValueError(SizeMessage))
    else if img.Width() == 0 then Failure(ValueError(EmptyAxisMessage))
    else Success(Image(ColorDepth, Grid(img.Height(), img.Width(), CorrelateCells(img, kern.weights, kern.shape[0], bias))))
  }

  /** An image whose last axis is not 3 is refused before the kernel is looked at. */
  lemma ImageCheckedFirst(img: Image, kern: KernelArray, bias: real)
    requires img.depth != ColorDepth
    ensures Convolution(img, kern, bias) == Failure(ValueError(RgbMessage))
  {
  }

  /**
   * The kernel is refused exactly when it is not float32, not 2-D, not
   * square, of even size or of size at most one.
   */
  lemma KernelCheck(img: Image, kern: KernelArray, bias: real)
    requires img.depth == ColorDepth
    ensures Convolution(img, kern, bias) == Failure(ValueError(KernelMessage)) <==>
      kern.dtype != Float32 || |kern.shape| != 2 ||
      (|kern.shape| == 2 && (kern.shape[0] != kern.shape[1] || kern.shape[0] % 2 == 0 || kern.shape[0] <= 1))
  {
  }

  /**
   * The size guard compares (N, N) with (h, w) as tuples: an N x N kernel
   * is refused when N > h, or when N == h and N > w.  So an image that is
   * narrower than the kernel but taller is accepted.
   */
  lemma SizeGuard(img: Image, kern: KernelArray, bias: real)
    requires img.depth == ColorDepth && !KernelRejected(kern)
    ensures var n := kern.shape[0];
      Convolution(img, kern, bias) == Failure(ValueError(SizeMessage)) <==>
      n > img.Height() || (n == img.Height() && n > img.Width())
  {
    LexGreaterPair(kern.shape[0], kern.shape[1], img.Height(), img.Width());
    assert kern.shape == [kern.shape[0], kern.shape[1]];
  }

  /** A 5 x 5 kernel is refused on a 3 x 3 image; a 3 x 3 kernel is accepted on a 4 x 2 image. */
  lemma SizeGuardExamples(img5: Image, img3: Image, k5: KernelArray, k3: KernelArray, bias: real)
    requires img5.Valid() && img5.depth == ColorDepth && img5.Height() == 3 && img5.Width() == 3
    requires img3.Valid() && img3.depth == ColorDepth && img3.Height() == 4 && img3.Width() == 2
    requires k5.Valid() && k5.dtype == Float32 && k5.shape == [5, 5]
    requires k3.Valid() && k3.dtype == Float32 && k3.shape == [3, 3]
    ensures Convolution(img5, k5, bias) == Failure(ValueError(SizeMessage))
    ensures Convolution(img3, k3, bias).Success?
  {
    SizeGuard(img5, k5, bias);
    SizeGuard(img3, k3, bias);
  }

  /**
   * After the checks, an image with no columns reaches np.pad, which cannot
   * extend the empty axis in 'edge' mode.
   */
  lemma EmptyWidthRejected(img: Image, kern: KernelArray, bias: real)
    requires img.depth == ColorDepth && !KernelRejected(kern) && img.Width() == 0
    requires kern.shape[0] < img.Height()
    ensures Convolution(img, kern, bias) == Failure(ValueError(EmptyAxisMessage))
  {
    SizeGuard(img, kern, bias);
  }

  /** The edge-padded image of an RGB image is a rectangle of 3-channel pixels. */
  lemma EdgePadRectangular(img: Image, r: nat, pw: nat)
    requires img.Valid() && img.depth == ColorDepth && 0 < img.Height() && 0 < img.Width()
    requires pw == img.Width() + 2 * r
    ensures Rectangular(EdgePad(img, r).grid.cells, pw)
  {
    var e := EdgePad(img, r);
    forall i | 0 <= i < |e.grid.cells|
      ensures |e.grid.cells[i]| == pw && Uniform(e.grid.cells[i], ColorDepth)
    {
    }
  }

  /** Weight (ky, kx) of an n x n kernel sits at n * ky + kx of its row-major copy. */
  lemma FlatKernelAt(weights: seq<seq<real>>, n: nat, ky: nat, kx: nat)
    requires Uniform(weights, n) && |weights| == n && ky < n && kx < n
    ensures KernelAt(Concat(weights), n, ky, kx) == Weight(weights, ky, kx)
  {
    ConcatAt(weights, n, ky, kx);
    var k := n * ky + kx;
    assert k == ky * n + kx;
    assert 0 <= k < |Concat(weights)|;
  }

  /**
   * Cell (y + ky, x + kx) lies inside rectangular padded rows pw pixels
   * long, and (ky, kx) inside an n x n kernel.
   */
  ghost predicate InWindow(cells: seq<seq<Pixel>>, pw: nat, weights: seq<seq<real>>, n: nat, y: nat, x: nat, ky: nat, kx: nat) {
    Rectangular(cells, pw) && y + ky < |cells| && x + kx < pw &&
    Uniform(weights, n) && |weights| == n && ky < n && kx < n
  }

  /**
   * Term (ky, kx) of a window of the native loop over a flat copy of the
   * padded rows: padded cell (y + ky, x + kx) times weight (ky, kx).
   */
  lemma FlatWindowTermAt(cells: seq<seq<Pixel>>, weights: seq<seq<real>>, pw: nat, n: nat,
                         y: nat, x: nat, c: nat, ky: nat, kx: nat)
    requires InWindow(cells, pw, weights, n, y, x, ky, kx) && c < ColorDepth
    ensures WindowTerm(Flatten(cells), Concat(weights), pw, n, y, x, c)(ky, kx)
         == Weigh(cells[y + ky][x + kx][c], Weight(weights, ky, kx))
  {
    FlattenAt(cells, pw, y + ky, x + kx, c);
    FlatKernelAt(weights, n, ky, kx);
  }

  /** Term (ky, kx) of a correlation window: the clamped source sample times weight (ky, kx). */
  lemma SampleTermAt(img: Image, weights: seq<seq<real>>, r: nat, y: nat, x: nat, c: nat, ky: nat, kx: nat)
    requires img.Valid() && 0 < img.Height() && 0 < img.Width() && c < img.depth
    ensures SampleTerm(img, weights, r, y, x, c)(ky, kx)
         == Weigh(img.grid.cells[BpImage.Clamp(y + ky - r, img.Height() - 1)][BpImage.Clamp(x + kx - r, img.Width() - 1)][c],
                  Weight(weights, ky, kx))
  {
  }

  /**
   * One term of a window: the padded byte the native loop reads times the
   * flat kernel weight is the clamped source sample times weight (ky, kx).
   */
  lemma WindowTermAt(img: Image, weights: seq<seq<real>>, n: nat, cells: seq<seq<Pixel>>,
                     y: nat, x: nat, c: nat, ky: nat, kx: nat)
    requires 0 < img.Width() && InWindow(cells, img.Width() + n - 1, weights, n, y, x, ky, kx) && c < ColorDepth
    requires cells[y + ky][x + kx][c]
          == img.Channel(BpImage.Clamp(y + ky - n / 2, img.Height() - 1), BpImage.Clamp(x + kx - n / 2, img.Width() - 1), c)
    ensures WindowTerm(Flatten(cells), Concat(weights), img.Width() + n - 1, n, y, x, c)(ky, kx)
         == SampleTerm(img, weights, n / 2, y, x, c)(ky, kx)
  {
    FlatWindowTermAt(cells, weights, img.Width() + n - 1, n, y, x, c, ky, kx);
  }

  /**
   * What the native loop needs of the padded rows: h + N - 1 rows of
   * w + N - 1 pixels of 3 channels, each the clamped source pixel.
   */
  ghost predicate PaddedFor(cells: seq<seq<Pixel>>, img: Image, n: nat)
    requires img.Valid() && 0 < img.Height() && 0 < img.Width()
  {
    |cells| == img.Height() + n - 1 && Rectangular(cells, img.Width() + n - 1) && EdgePadded(cells, img, n / 2)
  }

  /** The edge pad by N / 2 of an RGB image, N odd, is what the native loop needs. */
  lemma EdgePadPadsFor(img: Image, n: nat)
    requires img.Valid() && img.depth == ColorDepth && 0 < img.Height() && 0 < img.Width() && n % 2 == 1
    ensures PaddedFor(EdgePad(img, n / 2).grid.cells, img, n)
  {
    assert n - 1 == 2 * (n / 2);
    EdgePadRectangular(img, n / 2, img.Width() + n - 1);
    EdgePadClamped(img, n / 2);
  }

  /**
   * In rows padded for an N x N kernel, window cell (ky, kx) of output
   * pixel (y, x) lies inside the rows and the kernel, and holds the source
   * channel at the clamped (y + ky - N / 2, x + kx - N / 2).
   */
  lemma EdgeSample(img: Image, weights: seq<seq<real>>, n: nat, cells: seq<seq<Pixel>>,
                   y: nat, x: nat, c: nat, ky: nat, kx: nat)
    requires img.Valid() && img.depth == ColorDepth && 0 < img.Height() && 0 < img.Width()
    requires Uniform(weights, n) && |weights| == n && PaddedFor(cells, img, n)
    requires y < img.Height() && x < img.Width() && c < ColorDepth && ky < n && kx < n
    ensures InWindow(cells, img.Width() + n - 1, weights, n, y, x, ky, kx)
    ensures cells[y + ky][x + kx][c]
         == img.Channel(BpImage.Clamp(y + ky - n / 2, img.Height() - 1), BpImage.Clamp(x + kx - n / 2, img.Width() - 1), c)
  {
    assert cells[y + ky][x + kx]
        == img.grid.cells[BpImage.Clamp(y + ky - n / 2, img.Height() - 1)][BpImage.Clamp(x + kx - n / 2, img.Width() - 1)];
  }

  /** The windows of the native loop over the padded buffer are the clamped samples. */
  lemma WindowIsSample(img: Image, weights: seq<seq<real>>, n: nat, cells: seq<seq<Pixel>>, y: nat, x: nat, c: nat)
    requires img.Valid() && img.depth == ColorDepth && 0 < img.Height() && 0 < img.Width()
    requires Uniform(weights, n) && |weights| == n && PaddedFor(cells, img, n)
    requires y < img.Height() && x < img.Width() && c < ColorDepth
    ensures GridSum(WindowTerm(Flatten(cells), Concat(weights), img.Width() + n - 1, n, y, x, c), n, n)
         == GridSum(SampleTerm(img, weights, n / 2, y, x, c), n, n)
  {
    var f := WindowTerm(Flatten(cells), Concat(weights), img.Width() + n - 1, n, y, x, c);
    var g := SampleTerm(img, weights, n / 2, y, x, c);
    forall ky: nat, kx: nat | ky < n && kx < n
      ensures f(ky, kx) == g(ky, kx)
    {
      EdgeSample(img, weights, n, cells, y, x, c, ky, kx);
      WindowTermAt(img, weights, n, cells, y, x, c, ky, kx);
    }
    GridSumExt(f, g, n, n);
  }

  /** The pixels the native loop computes are the correlated pixels. */
  lemma OutputIsCorrelation(img: Image, weights: seq<seq<real>>, n: nat, bias: real, cells: seq<seq<Pixel>>)
    requires img.Valid() && img.depth == ColorDepth && 0 < img.Height() && 0 < img.Width()
    requires Uniform(weights, n) && |weights| == n && PaddedFor(cells, img, n) && 1 <= n
    ensures OutputCells(Flatten(cells), Concat(weights), bias, img.Height(), img.Width(), n, n)
         == CorrelateCells(img, weights, n, bias)
  {
    var out := OutputCells(Flatten(cells), Concat(weights), bias, img.Height(), img.Width(), n, n);
    var want := CorrelateCells(img, weights, n, bias);
    forall y | 0 <= y < img.Height()
      ensures out[y] == want[y]
    {
      forall x | 0 <= x < img.Width()
        ensures out[y][x] == want[y][x]
      {
        PixelIsCorrelated(img, weights, n, bias, cells, y, x);
      }
    }
  }

  /** One output pixel of the native loop is the correlated pixel. */
  lemma PixelIsCorrelated(img: Image, weights: seq<seq<real>>, n: nat, bias: real, cells: seq<seq<Pixel>>, y: nat, x: nat)
    requires img.Valid() && img.depth == ColorDepth && 0 < img.Height() && 0 < img.Width()
    requires Uniform(weights, n) && |weights| == n && PaddedFor(cells, img, n)
    requires y < img.Height() && x < img.Width()
    ensures OutputPixel(Flatten(cells), Concat(weights), bias, img.Width() + n - 1, n, n, y, x)
         == CorrelatePixel(img, weights, n, bias, y, x)
  {
    forall c | 0 <= c < ColorDepth
      ensures OutputChannel(Flatten(cells), Concat(weights), bias, img.Width() + n - 1, n, n, y, x, c)
           == CorrelateChannel(img, weights, n, bias, y, x, c)
    {
      WindowIsSample(img, weights, n, cells, y, x, c);
    }
  }

  /**
   * The buffer the native loop fills, viewed as an (h, w, 3) image, is the
   * convolution's result.
   */
  lemma ConvolveResult(img: Image, kern: KernelArray, bias: real, out: seq<Byte>)
    requires img.Valid() && kern.Valid() && img.depth == ColorDepth && !KernelRejected(kern)
    requires 0 < img.Height() && 0 < img.Width() && !LexGreater(kern.shape, [img.Height(), img.Width()])
    requires out == ConvolveOutput(Flatten(EdgePad(img, kern.shape[0] / 2).grid.cells), Concat(kern.weights), bias,
                                   img.Height(), img.Width(), kern.shape[0], kern.shape[0])
    ensures |out| == img.Height() * (img.Width() * ColorDepth)
    ensures Convolution(img, kern, bias) == Success(Image(ColorDepth, Grid(img.Height(), img.Width(), Unflatten(out, img.Height(), img.Width()))))
  {
    var n := kern.shape[0];
    var cells := EdgePad(img, n / 2).grid.cells;
    EdgePadPadsFor(img, n);
    var rows := OutputCells(Flatten(cells), Concat(kern.weights), bias, img.Height(), img.Width(), n, n);
    UnflattenFlatten(rows, img.Width());
    OutputIsCorrelation(img, kern.weights, n, bias, cells);
  }

  /**
   * np.ascontiguousarray(np.pad(img, ((krad, krad), (krad, krad), (0, 0)), 'edge')):
   * a fresh row-major buffer of the image padded by n / 2 on every side.
   */
  method PadContiguous(img: Image, n: nat) returns (a: array<Byte>)
    requires img.Valid() && img.depth == ColorDepth && 0 < img.Height() && 0 < img.Width() && n % 2 == 1
    ensures fresh(a) && a[..] == Flatten(EdgePad(img, n / 2).grid.cells)
    ensures a.Length == (img.Height() + n - 1) * ((img.Width() + n - 1) * ColorDepth)
  {
    EdgePadPadsFor(img, n);
    FlattenLength(EdgePad(img, n / 2).grid.cells, img.Width() + n - 1);
    a := ContiguousCopy(Flatten(EdgePad(img, n / 2).grid.cells));
  }

  /** A fresh buffer holding the elements of s in order, as numpy hands it to C. */
  method ContiguousCopy<T>(s: seq<T>) returns (a: array<T>)
    ensures fresh(a) && a[..] == s
  {
    a := new T[|s|](i requires 0 <= i < |s| => s[i]);
  }

  /**
   * _convolve: the checks, np.pad in 'edge' mode, np.ascontiguousarray,
   * np.empty for the destination, and the call into convolve.c.  What it
   * returns is the edge-clamped correlation of the image with the kernel.
   */
  method ConvolveImage(img: Image, kern: KernelArray, bias: real) returns (res: Result<Image>)
    requires img.Valid() && kern.Valid()
    ensures res == Convolution(img, kern, bias)
  {
    if img.depth != ColorDepth {
      return Failure(ValueError(RgbMessage));
    }
    if KernelRejected(kern) {
      return Failure(ValueError(KernelMessage));
    }
    if LexGreater(kern.shape, [img.Height(), img.Width()]) {
      return Failure(ValueError(SizeMessage));
    }
    if img.Width() == 0 {
      return Failure(ValueError(EmptyAxisMessage));
    }
    res := PadAndConvolve(img, kern, bias);
  }

  /**
   * The part of _convolve after its checks: pad by krad = N // 2 pixels on
   * every side, allocate the destination, run the native loop and read the
   * destination back as an (h, w, 3) image.
   */
  method PadAndConvolve(img: Image, kern: KernelArray, bias: real) returns (res: Result<Image>)
    requires img.Valid() && kern.Valid() && img.depth == ColorDepth && !KernelRejected(kern)
    requires !LexGreater(kern.shape, [img.Height(), img.Width()]) && 0 < img.Width()
    ensures res == Convolution(img, kern, bias)
  {
    var n := kern.shape[0];
    LexGreaterPair(n, kern.shape[1], img.Height(), img.Width());
    assert kern.shape == [n, kern.shape[1]];
    var imgPadded := PadContiguous(img, n);
    var kernArr := ContiguousCopy(Concat(kern.weights));
    ConcatLength(kern.weights, n);
    MulMonotone(0, img.Height(), img.Width() * ColorDepth);
    var dest := new Byte[img.Height() * (img.Width() * ColorDepth)];
    Convolve(imgPadded, kernArr, dest, bias, img.Height(), img.Width(), n, n);
    ConvolveResult(img, kern, bias, dest[..]);
    res := Success(Image(ColorDepth, Grid(img.Height(), img.Width(), Unflatten(dest[..], img.Height(), img.Width()))));
  }

  /**
   * A successful convolution had an RGB image with a non-empty height and
   * width, and its pixels are the correlation.
   */
  lemma SuccessIsCorrelation(img: Image, kern: KernelArray, bias: real)
    requires img.Valid() && kern.Valid() && Convolution(img, kern, bias).Success?
    ensures img.depth == ColorDepth && 0 < img.Height() && 0 < img.Width() && |kern.shape| == 2
    ensures Convolution(img, kern, bias).value ==
      Image(ColorDepth, Grid(img.Height(), img.Width(), CorrelateCells(img, kern.weights, kern.shape[0], bias)))
  {
    LexGreaterPair(kern.shape[0], kern.shape[1], img.Height(), img.Width());
    assert kern.shape == [kern.shape[0], kern.shape[1]];
  }

  /**
   * A successful convolution had an accepted N x N kernel, N odd, greater
   * than one and no greater than the image's height.
   */
  lemma SuccessKernel(img: Image, kern: KernelArray, bias: real)
    requires img.Valid() && kern.Valid() && Convolution(img, kern, bias).Success?
    ensures |kern.shape| == 2 && kern.shape[0] == kern.shape[1] && kern.shape[0] % 2 == 1 && 1 < kern.shape[0]
    ensures kern.shape[0] <= img.Height()
    ensures Square(kern.weights, kern.shape[0])
  {
    LexGreaterPair(kern.shape[0], kern.shape[1], img.Height(), img.Width());
    assert kern.shape == [kern.shape[0], kern.shape[1]];
  }

  /** The kernel that is 1 at its centre (r, r) and 0 elsewhere. */
  ghost predicate CentreImpulse(weights: seq<seq<real>>, n: nat) {
    forall i: nat, j: nat :: i < n && j < n ==> Weight(weights, i, j) == if i == n / 2 && j == n / 2 then 1.0 else 0.0
  }

  /** Away from the centre of an impulse kernel, every window term is zero. */
  lemma ImpulseTermsVanish(img: Image, weights: seq<seq<real>>, n: nat, y: nat, x: nat, c: nat)
    requires img.Valid() && 0 < img.Height() && 0 < img.Width() && c < img.depth && CentreImpulse(weights, n)
    ensures forall ky: nat, kx: nat :: ky < n && kx < n && (ky, kx) != (n / 2, n / 2) ==>
      SampleTerm(img, weights, n / 2, y, x, c)(ky, kx) == 0.0
  {
    forall ky: nat, kx: nat | ky < n && kx < n && (ky, kx) != (n / 2, n / 2)
      ensures SampleTerm(img, weights, n / 2, y, x, c)(ky, kx) == 0.0
    {
      SampleTermAt(img, weights, n / 2, y, x, c, ky, kx);
    }
  }

  /**
   * With a kernel that is 1 at its centre and 0 elsewhere and no bias, an
   * output channel is the input channel at the same position.
   */
  lemma IdentityChannel(img: Image, weights: seq<seq<real>>, n: nat, y: nat, x: nat, c: nat)
    requires img.Valid() && y < img.Height() && x < img.Width() && c < img.depth && 1 <= n
    requires CentreImpulse(weights, n)
    ensures CorrelateChannel(img, weights, n, 0.0, y, x, c) == img.grid.cells[y][x][c]
  {
    ImpulseTermsVanish(img, weights, n, y, x, c);
    GridSumSingle(SampleTerm(img, weights, n / 2, y, x, c), n / 2, n / 2, n, n);
    SampleTermAt(img, weights, n / 2, y, x, c, n / 2, n / 2);
    ToByteOfByte(img.grid.cells[y][x][c]);
  }

  /**
   * A kernel that is 1 at its centre and 0 elsewhere, with no bias, gives
   * back the image whenever the convolution succeeds.
   */
  lemma IdentityKernel(img: Image, kern: KernelArray)
    requires img.Valid() && kern.Valid() && Convolution(img, kern, 0.0).Success?
    requires forall i, j :: 0 <= i < |kern.weights| && 0 <= j < |kern.weights[i]| ==>
      kern.weights[i][j] == if i == |kern.weights| / 2 && j == |kern.weights| / 2 then 1.0 else 0.0
    ensures Convolution(img, kern, 0.0).value == img
  {
    SuccessIsCorrelation(img, kern, 0.0);
    SuccessKernel(img, kern, 0.0);
    var cells := CorrelateCells(img, kern.weights, kern.shape[0], 0.0);
    assert CentreImpulse(kern.weights, kern.shape[0]);
    forall y, x | 0 <= y < img.Height() && 0 <= x < img.Width()
      ensures cells[y][x] == img.grid.cells[y][x]
    {
      IdentityChannel(img, kern.weights, kern.shape[0], y, x, 0);
      IdentityChannel(img, kern.weights, kern.shape[0], y, x, 1);
      IdentityChannel(img, kern.weights, kern.shape[0], y, x, 2);
    }
    forall y | 0 <= y < img.Height()
      ensures cells[y] == img.grid.cells[y]
    {
    }
  }

  /** Every channel of every pixel of the image is v. */
  ghost predicate Flat(img: Image, v: Byte)
    requires img.Valid()
  {
    forall i, j, c :: 0 <= i < img.Height() && 0 <= j < img.Width() && 0 <= c < img.depth ==>
      img.grid.cells[i][j][c] == v
  }

  /** On a flat image every window term is v times its weight. */
  lemma FlatSample(img: Image, weights: seq<seq<real>>, r: nat, v: Byte, y: nat, x: nat, c: nat, ky: nat, kx: nat)
    requires img.Valid() && 0 < img.Height() && 0 < img.Width() && c < img.depth && Flat(img, v)
    ensures SampleTerm(img, weights, r, y, x, c)(ky, kx) == v as real * KernelTerm(weights)(ky, kx)
  {
    SampleTermAt(img, weights, r, y, x, c, ky, kx);
  }

  /**
   * On an image whose every channel is v, an output channel is v times the
   * kernel's sum plus the bias, clamped and truncated.
   */
  lemma UniformChannel(img: Image, weights: seq<seq<real>>, n: nat, bias: real, v: Byte, y: nat, x: nat, c: nat)
    requires img.Valid() && 0 < img.Height() && 0 < img.Width() && c < img.depth && Flat(img, v)
    ensures CorrelateChannel(img, weights, n, bias, y, x, c) == ToByte(Weigh(v, KernelSum(weights, n)) + bias)
  {
    FlatTerms(img, weights, n, v, y, x, c);
    ScaledWindowSum(SampleTerm(img, weights, n / 2, y, x, c), weights, n, v);
  }

  /** A window whose every term is v times its weight sums to v times the kernel's sum. */
  lemma ScaledWindowSum(terms: (nat, nat) -> real, weights: seq<seq<real>>, n: nat, v: Byte)
    requires forall ky: nat, kx: nat :: ky < n && kx < n ==> terms(ky, kx) == v as real * KernelTerm(weights)(ky, kx)
    ensures GridSum(terms, n, n) == Weigh(v, KernelSum(weights, n))
  {
    GridSumScale(KernelTerm(weights), terms, v as real, n, n);
  }

  /** On a flat image every term of the window is v times its weight. */
  lemma FlatTerms(img: Image, weights: seq<seq<real>>, n: nat, v: Byte, y: nat, x: nat, c: nat)
    requires img.Valid() && 0 < img.Height() && 0 < img.Width() && c < img.depth && Flat(img, v)
    ensures forall ky: nat, kx: nat :: ky < n && kx < n ==>
      SampleTerm(img, weights, n / 2, y, x, c)(ky, kx) == v as real * KernelTerm(weights)(ky, kx)
  {
    forall ky: nat, kx: nat | ky < n && kx < n
      ensures SampleTerm(img, weights, n / 2, y, x, c)(ky, kx) == v as real * KernelTerm(weights)(ky, kx)
    {
      FlatSample(img, weights, n / 2, v, y, x, c, ky, kx);
    }
  }

  /** On a flat image all three channels of an output pixel agree. */
  lemma UniformPixel(img: Image, weights: seq<seq<real>>, n: nat, bias: real, v: Byte, y: nat, x: nat)
    requires img.Valid() && 0 < img.Height() && 0 < img.Width() && img.depth == ColorDepth && Flat(img, v)
    ensures CorrelatePixel(img, weights, n, bias, y, x) == Replicate(ToByte(Weigh(v, KernelSum(weights, n)) + bias), ColorDepth)
  {
    UniformChannel(img, weights, n, bias, v, y, x, 0);
    UniformChannel(img, weights, n, bias, v, y, x, 1);
    UniformChannel(img, weights, n, bias, v, y, x, 2);
  }

  /** The correlation of a flat image is flat. */
  lemma UniformCells(img: Image, weights: seq<seq<real>>, n: nat, bias: real, v: Byte)
    requires img.Valid() && 0 < img.Height() && 0 < img.Width() && img.depth == ColorDepth && Flat(img, v)
    ensures Flat(Image(ColorDepth, Grid(img.Height(), img.Width(), CorrelateCells(img, weights, n, bias))),
                 ToByte(Weigh(v, KernelSum(weights, n)) + bias))
  {
    forall y, x | 0 <= y < img.Height() && 0 <= x < img.Width()
      ensures CorrelateCells(img, weights, n, bias)[y][x] == Replicate(ToByte(Weigh(v, KernelSum(weights, n)) + bias), ColorDepth)
    {
      CorrelateCellsAt(img, weights, n, bias, y, x);
      UniformPixel(img, weights, n, bias, v, y, x);
    }
  }

  /**
   * A convolution of an image whose every channel is v gives an image whose
   * every channel is v times the kernel's sum plus the bias, clamped and
   * truncated.
   */
  lemma UniformImage(img: Image, kern: KernelArray, bias: real, v: Byte, out: Image)
    requires img.Valid() && kern.Valid() && Convolution(img, kern, bias) == Success(out)
    requires Flat(img, v)
    ensures Flat(out, ToByte(Weigh(v, KernelSum(kern.weights, kern.shape[0])) + bias))
  {
    SuccessIsCorrelation(img, kern, bias);
    UniformCells(img, kern.weights, kern.shape[0], bias, v);
  }

  // ---------------------------------------------------------------------
  // Kernels

  /** Every cell of an n x n kernel. */
  ghost predicate Square(weights: seq<seq<real>>, n: nat) {
    |weights| == n && forall i :: 0 <= i < n ==> |weights[i]| == n
  }

  /** The edge length of the kernel of a given radius. */
  function KernelSize(radius: nat): nat { radius * 2 + 1 }

  /** boxblur: every weight of the (2r + 1)-square kernel is 1 / size^2. */
  function BoxWeights(radius: nat): seq<seq<real>> {
    var size := KernelSize(radius);
    seq(size, _ => seq(size, _ => 1.0 / (size * size) as real))
  }

  function BoxKernel(radius: nat): KernelArray {
    KernelArray(Float32, [KernelSize(radius), KernelSize(radius)], BoxWeights(radius))
  }

  /** The box kernel of radius r is (2r + 1)-square with every weight 1 / (2r + 1)^2. */
  lemma BoxKernelLayout(radius: nat)
    ensures BoxKernel(radius).shape == [2 * radius + 1, 2 * radius + 1]
    ensures Square(BoxWeights(radius), 2 * radius + 1)
    ensures forall i, j :: 0 <= i < 2 * radius + 1 && 0 <= j < 2 * radius + 1 ==>
      BoxWeights(radius)[i][j] == 1.0 / (KernelSize(radius) * KernelSize(radius)) as real
  {
  }

  /** The box kernel is an accepted (2r + 1)-square kernel whose weights sum to 1. */
  lemma BoxKernelSum(radius: nat)
    requires 1 <= radius
    ensures BoxKernel(radius).Valid() && !KernelRejected(BoxKernel(radius))
    ensures KernelSum(BoxWeights(radius), KernelSize(radius)) == 1.0
  {
    var size := KernelSize(radius);
    var v := 1.0 / (size * size) as real;
    GridSumConst(KernelTerm(BoxWeights(radius)), v, size, size);
  }

  /**
   * The values exp(-x^2 / (2 sig^2)) of gaussian_blur along one axis, for x
   * from -r to r: none is negative, and the centre one, exp(0), is 1.
   */
  ghost predicate GaussianProfile(profile: seq<real>) {
    |profile| % 2 == 1 &&
    (forall k :: 0 <= k < |profile| ==> profile[k] >= 0.0) &&
    profile[|profile| / 2] == 1.0
  }

  /** np.outer(gauss, gauss). */
  function Outer(profile: seq<real>): (o: seq<seq<real>>)
    ensures Square(o, |profile|)
  {
    seq(|profile|, i requires 0 <= i < |profile| => seq(|profile|, j requires 0 <= j < |profile| => profile[i] * profile[j]))
  }

  /** np.sum of the outer product: at least its centre term 1 * 1. */
  lemma OuterSumPositive(profile: seq<real>)
    requires GaussianProfile(profile)
    ensures KernelSum(Outer(profile), |profile|) >= 1.0
  {
    forall a: nat, b: nat | a < |profile| && b < |profile|
      ensures KernelTerm(Outer(profile))(a, b) >= 0.0
    {
      MulNonNegative(profile[a], profile[b]);
    }
    GridSumAtLeast(KernelTerm(Outer(profile)), |profile| / 2, |profile| / 2, |profile|, |profile|);
  }

  /** gaussian_blur: the outer product of the profile with itself, divided by its sum. */
  function GaussianWeights(profile: seq<real>): (g: seq<seq<real>>)
    requires GaussianProfile(profile)
    ensures Square(g, |profile|)
  {
    OuterSumPositive(profile);
    seq(|profile|, i requires 0 <= i < |profile| => seq(|profile|, j requires 0 <= j < |profile| =>
      Outer(profile)[i][j] / KernelSum(Outer(profile), |profile|)))
  }

  function GaussianKernel(profile: seq<real>): KernelArray
    requires GaussianProfile(profile)
  {
    KernelArray(Float32, [|profile|, |profile|], GaussianWeights(profile))
  }

  /** Weight (i, j) of the Gaussian kernel: the outer product's term over the outer product's sum. */
  lemma GaussianWeightAt(profile: seq<real>, i: nat, j: nat)
    requires GaussianProfile(profile) && i < |profile| && j < |profile|
    ensures KernelSum(Outer(profile), |profile|) >= 1.0
    ensures KernelTerm(GaussianWeights(profile))(i, j) ==
      (1.0 / KernelSum(Outer(profile), |profile|)) * (profile[i] * profile[j])
  {
    OuterSumPositive(profile);
    assert Outer(profile)[i][j] == profile[i] * profile[j];
    assert GaussianWeights(profile)[i][j] == Outer(profile)[i][j] / KernelSum(Outer(profile), |profile|);
  }

  /** The Gaussian kernel is symmetric about its diagonal. */
  lemma GaussianSymmetric(profile: seq<real>, i: nat, j: nat)
    requires GaussianProfile(profile) && i < |profile| && j < |profile|
    ensures GaussianWeights(profile)[i][j] == GaussianWeights(profile)[j][i]
  {
    GaussianWeightAt(profile, i, j);
    GaussianWeightAt(profile, j, i);
    assert profile[i] * profile[j] == profile[j] * profile[i];
  }

  /**
   * A Gaussian kernel of radius r is an accepted (2r + 1)-square kernel
   * whose weights sum to 1.
   */
  lemma GaussianKernelSum(radius: nat, profile: seq<real>)
    requires 1 <= radius && |profile| == KernelSize(radius) && GaussianProfile(profile)
    ensures GaussianKernel(profile).Valid() && !KernelRejected(GaussianKernel(profile))
    ensures GaussianKernel(profile).shape == [2 * radius + 1, 2 * radius + 1]
    ensures KernelSum(GaussianWeights(profile), |profile|) == 1.0
  {
    OuterSumPositive(profile);
    forall a: nat, b: nat | a < |profile| && b < |profile|
      ensures KernelTerm(GaussianWeights(profile))(a, b) ==
        (1.0 / KernelSum(Outer(profile), |profile|)) * KernelTerm(Outer(profile))(a, b)
    {
      GaussianWeightAt(profile, a, b);
    }
    GridSumScale(KernelTerm(Outer(profile)), KernelTerm(GaussianWeights(profile)),
                 1.0 / KernelSum(Outer(profile), |profile|), |profile|, |profile|);
    assert (1.0 / KernelSum(Outer(profile), |profile|)) * KernelSum(Outer(profile), |profile|) == 1.0;
  }

  /** The two 3 x 3 patterns sharpen combines: the unit impulse and the plus-shaped average. */
  const UnitPattern: seq<seq<real>> := [[0.0, 0.0, 0.0], [0.0, 1.0, 0.0], [0.0, 0.0, 0.0]]
  const CrossPattern: seq<seq<real>> := [[0.0, 1.0, 0.0], [1.0, 1.0, 1.0], [0.0, 1.0, 0.0]]

  /** sharpen: a + (a - b) * strength with a the unit impulse and b the cross divided by 5. */
  function SharpenWeights(strength: real): seq<seq<real>> {
    seq(3, i requires 0 <= i < 3 => seq(3, j requires 0 <= j < 3 =>
      UnitPattern[i][j] + (UnitPattern[i][j] - CrossPattern[i][j] / 5.0) * strength))
  }

  function SharpenKernel(strength: real): KernelArray {
    KernelArray(Float32, [3, 3], SharpenWeights(strength))
  }

  /**
   * The sharpen kernel sums to 1 for every strength; its centre is
   * 1 + 4s/5, its four neighbours -s/5 and its corners 0.
   */
  lemma SharpenKernelSum(s: real)
    ensures SharpenKernel(s).Valid() && !KernelRejected(SharpenKernel(s))
    ensures KernelSum(SharpenWeights(s), 3) == 1.0
    ensures SharpenWeights(s)[1][1] == 1.0 + 4.0 * s / 5.0
    ensures SharpenWeights(s)[0][1] == SharpenWeights(s)[1][0] == SharpenWeights(s)[1][2] == SharpenWeights(s)[2][1] == -s / 5.0
    ensures SharpenWeights(s)[0][0] == SharpenWeights(s)[0][2] == SharpenWeights(s)[2][0] == SharpenWeights(s)[2][2] == 0.0
  {
    GridSum3(KernelTerm(SharpenWeights(s)));
  }

  /**
   * At sharpen's default strength of 5 the kernel is the classic 3 x 3
   * sharpen: 5 at the centre, -1 at the four edge neighbours, 0 at the
   * corners.
   */
  lemma SharpenDefaultKernel()
    ensures SharpenWeights(5.0) == [[0.0, -1.0, 0.0], [-1.0, 5.0, -1.0], [0.0, -1.0, 0.0]]
  {
    var w := SharpenWeights(5.0);
    SharpenKernelSum(5.0);
    assert w[0] == [0.0, -1.0, 0.0];
    assert w[1] == [-1.0, 5.0, -1.0];
    assert w[2] == [0.0, -1.0, 0.0];
  }

  /** outline: the 3 x 3 edge detector, 8 at the centre and -1 around it. */
  const OutlineWeights: seq<seq<real>> := [[-1.0, -1.0, -1.0], [-1.0, 8.0, -1.0], [-1.0, -1.0, -1.0]]

  /** The outline kernel is accepted and sums to 0, so flat areas become black. */
  lemma OutlineKernelSum()
    ensures KernelArray(Float32, [3, 3], OutlineWeights).Valid()
    ensures !KernelRejected(KernelArray(Float32, [3, 3], OutlineWeights))
    ensures KernelSum(OutlineWeights, 3) == 0.0
  {
    GridSum3(KernelTerm(OutlineWeights));
  }

  /** emboss: a 3 x 3 kernel used with bias 128. */
  const EmbossWeights: seq<seq<real>> := [[1.0, 1.0, 0.0], [1.0, 0.0, -1.0], [0.0, -1.0, -1.0]]
  const EmbossBias: real := 128.0

  /** The emboss kernel is accepted and sums to 0, so flat areas become mid-grey. */
  lemma EmbossKernelSum()
    ensures KernelArray(Float32, [3, 3], EmbossWeights).Valid()
    ensures !KernelRejected(KernelArray(Float32, [3, 3], EmbossWeights))
    ensures KernelSum(EmbossWeights, 3) == 0.0
  {
    GridSum3(KernelTerm(EmbossWeights));
  }

  /** smooth: a 5 x 5 pattern divided by 100. */
  const SmoothPattern: seq<seq<real>> := [
    [1.0, 1.0, 1.0, 1.0, 1.0],
    [1.0, 5.0, 5.0, 5.0, 1.0],
    [1.0, 5.0, 44.0, 5.0, 1.0],
    [1.0, 5.0, 5.0, 5.0, 1.0],
    [1.0, 1.0, 1.0, 1.0, 1.0]]

  function SmoothWeights(): seq<seq<real>> {
    seq(5, i requires 0 <= i < 5 => seq(5, j requires 0 <= j < 5 => SmoothPattern[i][j] / 100.0))
  }

  /** The smooth kernel is accepted and sums to 1. */
  lemma SmoothKernelSum()
    ensures KernelArray(Float32, [5, 5], SmoothWeights()).Valid()
    ensures !KernelRejected(KernelArray(Float32, [5, 5], SmoothWeights()))
    ensures KernelSum(SmoothWeights(), 5) == 1.0
  {
    GridSum5(KernelTerm(SmoothWeights()));
  }

  /** motion_blur: the kernel size. */
  const MotionSize: nat := 9

  /** An n x n kernel that is w on the anti-diagonal and 0 elsewhere. */
  function AntiDiagonal(n: nat, w: real): (k: seq<seq<real>>)
    ensures Square(k, n)
  {
    seq(n, i requires 0 <= i < n => seq(n, j requires 0 <= j < n => if j == n - 1 - i then w else 0.0))
  }

  /** The n weights w of an anti-diagonal kernel sum to n * w. */
  lemma AntiDiagonalSum(n: nat, w: real)
    ensures KernelSum(AntiDiagonal(n, w), n) == n as real * w
  {
    forall a: nat | a < n
      ensures RowSum(KernelTerm(AntiDiagonal(n, w)), a, n) == w
    {
      RowSumSingle(KernelTerm(AntiDiagonal(n, w)), a, n - 1 - a, n);
    }
    GridSumOfRows(KernelTerm(AntiDiagonal(n, w)), w, n, n);
  }

  /** The motion blur kernel as values: 1/9 on the anti-diagonal, 0 elsewhere. */
  function MotionWeights(): seq<seq<real>> {
    AntiDiagonal(MotionSize, 1.0 / MotionSize as real)
  }

  /**
   * np.zeros((9, 9)) followed by np.fill_diagonal(np.fliplr(kern), 1/9):
   * the diagonal of the left-right flipped view is the anti-diagonal.
   */
  method MotionBlurKernel() returns (k: array2<real>)
    ensures fresh(k) && k.Length0 == MotionSize && k.Length1 == MotionSize
    ensures forall i, j :: 0 <= i < MotionSize && 0 <= j < MotionSize ==> k[i, j] == MotionWeights()[i][j]
  {
    k := new real[MotionSize, MotionSize]((i, j) => 0.0);
    for i := 0 to MotionSize
      invariant forall a, b :: 0 <= a < MotionSize && 0 <= b < MotionSize ==>
        k[a, b] == if a < i && b == MotionSize - 1 - a then 1.0 / MotionSize as real else 0.0
    {
      k[i, MotionSize - 1 - i] := 1.0 / MotionSize as real;
    }
  }

  /** The motion blur kernel is 9 x 9 with 1/9 exactly at [i][8 - i] and 0 elsewhere. */
  lemma MotionKernelLayout()
    ensures Square(MotionWeights(), 9)
    ensures forall i, j :: 0 <= i < 9 && 0 <= j < 9 ==>
      MotionWeights()[i][j] == if j == 8 - i then 1.0 / 9.0 else 0.0
  {
  }

  /**
   * The motion blur kernel is accepted, and its weights, nine times 1/9,
   * sum to 1.
   */
  lemma MotionKernelSum()
    ensures KernelArray(Float32, [MotionSize, MotionSize], MotionWeights()).Valid()
    ensures !KernelRejected(KernelArray(Float32, [MotionSize, MotionSize], MotionWeights()))
    ensures KernelSum(MotionWeights(), MotionSize) == 1.0
  {
    AntiDiagonalSum(MotionSize, 1.0 / MotionSize as real);
    assert MotionSize as real == 9.0;
    assert 9.0 * (1.0 / 9.0) == 1.0;
  }

  // ---------------------------------------------------------------------
  // The filters

  /** boxblur: a radius below 1 returns the image itself. */
  method BoxBlur(img: Image, radius: int := 1) returns (res: Result<Image>)
    requires img.Valid()
    ensures radius < 1 ==> res == Success(img)
    ensures radius >= 1 ==> res == Convolution(img, BoxKernel(radius), 0.0)
  {
    if radius < 1 {
      return Success(img);
    }
    res := ConvolveImage(img, BoxKernel(radius), 0.0);
  }

  /**
   * gaussian_blur: a radius below 1 returns the image itself; otherwise the
   * profile holds the 2r + 1 values exp(-x^2 / (2 sig^2)) along one axis.
   */
  method GaussianBlur(img: Image, radius: int := 1, profile: seq<real>) returns (res: Result<Image>)
    requires img.Valid()
    requires radius >= 1 ==> |profile| == KernelSize(radius) && GaussianProfile(profile)
    ensures radius < 1 ==> res == Success(img)
    ensures radius >= 1 ==> res == Convolution(img, GaussianKernel(profile), 0.0)
  {
    if radius < 1 {
      return Success(img);
    }
    res := ConvolveImage(img, GaussianKernel(profile), 0.0);
  }

  /** outline: the edge-detection kernel, no bias. */
  method Outline(img: Image) returns (res: Result<Image>)
    requires img.Valid()
    ensures res == Convolution(img, KernelArray(Float32, [3, 3], OutlineWeights), 0.0)
  {
    res := ConvolveImage(img, KernelArray(Float32, [3, 3], OutlineWeights), 0.0);
  }

  /** sharpen: a negative strength raises ValueError before any work. */
  method Sharpen(img: Image, strength: real := 5.0) returns (res: Result<Image>)
    requires img.Valid()
    ensures strength < 0.0 ==> res == Failure(ValueError("Strength must be positive."))
    ensures strength >= 0.0 ==> res == Convolution(img, SharpenKernel(strength), 0.0)
  {
    if strength < 0.0 {
      return Failure(ValueError("Strength must be positive."));
    }
    res := ConvolveImage(img, SharpenKernel(strength), 0.0);
  }

  /** emboss: the emboss kernel with bias 128. */
  method Emboss(img: Image) returns (res: Result<Image>)
    requires img.Valid()
    ensures res == Convolution(img, KernelArray(Float32, [3, 3], EmbossWeights), EmbossBias)
  {
    res := ConvolveImage(img, KernelArray(Float32, [3, 3], EmbossWeights), EmbossBias);
  }

  /** motion_blur: the anti-diagonal 9 x 9 kernel, built in place. */
  method MotionBlur(img: Image) returns (res: Result<Image>)
    requires img.Valid()
    ensures res == Convolution(img, KernelArray(Float32, [MotionSize, MotionSize], MotionWeights()), 0.0)
  {
    var k := MotionBlurKernel();
    var weights := seq(MotionSize, i requires 0 <= i < MotionSize reads k =>
      seq(MotionSize, j requires 0 <= j < MotionSize reads k => k[i, j]));
    forall i | 0 <= i < MotionSize
      ensures weights[i] == MotionWeights()[i]
    {
    }
    assert weights == MotionWeights();
    res := ConvolveImage(img, KernelArray(Float32, [MotionSize, MotionSize], weights), 0.0);
  }

  /** smooth: the 5 x 5 smoothing kernel, no bias. */
  method Smooth(img: Image) returns (res: Result<Image>)
    requires img.Valid()
    ensures res == Convolution(img, KernelArray(Float32, [5, 5], SmoothWeights()), 0.0)
  {
    res := ConvolveImage(img, KernelArray(Float32, [5, 5], SmoothWeights()), 0.0);
  }

  /** Box blurring keeps a flat image flat. */
  lemma BoxBlurFlat(img: Image, v: Byte, radius: nat, out: Image)
    requires img.Valid() && 1 <= radius && Convolution(img, BoxKernel(radius), 0.0) == Success(out)
    requires Flat(img, v)
    ensures Flat(out, v)
  {
    BoxKernelSum(radius);
    ToByteOfByte(v);
    UniformImage(img, BoxKernel(radius), 0.0, v, out);
  }

  /** Smoothing keeps a flat image flat. */
  lemma SmoothFlat(img: Image, v: Byte, out: Image)
    requires img.Valid() && Convolution(img, KernelArray(Float32, [5, 5], SmoothWeights()), 0.0) == Success(out)
    requires Flat(img, v)
    ensures Flat(out, v)
  {
    SmoothKernelSum();
    ToByteOfByte(v);
    UniformImage(img, KernelArray(Float32, [5, 5], SmoothWeights()), 0.0, v, out);
  }

  /** Outline turns a flat image black. */
  lemma OutlineFlat(img: Image, v: Byte, out: Image)
    requires img.Valid() && Convolution(img, KernelArray(Float32, [3, 3], OutlineWeights), 0.0) == Success(out)
    requires Flat(img, v)
    ensures Flat(out, 0)
  {
    OutlineKernelSum();
    UniformImage(img, KernelArray(Float32, [3, 3], OutlineWeights), 0.0, v, out);
    assert Weigh(v, KernelSum(OutlineWeights, 3)) + 0.0 == 0.0;
  }

  /** Emboss turns a flat image mid-grey. */
  lemma EmbossFlat(img: Image, v: Byte, out: Image)
    requires img.Valid() && Convolution(img, KernelArray(Float32, [3, 3], EmbossWeights), EmbossBias) == Success(out)
    requires Flat(img, v)
    ensures Flat(out, 128)
  {
    EmbossKernelSum();
    ToByteOfByte(128);
    UniformImage(img, KernelArray(Float32, [3, 3], EmbossWeights), EmbossBias, v, out);
  }

  /** Gaussian blurring keeps a flat image flat. */
  lemma GaussianBlurFlat(img: Image, v: Byte, radius: nat, profile: seq<real>, out: Image)
    requires img.Valid() && 1 <= radius && |profile| == KernelSize(radius) && GaussianProfile(profile)
    requires Convolution(img, GaussianKernel(profile), 0.0) == Success(out)
    requires Flat(img, v)
    ensures Flat(out, v)
  {
    GaussianKernelSum(radius, profile);
    ToByteOfByte(v);
    UniformImage(img, GaussianKernel(profile), 0.0, v, out);
  }

  /** Sharpening leaves a flat image unchanged, whatever the strength. */
  lemma SharpenFlat(img: Image, v: Byte, strength: real, out: Image)
    requires img.Valid() && Convolution(img, SharpenKernel(strength), 0.0) == Success(out)
    requires Flat(img, v)
    ensures Flat(out, v)
  {
    SharpenKernelSum(strength);
    ToByteOfByte(v);
    UniformImage(img, SharpenKernel(strength), 0.0, v, out);
  }

  /** Motion blurring keeps a flat image flat. */
  lemma MotionBlurFlat(img: Image, v: Byte, out: Image)
    requires img.Valid()
    requires Convolution(img, KernelArray(Float32, [MotionSize, MotionSize], MotionWeights()), 0.0) == Success(out)
    requires Flat(img, v)
    ensures Flat(out, v)
  {
    MotionKernelSum();
    ToByteOfByte(v);
    UniformImage(img, KernelArray(Float32, [MotionSize, MotionSize], MotionWeights()), 0.0, v, out);
  }
}
