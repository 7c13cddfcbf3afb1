/**
 * color.py: the grey-to-RGB expansion, the RGB guard of the greyscale
 * conversion, and the clip-then-truncate structure of sepia and brighten.
 * The two guards of this file hand the ValueError back as the function's
 * return value instead of raising it; Returned models that.
 */
module Color {
  import opened Images
  import opened Sums

  /**
   * The arrays color.py is given: a 2-D greyscale plane, a 3-D image, or
   * an array of some other number of dimensions whose contents the guards
   * never reach.
   */
  datatype NdArray =
    | Plane(plane: Grid<Byte>)
    | Cube(image: Image)
    | OtherArray(shape: seq<nat>)
  {
    ghost predicate Valid() {
      match this
      case Plane(g) => g.Valid()
      case Cube(img) => img.Valid()
      case OtherArray(shape) => |shape| != 2 && |shape| != 3
    }

    function Shape(): seq<nat> {
      match this
      case Plane(g) => [g.height, g.width]
      case Cube(img) => [img.Height(), img.Width(), img.depth]
      case OtherArray(shape) => shape
    }

    function NDim(): nat { |Shape()| }
  }

  /**
   * What a call of a color.py conversion does: it returns an array, it
   * returns an exception object as its value, it raises, or it goes on to
   * the luma product (which this model does not compute).
   */
  datatype Returned<T> =
    | Value(value: T)
    | ReturnsError(returned: Error)
    | Raises(raised: Error)
    | ComputesLuma

  const NotRgbMessage: string := "Image must be RGB."
  const NotGrayscaleMessage: string := "Image must be grayscale."

  /**
   * The guard of rgb2grayscale: `img.ndim != 3 and img.shape[-1] != 3`.
   * Python's `and` reads shape[-1] only when ndim != 3, and on a 0-d array
   * that index raises IndexError.
   */
  function Rgb2GrayscaleGuard(a: NdArray): (r: Returned<Grid<Byte>>)
    ensures !r.Value?
    ensures r.ReturnsError? ==> r.returned == ValueError(NotRgbMessage)
    ensures r.Raises? ==> a.NDim() == 0
  {
    if a.NDim() == 3 then ComputesLuma
    else if a.NDim() == 0 then Raises(IndexError("tuple index out of range"))
    else if a.Shape()[a.NDim() - 1] != 3 then ReturnsError(ValueError(NotRgbMessage))
    else ComputesLuma
  }

  /**
   * The guard rejects an array only when both halves of the `and` hold:
   * it is not 3-D and its last axis is not 3; the error comes back as a
   * value, never raised.  So an (h, w, 4) image and an (h, 3) plane get
   * through, while an (h, w) plane with w != 3 is refused.
   */
  lemma Rgb2GrayscaleGuardCases(a: NdArray)
    ensures Rgb2GrayscaleGuard(a).ReturnsError? <==>
      a.NDim() != 3 && a.NDim() > 0 && a.Shape()[a.NDim() - 1] != 3
    ensures Rgb2GrayscaleGuard(a).ReturnsError? ==> Rgb2GrayscaleGuard(a).returned == ValueError(NotRgbMessage)
    ensures Rgb2GrayscaleGuard(a).Raises? <==> a.NDim() == 0
    ensures Rgb2GrayscaleGuard(a).ComputesLuma? <==>
      a.NDim() == 3 || (a.NDim() > 0 && a.Shape()[a.NDim() - 1] == 3)
    ensures !Rgb2GrayscaleGuard(a).Value?
  {
  }

  /** Some arrays on either side of the guard. */
  lemma Rgb2GrayscaleGuardExamples(rgba: Image, narrow: Grid<Byte>, wide: Grid<Byte>)
    requires rgba.depth == 4 && narrow.width == 3 && wide.width == 5
    ensures Rgb2GrayscaleGuard(Cube(rgba)).ComputesLuma?
    ensures Rgb2GrayscaleGuard(Plane(narrow)).ComputesLuma?
    ensures Rgb2GrayscaleGuard(Plane(wide)) == ReturnsError(ValueError(NotRgbMessage))
  {
    Rgb2GrayscaleGuardCases(Cube(rgba));
    Rgb2GrayscaleGuardCases(Plane(narrow));
    Rgb2GrayscaleGuardCases(Plane(wide));
  }

  /**
   * grayscale2rgb: img[:, :, np.newaxis].repeat(3, axis=-1), every grey
   * value becomes a pixel of three equal channels; any array that is not
   * 2-D gets the ValueError back as the return value.
   */
  function Grayscale2Rgb(a: NdArray): (r: Returned<Image>)
    requires a.Valid()
    ensures r.Value? <==> a.Plane?
    ensures r.Value? ==> r.value.Valid() && r.value.depth == 3
  {
    match a
    case Plane(g) =>
      Value(Image(3, Grid(g.height, g.width,
        seq(g.height, i requires 0 <= i < g.height =>
          seq(g.width, j requires 0 <= j < g.width => Replicate(g.cells[i][j], 3))))))
    case _ => ReturnsError(ValueError(NotGrayscaleMessage))
  }

  /**
   * A 2-D plane of shape (h, w) becomes a valid (h, w, 3) image whose three
   * channels all hold the grey value; any other array is refused with a
   * returned (not raised) ValueError.
   */
  lemma Grayscale2RgbSpec(a: NdArray)
    requires a.Valid()
    ensures a.NDim() == 2 <==> Grayscale2Rgb(a).Value?
    ensures a.NDim() != 2 ==> Grayscale2Rgb(a) == ReturnsError(ValueError(NotGrayscaleMessage))
    ensures a.NDim() == 2 ==>
      var img := Grayscale2Rgb(a).value;
      img.Valid() && img.Desc().shape == a.Shape() + [3] &&
      forall i, j, c :: 0 <= i < img.Height() && 0 <= j < img.Width() && 0 <= c < 3 ==>
        img.grid.cells[i][j][c] == a.plane.cells[i][j]
  {
  }

  /**
   * The sepia matrix of color.py (rows: output red, green, blue; columns:
   * input red, green, blue).  The product is img @ transform.T, so output
   * channel k weighs input channel c by SepiaMatrix[k][c].
   */
  const SepiaMatrix: seq<seq<real>> := [
    [0.393, 0.769, 0.189],
    [0.349, 0.686, 0.168],
    [0.272, 0.534, 0.131]
  ]

  /** Output channel k of the sepia product for one RGB pixel, before the clip. */
  function SepiaTone(p: Pixel, k: nat): (t: real)
    requires |p| == 3 && k < 3
    ensures t >= 0.0
    ensures p[0] == p[1] == p[2] ==> t == p[0] as real * (SepiaMatrix[k][0] + SepiaMatrix[k][1] + SepiaMatrix[k][2])
  {
    SepiaMatrix[k][0] * p[0] as real + SepiaMatrix[k][1] * p[1] as real + SepiaMatrix[k][2] * p[2] as real
  }

  /**
   * sepia: the matrix product, clipped to [0, 255] and cast to uint8.  An
   * image whose last axis is not 3 does not match the 3 x 3 matrix, and the
   * product raises ValueError.
   */
  function Sepia(img: Image): (r: Result<Image>)
    requires img.Valid()
    ensures r.Success? <==> img.depth == 3
    ensures r.Success? ==> r.value.Valid() && r.value.Desc() == img.Desc()
  {
    if img.depth != 3 then Failure(ValueError("matmul: Input operand 1 has a mismatch in its core dimension 0"))
    else Success(Image(3, Grid(img.Height(), img.Width(),
      seq(img.Height(), i requires 0 <= i < img.Height() =>
        seq(img.Width(), j requires 0 <= j < img.Width() =>
          seq(3, k requires 0 <= k < 3 => ToByte(SepiaTone(img.grid.cells[i][j], k))))))))
  }

  /**
   * sepia keeps the shape of an RGB image, and each output channel is the
   * clipped, truncated tone: within one unit below the tone when the tone
   * lies in [0, 255], 255 when it is above, and 0 when it is negative.
   */
  lemma SepiaSpec(img: Image)
    requires img.Valid()
    ensures img.depth != 3 <==> Sepia(img).Failure?
    ensures img.depth == 3 ==>
      var out := Sepia(img).value;
      out.Valid() && out.Desc() == img.Desc() &&
      forall i, j, k :: 0 <= i < img.Height() && 0 <= j < img.Width() && 0 <= k < 3 ==>
        var tone := SepiaTone(img.grid.cells[i][j], k);
        (tone >= 255.0 ==> out.grid.cells[i][j][k] == 255) &&
        (tone < 0.0 ==> out.grid.cells[i][j][k] == 0) &&
        (0.0 <= tone <= 255.0 ==> out.grid.cells[i][j][k] as real <= tone < out.grid.cells[i][j][k] as real + 1.0)
  {
  }

  /** Sepia turns a white pixel into (255, 255, 238) and leaves black black. */
  lemma SepiaWhiteAndBlack()
    ensures ToByte(SepiaTone([255, 255, 255], 0)) == 255
    ensures ToByte(SepiaTone([255, 255, 255], 1)) == 255
    ensures ToByte(SepiaTone([255, 255, 255], 2)) == 238
    ensures forall k :: 0 <= k < 3 ==> ToByte(SepiaTone([0, 0, 0], k)) == 0
  {
    assert SepiaTone([255, 255, 255], 2) == 238.935;
  }

  /** max(0, strength): a negative strength counts as 0. */
  function Strength(strength: real): (s: real)
    ensures s >= 0.0 && s >= strength
    ensures strength >= 0.0 ==> s == strength
  {
    if strength < 0.0 then 0.0 else strength
  }

  /** One channel of brighten: the value times max(0, strength), clipped and truncated. */
  function BrightenChannel(v: Byte, strength: real): (b: Byte)
    ensures strength <= 0.0 || v == 0 ==> b == 0
    ensures strength == 1.0 ==> b == v
  {
    ToByte(v as real * Strength(strength))
  }

  /** One pixel of brighten: every channel scaled by max(0, strength), clipped and truncated. */
  function BrightenPixel(p: Pixel, strength: real): (q: Pixel)
    ensures |q| == |p|
  {
    seq(|p|, c requires 0 <= c < |p| => BrightenChannel(p[c], strength))
  }

  /**
   * brighten: each channel, as a float, times max(0, strength), clipped to
   * [0, 255] and cast to uint8.
   */
  function Brighten(img: Image, strength: real := 8.0): (r: Image)
    requires img.Valid()
    ensures r.Valid() && r.Desc() == img.Desc()
  {
    Image(img.depth, Grid(img.Height(), img.Width(),
      seq(img.Height(), i requires 0 <= i < img.Height() =>
        seq(img.Width(), j requires 0 <= j < img.Width() => BrightenPixel(img.grid.cells[i][j], strength)))))
  }

  /**
   * A brightened channel is the scaled value with its fraction dropped, or
   * 255 when the scaled value is 255 or more.
   */
  lemma BrightenChannelSpec(v: Byte, strength: real)
    ensures v as real * Strength(strength) >= 255.0 ==> BrightenChannel(v, strength) == 255
    ensures v as real * Strength(strength) <= 255.0 ==>
      BrightenChannel(v, strength) as real <= v as real * Strength(strength) < BrightenChannel(v, strength) as real + 1.0
  {
    MulNonNegative(v as real, Strength(strength));
  }

  /** Pixel (i, j) of the brightened image is the brightened pixel. */
  lemma BrightenAt(img: Image, strength: real, i: nat, j: nat)
    requires img.Valid() && i < img.Height() && j < img.Width()
    ensures Brighten(img, strength).grid.cells[i][j] == BrightenPixel(img.grid.cells[i][j], strength)
  {
  }

  /** A strength of 0 or below gives an all-black image of the same shape. */
  lemma BrightenNonPositive(img: Image, strength: real)
    requires img.Valid() && strength <= 0.0
    ensures Brighten(img, strength).Desc() == img.Desc()
    ensures forall i, j, c :: 0 <= i < img.Height() && 0 <= j < img.Width() && 0 <= c < img.depth ==>
      Brighten(img, strength).grid.cells[i][j][c] == 0
  {
    forall i, j, c | 0 <= i < img.Height() && 0 <= j < img.Width() && 0 <= c < img.depth
      ensures Brighten(img, strength).grid.cells[i][j][c] == 0
    {
      BrightenAt(img, strength, i, j);
    }
  }

  /** A strength of 1 gives the original image back. */
  lemma BrightenByOne(img: Image)
    requires img.Valid()
    ensures Brighten(img, 1.0) == img
  {
    var out := Brighten(img, 1.0);
    forall i | 0 <= i < img.Height()
      ensures out.grid.cells[i] == img.grid.cells[i]
    {
      forall j | 0 <= j < img.Width()
        ensures out.grid.cells[i][j] == img.grid.cells[i][j]
      {
        var p := img.grid.cells[i][j];
        BrightenAt(img, 1.0, i, j);
        forall c | 0 <= c < |p|
          ensures BrightenChannel(p[c], 1.0) == p[c]
        {
          ToByteOfByte(p[c]);
        }
      }
    }
  }

  /**
   * At brighten's default strength of 8 a channel value v becomes 8v, and
   * 255 from v = 32 on, where 8v passes 255.
   */
  lemma BrightenChannelByEight(v: Byte)
    ensures BrightenChannel(v, 8.0) == if v >= 32 then 255 else 8 * v
  {
    assert Strength(8.0) == 8.0;
    assert v as real * 8.0 == (8 * v) as real;
  }

  /** brighten(img) with its default strength of 8 multiplies every channel by 8, saturating at 255. */
  lemma BrightenDefault(img: Image)
    requires img.Valid()
    ensures Brighten(img).Desc() == img.Desc()
    ensures forall i, j, c :: 0 <= i < img.Height() && 0 <= j < img.Width() && 0 <= c < img.depth ==>
      Brighten(img).grid.cells[i][j][c] ==
        if img.grid.cells[i][j][c] >= 32 then 255 else 8 * img.grid.cells[i][j][c]
  {
    forall i, j, c | 0 <= i < img.Height() && 0 <= j < img.Width() && 0 <= c < img.depth
      ensures Brighten(img).grid.cells[i][j][c] ==
        if img.grid.cells[i][j][c] >= 32 then 255 else 8 * img.grid.cells[i][j][c]
    {
      BrightenAt(img, 8.0, i, j);
      BrightenChannelByEight(img.grid.cells[i][j][c]);
    }
  }

  /** A strength of at least 1 never darkens a channel value. */
  lemma BrightenChannelAtLeast(v: Byte, strength: real)
    requires strength >= 1.0
    ensures BrightenChannel(v, strength) >= v
  {
    var s := Strength(strength);
    var scaled := v as real * s;
    MulAtLeast(v as real, s);
    assert v as real <= scaled;
    BrightenChannelSpec(v, strength);
  }

  /** A strength of at least 1 never darkens a channel. */
  lemma BrightenAtLeastOne(img: Image, strength: real)
    requires img.Valid() && strength >= 1.0
    ensures forall i, j, c :: 0 <= i < img.Height() && 0 <= j < img.Width() && 0 <= c < img.depth ==>
      Brighten(img, strength).grid.cells[i][j][c] >= img.grid.cells[i][j][c]
  {
    forall i, j, c | 0 <= i < img.Height() && 0 <= j < img.Width() && 0 <= c < img.depth
      ensures Brighten(img, strength).grid.cells[i][j][c] >= img.grid.cells[i][j][c]
    {
      BrightenAt(img, strength, i, j);
      BrightenChannelAtLeast(img.grid.cells[i][j][c], strength);
    }
  }
}
