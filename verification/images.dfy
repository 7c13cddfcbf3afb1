/**
 * The shared data model of bpimage: 8-bit channel values, rectangular
 * grids, (height, width, depth) uint8 images, the descriptor of a numpy
 * array that the validators inspect, and the error values the Python code
 * raises or returns.
 */
module Images {

  /** One uint8 channel value. */
  type Byte = x: int | 0 <= x < 256

  /** A pixel: the channel values along the last axis of an image array. */
  type Pixel = seq<Byte>

  /** The numpy dtypes the code distinguishes. */
  datatype DType = UInt8 | Float32 | Float64 | OtherDType

  /** The Python exceptions the core raises (or, in color.py, returns). */
  datatype Error =
    | ValueError(message: string)
    | IndexError(message: string)

  datatype Result<+T> = Success(value: T) | Failure(error: Error)

  /** The outcome of a check that either passes silently or raises. */
  datatype Outcome = Pass | Raise(error: Error)

  /**
   * What the validators look at in an ndarray: its shape (ndim is the
   * length of the shape), its dtype and its C-contiguity flag.
   */
  datatype ArrayDesc = ArrayDesc(shape: seq<nat>, dtype: DType, cContiguous: bool)
  {
    function NDim(): nat { |shape| }
  }

  /**
   * An h x w grid of cells, stored row-major as a sequence of rows.  The
   * height and width are kept explicitly so that a grid with no columns
   * still knows how many rows it has (and a transposed one how many columns).
   */
  datatype Grid<T> = Grid(height: nat, width: nat, cells: seq<seq<T>>)
  {
    ghost predicate Valid() {
      |cells| == height && forall i :: 0 <= i < |cells| ==> |cells[i]| == width
    }
  }

  /** A 3-D uint8 image array of shape (height, width, depth). */
  datatype Image = Image(depth: nat, grid: Grid<Pixel>)
  {
    ghost predicate Valid() {
      grid.Valid() &&
      forall i, j :: 0 <= i < grid.height && 0 <= j < grid.width ==> |grid.cells[i][j]| == depth
    }

    function Height(): nat { grid.height }
    function Width(): nat { grid.width }

    /** The array descriptor numpy would report for this image. */
    function Desc(): ArrayDesc { ArrayDesc([grid.height, grid.width, depth], UInt8, true) }

    /** Channel c of pixel (i, j), or 0 outside the image. */
    function Channel(i: int, j: int, c: int): Byte {
      if 0 <= i < |grid.cells| && 0 <= j < |grid.cells[i]| && 0 <= c < |grid.cells[i][j]|
      then grid.cells[i][j][c] else 0
    }
  }

  /**
   * Clamps a value to the range of an unsigned char: first negative values
   * become 0, then values above 255 become 255.
   */
  function Clip(value: real): (r: real)
    ensures 0.0 <= r <= 255.0
    ensures 0.0 <= value <= 255.0 ==> r == value
  {
    var ret := if value < 0.0 then 0.0 else value;
    if ret > 255.0 then 255.0 else ret
  }

  /**
   * Storing an already clipped float into an unsigned 8-bit cell truncates
   * toward zero, which on [0, 255] is the floor.
   */
  function Truncate(value: real): (b: Byte)
    requires 0.0 <= value <= 255.0
    ensures b as real <= value < b as real + 1.0
  {
    value.Floor
  }

  /** Clip, then truncate: how every float result becomes a channel value. */
  function ToByte(value: real): (b: Byte)
    ensures value < 1.0 ==> b == 0
    ensures value >= 255.0 ==> b == 255
    ensures 0.0 <= value <= 255.0 ==> b as real <= value < b as real + 1.0
  {
    Truncate(Clip(value))
  }

  /** A channel value survives the float round trip unchanged. */
  lemma ToByteOfByte(v: Byte)
    ensures ToByte(v as real) == v
  {
  }

  /** Element i of s, or d when i is out of range. */
  function ElementOr<T>(s: seq<T>, i: int, d: T): T {
    if 0 <= i < |s| then s[i] else d
  }

  /** n copies of v. */
  function Replicate<T>(v: T, n: nat): (r: seq<T>)
    ensures |r| == n && forall k :: 0 <= k < n ==> r[k] == v
  {
    seq(n, _ => v)
  }
}
