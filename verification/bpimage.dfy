/**
 * bpimage.py: the index clamp and the hand-written one-pixel edge pad.
 * The pad starts from an all-zero (h + 2) x (w + 2) array and fills it by
 * slice assignments: the centre, the top and bottom rows, the left and
 * right columns, and finally the four corners.
 */
module BpImage {
  import opened Images

  function Min(a: int, b: int): int { if a < b then a else b }
  function Max(a: int, b: int): int { if a < b then b else a }

  /** _clamp: n limited to [0, maxN], the upper limit applied first. */
  function Clamp(n: int, maxN: int): (r: int)
    ensures maxN >= 0 ==> 0 <= r <= maxN
    ensures 0 <= n <= maxN ==> r == n
    ensures n < 0 ==> r == 0
    ensures 0 <= maxN < n ==> r == maxN
    ensures maxN < 0 ==> r == 0
  {
    Max(0, Min(n, maxN))
  }

  /** The cell of the source that the one-pixel edge pad puts at (i, j). */
  function PadSource(img: Image, i: int, j: int): (p: Pixel)
    requires img.Valid() && 0 < img.Height() && 0 < img.Width()
    ensures |p| == img.depth
    ensures exists si, sj :: 0 <= si < img.Height() && 0 <= sj < img.Width() && p == img.grid.cells[si][sj]
  {
    img.grid.cells[Clamp(i - 1, img.Height() - 1)][Clamp(j - 1, img.Width() - 1)]
  }

  /**
   * Which stage of the pad writes cell (i, j): the centre copies pixel
   * (i - 1, j - 1), a border row or column copies the nearest edge pixel,
   * and a corner copies the corner pixel.
   */
  lemma PadCell(img: Image, i: int, j: int)
    requires img.Valid() && 0 < img.Height() && 0 < img.Width()
    requires 0 <= i < img.Height() + 2 && 0 <= j < img.Width() + 2
    ensures 1 <= i <= img.Height() && 1 <= j <= img.Width() ==> PadSource(img, i, j) == img.grid.cells[i - 1][j - 1]
    ensures i == 0 && 1 <= j <= img.Width() ==> PadSource(img, i, j) == img.grid.cells[0][j - 1]
    ensures i == img.Height() + 1 && 1 <= j <= img.Width() ==> PadSource(img, i, j) == img.grid.cells[img.Height() - 1][j - 1]
    ensures 1 <= i <= img.Height() && j == 0 ==> PadSource(img, i, j) == img.grid.cells[i - 1][0]
    ensures 1 <= i <= img.Height() && j == img.Width() + 1 ==> PadSource(img, i, j) == img.grid.cells[i - 1][img.Width() - 1]
    ensures (i == 0 || i == img.Height() + 1) && (j == 0 || j == img.Width() + 1) ==>
      PadSource(img, i, j) == img.grid.cells[if i == 0 then 0 else img.Height() - 1][if j == 0 then 0 else img.Width() - 1]
  {
  }

  /** ret[1:-1, 1:-1] = img: the centre of the padded array is the image. */
  method FillCentre(ret: array2<Pixel>, img: Image)
    requires img.Valid() && ret.Length0 == img.Height() + 2 && ret.Length1 == img.Width() + 2
    modifies ret
    ensures forall i, j :: 1 <= i <= img.Height() && 1 <= j <= img.Width() ==>
      ret[i, j] == img.grid.cells[i - 1][j - 1]
    ensures forall i, j ::
      (0 <= i < ret.Length0 && 0 <= j < ret.Length1 && !(1 <= i <= img.Height() && 1 <= j <= img.Width())) ==>
      ret[i, j] == old(ret[i, j])
  {
    var i := 0;
    while i < img.Height()
      invariant 0 <= i <= img.Height()
      invariant forall a, b :: 1 <= a <= i && 1 <= b <= img.Width() ==> ret[a, b] == img.grid.cells[a - 1][b - 1]
      invariant forall a, b ::
        (0 <= a < ret.Length0 && 0 <= b < ret.Length1 && !(1 <= a <= i && 1 <= b <= img.Width())) ==>
        ret[a, b] == old(ret[a, b])
    {
      var j := 0;
      while j < img.Width()
        invariant 0 <= j <= img.Width()
        invariant forall a, b :: 1 <= a <= i && 1 <= b <= img.Width() ==> ret[a, b] == img.grid.cells[a - 1][b - 1]
        invariant forall a, b :: a == i + 1 && 1 <= b <= j ==> ret[a, b] == img.grid.cells[i][b - 1]
        invariant forall a, b ::
          (0 <= a < ret.Length0 && 0 <= b < ret.Length1 &&
           !(1 <= a <= i && 1 <= b <= img.Width()) && !(a == i + 1 && 1 <= b <= j)) ==>
          ret[a, b] == old(ret[a, b])
      {
        ret[i + 1, j + 1] := img.grid.cells[i][j];
        j := j + 1;
      }
      i := i + 1;
    }
  }

  /**
   * ret[0, 1:-1] = img[0] and ret[-1, 1:-1] = img[-1]: the top and bottom
   * padding rows (corners excluded) copy the first and last image rows.
   */
  method FillRows(ret: array2<Pixel>, img: Image)
    requires img.Valid() && 0 < img.Height()
    requires ret.Length0 == img.Height() + 2 && ret.Length1 == img.Width() + 2
    modifies ret
    ensures forall j :: 1 <= j <= img.Width() ==> ret[0, j] == img.grid.cells[0][j - 1]
    ensures forall i, j :: i == img.Height() + 1 && 1 <= j <= img.Width() ==>
      ret[i, j] == img.grid.cells[img.Height() - 1][j - 1]
    ensures forall i, j ::
      (0 <= i < ret.Length0 && 0 <= j < ret.Length1 && !((i == 0 || i == img.Height() + 1) && 1 <= j <= img.Width())) ==>
      ret[i, j] == old(ret[i, j])
  {
    var last := ret.Length0 - 1;
    var j := 0;
    while j < img.Width()
      invariant 0 <= j <= img.Width()
      invariant forall b :: 1 <= b <= j ==> ret[0, b] == img.grid.cells[0][b - 1]
      invariant forall b :: 1 <= b <= j ==> ret[last, b] == img.grid.cells[img.Height() - 1][b - 1]
      invariant forall a, b ::
        (0 <= a < ret.Length0 && 0 <= b < ret.Length1 && !((a == 0 || a == last) && 1 <= b <= j)) ==>
        ret[a, b] == old(ret[a, b])
    {
      ret[0, j + 1] := img.grid.cells[0][j];
      ret[last, j + 1] := img.grid.cells[img.Height() - 1][j];
      j := j + 1;
    }
  }

  /**
   * ret[1:-1, 0] = img[:, 0] and ret[1:-1, -1] = img[:, -1]: the left and
   * right padding columns (corners excluded) copy the first and last image
   * columns.
   */
  method FillColumns(ret: array2<Pixel>, img: Image)
    requires img.Valid() && 0 < img.Width()
    requires ret.Length0 == img.Height() + 2 && ret.Length1 == img.Width() + 2
    modifies ret
    ensures forall i :: 1 <= i <= img.Height() ==> ret[i, 0] == img.grid.cells[i - 1][0]
    ensures forall i, j :: 1 <= i <= img.Height() && j == img.Width() + 1 ==>
      ret[i, j] == img.grid.cells[i - 1][img.Width() - 1]
    ensures forall i, j ::
      (0 <= i < ret.Length0 && 0 <= j < ret.Length1 && !(1 <= i <= img.Height() && (j == 0 || j == img.Width() + 1))) ==>
      ret[i, j] == old(ret[i, j])
  {
    var last := ret.Length1 - 1;
    var i := 0;
    while i < img.Height()
      invariant 0 <= i <= img.Height()
      invariant forall a :: 1 <= a <= i ==> ret[a, 0] == img.grid.cells[a - 1][0]
      invariant forall a :: 1 <= a <= i ==> ret[a, last] == img.grid.cells[a - 1][img.Width() - 1]
      invariant forall a, b ::
        (0 <= a < ret.Length0 && 0 <= b < ret.Length1 && !(1 <= a <= i && (b == 0 || b == last))) ==>
        ret[a, b] == old(ret[a, b])
    {
      ret[i + 1, 0] := img.grid.cells[i][0];
      ret[i + 1, last] := img.grid.cells[i][img.Width() - 1];
      i := i + 1;
    }
  }

  /** (i, j) is one of the four corners of an (h + 2) x (w + 2) array. */
  predicate Corner(i: int, j: int, h: int, w: int) {
    (i == 0 || i == h + 1) && (j == 0 || j == w + 1)
  }

  /** ret[0, 0], ret[0, -1], ret[-1, 0], ret[-1, -1]: the corners copy the image's corners. */
  method FillCorners(ret: array2<Pixel>, img: Image)
    requires img.Valid() && 0 < img.Height() && 0 < img.Width()
    requires ret.Length0 == img.Height() + 2 && ret.Length1 == img.Width() + 2
    modifies ret
    ensures forall i, j :: 0 <= i < ret.Length0 && 0 <= j < ret.Length1 && Corner(i, j, img.Height(), img.Width()) ==>
      ret[i, j] == img.grid.cells[if i == 0 then 0 else img.Height() - 1][if j == 0 then 0 else img.Width() - 1]
    ensures forall i, j :: 0 <= i < ret.Length0 && 0 <= j < ret.Length1 && !Corner(i, j, img.Height(), img.Width()) ==>
      ret[i, j] == old(ret[i, j])
  {
    var h, w := img.Height(), img.Width();
    ret[0, 0] := img.grid.cells[0][0];
    ret[0, w + 1] := img.grid.cells[0][w - 1];
    ret[h + 1, 0] := img.grid.cells[h - 1][0];
    ret[h + 1, w + 1] := img.grid.cells[h - 1][w - 1];
  }

  /**
   * _pad: the image padded by one pixel on every side with its edge pixels.
   * An empty image has no first row (or no first column) to copy, and numpy
   * raises IndexError.  Otherwise every cell (i, j) of the (h + 2) x (w + 2)
   * result is the source pixel at the clamped position (i - 1, j - 1).
   */
  method Pad(img: Image) returns (res: Result<array2<Pixel>>)
    requires img.Valid()
    ensures img.Height() == 0 || img.Width() == 0 <==> res.Failure?
    ensures res.Failure? ==> res.error.IndexError?
    ensures res.Success? ==> fresh(res.value)
    ensures res.Success? ==>
      res.value.Length0 == img.Height() + 2 && res.value.Length1 == img.Width() + 2 &&
      forall i, j :: 0 <= i < res.value.Length0 && 0 <= j < res.value.Length1 ==>
        res.value[i, j] == PadSource(img, i, j)
  {
    var h, w := img.Height(), img.Width();
    var ret := new Pixel[h + 2, w + 2]((i, j) => Replicate(0, img.depth));
    // fill the center with the original image
    FillCentre(ret, img);
    label centre:
    // extend the image out to the padded rows (skipping the corners)
    if h == 0 {
      return Failure(IndexError("index 0 is out of bounds for axis 0 with size 0"));
    }
    FillRows(ret, img);
    label rows:
    if w == 0 {
      return Failure(IndexError("index 0 is out of bounds for axis 1 with size 0"));
    }
    FillColumns(ret, img);
    forall i, j | 0 <= i < h + 2 && 0 <= j < w + 2 && !Corner(i, j, h, w)
      ensures ret[i, j] == PadSource(img, i, j)
    {
      PadCell(img, i, j);
      if 1 <= i <= h && 1 <= j <= w {
        assert ret[i, j] == old@rows(ret[i, j]) == old@centre(ret[i, j]);
      } else if 1 <= j <= w {
        assert ret[i, j] == old@rows(ret[i, j]);
      }
    }
    // add the corners of the padded rows
    FillCorners(ret, img);
    forall i, j | 0 <= i < h + 2 && 0 <= j < w + 2 && Corner(i, j, h, w)
      ensures ret[i, j] == PadSource(img, i, j)
    {
      PadCell(img, i, j);
    }
    return Success(ret);
  }
}
