/**
 * Row-major (C-contiguous) memory layout of an (h, w, 3) uint8 array and of
 * an (n, n) float kernel: how the nested values that numpy hands to the C
 * routine lie in one flat buffer, with the strides convolve.c computes.
 */
module Layout {

  /** COLOR_DEPTH in convolve.c: three channels per pixel. */
  const ColorDepth: nat := 3

  /**
   * The flat position of channel c of pixel (i, j) in a row-major buffer
   * whose rows are w pixels long: row stride w * 3, pixel stride 3.
   */
  function Offset(i: int, j: int, c: int, w: int): int {
    i * (w * ColorDepth) + j * ColorDepth + c
  }

  /** a <= b and c >= 0 give a * c <= b * c. */
  lemma MulMonotone(a: int, b: int, c: nat)
    requires a <= b
    ensures a * c <= b * c
  {
    assert b * c - a * c == (b - a) * c;
  }

  /** A cell inside an h x w grid of L-element blocks lies inside h * L elements. */
  lemma BlockBound(i: nat, k: nat, h: nat, L: nat)
    requires i < h && k < L
    ensures i * L + k < h * L
  {
    MulMonotone(i + 1, h, L);
  }

  /** Every channel of every pixel of an h x w image lies inside its h * (w * 3) buffer. */
  lemma OffsetBound(i: nat, j: nat, c: nat, h: nat, w: nat)
    requires i < h && j < w && c < ColorDepth
    ensures 0 <= Offset(i, j, c, w) < h * (w * ColorDepth)
  {
    BlockBound(j, c, w, ColorDepth);
    BlockBound(i, j * ColorDepth + c, h, w * ColorDepth);
  }

  /** The elements of s, block after block. */
  function Concat<T>(s: seq<seq<T>>): seq<T> {
    if s == [] then [] else Concat(s[..|s| - 1]) + s[|s| - 1]
  }

  /** Each block has length L. */
  ghost predicate Uniform<T>(s: seq<seq<T>>, L: nat) {
    forall i :: 0 <= i < |s| ==> |s[i]| == L
  }

  /** Appending one more block appends its elements. */
  lemma ConcatSnoc<T>(s: seq<seq<T>>, k: nat)
    requires k < |s|
    ensures Concat(s[..k + 1]) == Concat(s[..k]) + s[k]
  {
    assert s[..k + 1][..k] == s[..k];
  }

  /** n blocks of length L give n * L elements. */
  lemma {:induction false} ConcatLength<T>(s: seq<seq<T>>, L: nat)
    requires Uniform(s, L)
    ensures |Concat(s)| == |s| * L
  {
    if s != [] {
      ConcatLength(s[..|s| - 1], L);
      assert |s| * L == (|s| - 1) * L + L;
    }
  }

  /** Element k of block i sits at i * L + k. */
  lemma {:induction false} ConcatAt<T>(s: seq<seq<T>>, L: nat, i: nat, k: nat)
    requires Uniform(s, L) && i < |s| && k < L
    ensures |Concat(s)| == |s| * L
    ensures i * L + k < |Concat(s)| && Concat(s)[i * L + k] == s[i][k]
  {
    var n := |s| - 1;
    ConcatLength(s, L);
    ConcatLength(s[..n], L);
    if i < n {
      ConcatAt(s[..n], L, i, k);
    }
    BlockBound(i, k, |s|, L);
  }

  /** The rows of an image, each laid out as one flat row of w * 3 bytes. */
  function FlatRows<T>(rows: seq<seq<seq<T>>>): (r: seq<seq<T>>)
    ensures |r| == |rows|
  {
    seq(|rows|, i requires 0 <= i < |rows| => Concat(rows[i]))
  }

  /** np.ascontiguousarray: the whole image as one row-major buffer. */
  function Flatten<T>(rows: seq<seq<seq<T>>>): seq<T> {
    Concat(FlatRows(rows))
  }

  /** Every row has w pixels and every pixel 3 channels. */
  ghost predicate Rectangular<T>(rows: seq<seq<seq<T>>>, w: nat) {
    forall i :: 0 <= i < |rows| ==> |rows[i]| == w && Uniform(rows[i], ColorDepth)
  }

  /** An h x w x 3 array takes h * (w * 3) bytes. */
  lemma FlattenLength<T>(rows: seq<seq<seq<T>>>, w: nat)
    requires Rectangular(rows, w)
    ensures |Flatten(rows)| == |rows| * (w * ColorDepth)
  {
    forall i | 0 <= i < |rows|
      ensures |FlatRows(rows)[i]| == w * ColorDepth
    {
      ConcatLength(rows[i], ColorDepth);
    }
    ConcatLength(FlatRows(rows), w * ColorDepth);
  }

  /** Channel c of pixel (i, j) is stored at Offset(i, j, c, w). */
  lemma FlattenAt<T>(rows: seq<seq<seq<T>>>, w: nat, i: nat, j: nat, c: nat)
    requires Rectangular(rows, w) && i < |rows| && j < w && c < ColorDepth
    ensures |Flatten(rows)| == |rows| * (w * ColorDepth)
    ensures 0 <= Offset(i, j, c, w) < |Flatten(rows)|
    ensures Flatten(rows)[Offset(i, j, c, w)] == rows[i][j][c]
  {
    FlattenLength(rows, w);
    forall k | 0 <= k < |rows|
      ensures |FlatRows(rows)[k]| == w * ColorDepth
    {
      ConcatLength(rows[k], ColorDepth);
    }
    ConcatAt(rows[i], ColorDepth, j, c);
    ConcatAt(FlatRows(rows), w * ColorDepth, i, j * ColorDepth + c);
  }

  /** The three channels of pixel (i, j) of a flat h x w x 3 buffer. */
  function PixelAt<T>(s: seq<T>, h: nat, w: nat, i: nat, j: nat): (p: seq<T>)
    requires |s| == h * (w * ColorDepth) && i < h && j < w
    ensures |p| == ColorDepth
  {
    OffsetBound(i, j, ColorDepth - 1, h, w);
    s[Offset(i, j, 0, w)..Offset(i, j, 0, w) + ColorDepth]
  }

  /** The (h, w, 3) view of a flat row-major buffer. */
  function Unflatten<T>(s: seq<T>, h: nat, w: nat): (rows: seq<seq<seq<T>>>)
    requires |s| == h * (w * ColorDepth)
    ensures |rows| == h
  {
    seq(h, i requires 0 <= i < h => seq(w, j requires 0 <= j < w => PixelAt(s, h, w, i, j)))
  }

  /** The three bytes of pixel (i, j) in the contiguous copy are that pixel. */
  lemma PixelAtFlatten<T>(rows: seq<seq<seq<T>>>, w: nat, i: nat, j: nat)
    requires Rectangular(rows, w) && i < |rows| && j < w
    ensures |Flatten(rows)| == |rows| * (w * ColorDepth)
    ensures PixelAt(Flatten(rows), |rows|, w, i, j) == rows[i][j]
  {
    var s := Flatten(rows);
    FlattenAt(rows, w, i, j, 0);
    FlattenAt(rows, w, i, j, 1);
    FlattenAt(rows, w, i, j, 2);
    var o := Offset(i, j, 0, w);
    assert s[o..o + ColorDepth] == [s[o], s[o + 1], s[o + 2]];
  }

  /** Viewing the contiguous copy of an image as (h, w, 3) gives the image back. */
  lemma UnflattenFlatten<T>(rows: seq<seq<seq<T>>>, w: nat)
    requires Rectangular(rows, w)
    ensures |Flatten(rows)| == |rows| * (w * ColorDepth)
    ensures Unflatten(Flatten(rows), |rows|, w) == rows
  {
    FlattenLength(rows, w);
    var u := Unflatten(Flatten(rows), |rows|, w);
    forall i | 0 <= i < |rows|
      ensures u[i] == rows[i]
    {
      forall j | 0 <= j < w
        ensures u[i][j] == rows[i][j]
      {
        PixelAtFlatten(rows, w, i, j);
      }
    }
  }
}
