/**
 * transform.py: flips and quarter turns of an (h, w, depth) image.  numpy
 * returns views; the model returns the re-indexed image value, which is
 * what a reader of the view sees.
 */
module Transform {
  import opened Images

  /** s read backwards: the slice s[::-1]. */
  function Reverse<T>(s: seq<T>): (r: seq<T>)
    ensures |r| == |s|
    ensures forall i :: 0 <= i < |s| ==> r[i] == s[|s| - 1 - i]
  {
    if s == [] then [] else [s[|s| - 1]] + Reverse(s[..|s| - 1])
  }

  /** flipv: img[:, ::-1], every row reversed (left and right swap). */
  function FlipV(img: Image): (r: Image)
    requires img.Valid()
    ensures r.Valid() && r.depth == img.depth && r.Height() == img.Height() && r.Width() == img.Width()
    ensures forall i, j :: 0 <= i < img.Height() && 0 <= j < img.Width() ==>
      r.grid.cells[i][j] == img.grid.cells[i][img.Width() - 1 - j]
  {
    Image(img.depth, Grid(img.Height(), img.Width(),
      seq(|img.grid.cells|, i requires 0 <= i < |img.grid.cells| => Reverse(img.grid.cells[i]))))
  }

  /** fliph: img[::-1, :], the rows in reverse order (top and bottom swap). */
  function FlipH(img: Image): (r: Image)
    requires img.Valid()
    ensures r.Valid() && r.depth == img.depth && r.Height() == img.Height() && r.Width() == img.Width()
    ensures forall i, j :: 0 <= i < img.Height() && 0 <= j < img.Width() ==>
      r.grid.cells[i][j] == img.grid.cells[img.Height() - 1 - i][j]
  {
    Image(img.depth, Grid(img.Height(), img.Width(), Reverse(img.grid.cells)))
  }

  /** np.transpose(img, axes=(1, 0, 2)): rows become columns, pixels unchanged. */
  function Transpose(img: Image): (r: Image)
    requires img.Valid()
    ensures r.Valid() && r.depth == img.depth && r.Height() == img.Width() && r.Width() == img.Height()
    ensures forall i, j :: 0 <= i < img.Width() && 0 <= j < img.Height() ==>
      r.grid.cells[i][j] == img.grid.cells[j][i]
  {
    Image(img.depth, Grid(img.Width(), img.Height(),
      seq(img.Width(), i requires 0 <= i < img.Width() =>
        seq(img.Height(), j requires 0 <= j < img.Height() => img.grid.cells[j][i]))))
  }

  /** max(0, times) % 4: negative counts are ignored, whole turns dropped. */
  function Turns(times: int): (t: nat)
    ensures t < 4
    ensures times <= 0 ==> t == 0
    ensures times >= 0 ==> t == times % 4
  {
    (if times < 0 then 0 else times) % 4
  }

  /** One counter-clockwise quarter turn: the transpose of the left-right flip. */
  function QuarterTurn(img: Image): (r: Image)
    requires img.Valid()
    ensures r.Valid() && r.depth == img.depth && r.Height() == img.Width() && r.Width() == img.Height()
    ensures forall i, j :: 0 <= i < img.Width() && 0 <= j < img.Height() ==>
      r.grid.cells[i][j] == img.grid.cells[j][img.Width() - 1 - i]
  {
    Transpose(FlipV(img))
  }

  /** A half turn: both flips. */
  function HalfTurn(img: Image): (r: Image)
    requires img.Valid()
    ensures r.Valid() && r.depth == img.depth && r.Height() == img.Height() && r.Width() == img.Width()
    ensures forall i, j :: 0 <= i < img.Height() && 0 <= j < img.Width() ==>
      r.grid.cells[i][j] == img.grid.cells[img.Height() - 1 - i][img.Width() - 1 - j]
  {
    FlipV(FlipH(img))
  }

  /** Three counter-clockwise quarter turns: the left-right flip of the transpose. */
  function ThreeQuarterTurn(img: Image): (r: Image)
    requires img.Valid()
    ensures r.Valid() && r.depth == img.depth && r.Height() == img.Width() && r.Width() == img.Height()
    ensures forall i, j :: 0 <= i < img.Width() && 0 <= j < img.Height() ==>
      r.grid.cells[i][j] == img.grid.cells[img.Height() - 1 - j][i]
  {
    FlipV(Transpose(img))
  }

  /**
   * rotate90: times counter-clockwise quarter turns.  A whole number of
   * turns gives the image itself (img[:]), two turns flip both axes, three
   * turns flip the transpose, one turn transposes the left-right flip.
   */
  function Rotate90(img: Image, times: int := 1): (r: Image)
    requires img.Valid()
    ensures r.Valid() && r.depth == img.depth
    ensures Turns(times) % 2 == 0 ==> r.Height() == img.Height() && r.Width() == img.Width()
    ensures Turns(times) % 2 == 1 ==> r.Height() == img.Width() && r.Width() == img.Height()
  {
    var t := Turns(times);
    if t == 0 then img
    else if t == 2 then HalfTurn(img)
    else if t == 3 then ThreeQuarterTurn(img)
    else QuarterTurn(img)
  }

  /**
   * Two valid images of the same depth and shape whose pixels agree are
   * the same image.
   */
  lemma {:induction false} SameImage(a: Image, b: Image)
    requires a.Valid() && b.Valid() && a.depth == b.depth
    requires a.Height() == b.Height() && a.Width() == b.Width()
    requires forall i, j :: 0 <= i < a.Height() && 0 <= j < a.Width() ==> a.grid.cells[i][j] == b.grid.cells[i][j]
    ensures a == b
  {
    forall i | 0 <= i < a.Height()
      ensures a.grid.cells[i] == b.grid.cells[i]
    {
    }
  }

  /** flipv undoes itself. */
  lemma FlipVInvolution(img: Image)
    requires img.Valid()
    ensures FlipV(FlipV(img)) == img
  {
    SameImage(FlipV(FlipV(img)), img);
  }

  /** fliph undoes itself. */
  lemma FlipHInvolution(img: Image)
    requires img.Valid()
    ensures FlipH(FlipH(img)) == img
  {
    SameImage(FlipH(FlipH(img)), img);
  }

  /** The two flips commute: either order turns the image half way round. */
  lemma FlipsCommute(img: Image)
    requires img.Valid()
    ensures FlipV(FlipH(img)) == FlipH(FlipV(img))
  {
    SameImage(FlipV(FlipH(img)), FlipH(FlipV(img)));
  }

  /** rotate90 ignores negative counts and whole turns: they return the image itself. */
  lemma Rotate90Identity(img: Image, times: int)
    requires img.Valid()
    ensures times <= 0 ==> Rotate90(img, times) == img
    ensures times >= 0 && times % 4 == 0 ==> Rotate90(img, times) == img
    ensures times >= 0 ==> Rotate90(img, times) == Rotate90(img, times % 4)
  {
    if times >= 0 {
      assert Turns(times % 4) == Turns(times);
    }
  }

  /** rotate90 by one, two and three: the quarter, half and three-quarter turns. */
  lemma Rotate90Cases(img: Image)
    requires img.Valid()
    ensures Rotate90(img, 1) == QuarterTurn(img)
    ensures Rotate90(img, 2) == HalfTurn(img)
    ensures Rotate90(img, 3) == ThreeQuarterTurn(img)
  {
    assert Turns(1) == 1 && Turns(2) == 2 && Turns(3) == 3;
  }

  /** rotate90(img) with the default count of 1 is one counter-clockwise quarter turn. */
  lemma Rotate90Default(img: Image)
    requires img.Valid()
    ensures Rotate90(img) == QuarterTurn(img)
    ensures forall i, j :: 0 <= i < img.Width() && 0 <= j < img.Height() ==>
      Rotate90(img).grid.cells[i][j] == img.grid.cells[j][img.Width() - 1 - i]
  {
    Rotate90Cases(img);
  }

  /** Turning a quarter and then a quarter again is the half turn. */
  lemma HalfTurnIsTwoQuarters(img: Image)
    requires img.Valid()
    ensures HalfTurn(img) == QuarterTurn(QuarterTurn(img))
    ensures Rotate90(img, 2) == Rotate90(Rotate90(img, 1), 1)
  {
    Rotate90Cases(img);
    Rotate90Cases(QuarterTurn(img));
    SameImage(HalfTurn(img), QuarterTurn(QuarterTurn(img)));
  }

  /** A half turn followed by a quarter turn is three quarter turns. */
  lemma ThreeQuartersIsHalfAndQuarter(img: Image)
    requires img.Valid()
    ensures ThreeQuarterTurn(img) == QuarterTurn(HalfTurn(img))
    ensures Rotate90(img, 3) == Rotate90(Rotate90(img, 2), 1)
  {
    Rotate90Cases(img);
    Rotate90Cases(HalfTurn(img));
    SameImage(ThreeQuarterTurn(img), QuarterTurn(HalfTurn(img)));
  }

  /** Three quarter turns and one more give the image back. */
  lemma FullTurn(img: Image)
    requires img.Valid()
    ensures QuarterTurn(ThreeQuarterTurn(img)) == img
  {
    SameImage(QuarterTurn(ThreeQuarterTurn(img)), img);
  }

  /** rotate90(·, 1) applied four times gives the image back. */
  lemma FourQuarterTurns(img: Image)
    requires img.Valid()
    ensures Rotate90(Rotate90(Rotate90(Rotate90(img, 1), 1), 1), 1) == img
  {
    var q1 := QuarterTurn(img);
    var q2 := QuarterTurn(q1);
    var q3 := QuarterTurn(q2);
    Rotate90Cases(img);
    Rotate90Cases(q1);
    Rotate90Cases(q2);
    Rotate90Cases(q3);
    HalfTurnIsTwoQuarters(img);
    HalfTurnIsTwoQuarters(q1);
    ThreeQuartersIsHalfAndQuarter(img);
    FullTurn(img);
  }

  /** The half turn is the same whichever flip comes first. */
  lemma HalfTurnIsBothFlips(img: Image)
    requires img.Valid()
    ensures Rotate90(img, 2) == FlipH(FlipV(img))
  {
    Rotate90Cases(img);
    FlipsCommute(img);
  }
}
