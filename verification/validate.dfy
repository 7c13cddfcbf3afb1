/**
 * validate.py: ensure_8bit_rbg checks each argument in turn and raises on
 * the first one that is not a C-contiguous, 3-D, uint8 array with three
 * channels; within one argument the checks run in a fixed order and the
 * first that fails picks the message.
 */
module Validate {
  import opened Images

  const NotContiguousMessage: string := "Image array must have a C Contiguous memory layout."
  const NotThreeDimensionalMessage: string := "Image array must have exactly three dimensions."
  const NotEightBitMessage: string :=
    "Image array must have an 8bit (0-255) color depth, this corresponds to a dtype of np.uint8."
  const NotRgbMessage: string := "Image array must have a color model of RGB."

  /** What the C routines accept: contiguous, (h, w, 3), uint8. */
  predicate Is8BitRgb(a: ArrayDesc) {
    a.cContiguous && a.NDim() == 3 && a.dtype == UInt8 && a.shape[2] == 3
  }

  /** The four checks of one argument, in the order the loop body makes them. */
  function CheckOne(a: ArrayDesc): (r: Outcome)
    ensures r == Pass <==> Is8BitRgb(a)
    ensures r.Raise? ==> r.error.ValueError?
  {
    if !a.cContiguous then Raise(ValueError(NotContiguousMessage))
    else if a.NDim() != 3 then Raise(ValueError(NotThreeDimensionalMessage))
    else if a.dtype != UInt8 then Raise(ValueError(NotEightBitMessage))
    else if a.shape[a.NDim() - 1] != 3 then Raise(ValueError(NotRgbMessage))
    else Pass
  }

  /**
   * One argument passes exactly when it is an 8-bit RGB array; otherwise
   * the first failing check, in the order contiguity, ndim, dtype,
   * channels, names the error.
   */
  lemma CheckOneSpec(a: ArrayDesc)
    ensures CheckOne(a) == Pass <==> Is8BitRgb(a)
    ensures !a.cContiguous ==> CheckOne(a) == Raise(ValueError(NotContiguousMessage))
    ensures a.cContiguous && a.NDim() != 3 ==> CheckOne(a) == Raise(ValueError(NotThreeDimensionalMessage))
    ensures a.cContiguous && a.NDim() == 3 && a.dtype != UInt8 ==> CheckOne(a) == Raise(ValueError(NotEightBitMessage))
    ensures a.cContiguous && a.NDim() == 3 && a.dtype == UInt8 && a.shape[2] != 3 ==>
      CheckOne(a) == Raise(ValueError(NotRgbMessage))
  {
  }

  /** A non-contiguous array is refused even when it is otherwise an (h, w, 3) uint8 image. */
  lemma NonContiguousRejected(h: nat, w: nat)
    ensures CheckOne(ArrayDesc([h, w, 3], UInt8, false)) == Raise(ValueError(NotContiguousMessage))
    ensures CheckOne(ArrayDesc([h, w, 3], UInt8, true)) == Pass
  {
  }

  /** ensure_8bit_rbg(*args): the arguments checked left to right, stopping at the first failure. */
  function Ensure8BitRgb(args: seq<ArrayDesc>): (r: Outcome)
    ensures r.Raise? ==> r.error.ValueError?
  {
    if args == [] then Pass
    else if CheckOne(args[0]).Raise? then CheckOne(args[0])
    else Ensure8BitRgb(args[1..])
  }

  /** Index of the first argument that is not an 8-bit RGB array, or |args| when there is none. */
  function FirstInvalid(args: seq<ArrayDesc>): (k: nat)
    ensures k <= |args|
    ensures forall i :: 0 <= i < k ==> Is8BitRgb(args[i])
    ensures k < |args| ==> !Is8BitRgb(args[k])
  {
    if args == [] then 0
    else if !Is8BitRgb(args[0]) then 0
    else 1 + FirstInvalid(args[1..])
  }

  /**
   * Validation passes exactly when every argument is an 8-bit RGB array
   * (so with no arguments it passes); otherwise it raises the error of the
   * first invalid argument, and the arguments after it are never looked at.
   */
  lemma {:induction false} Ensure8BitRgbSpec(args: seq<ArrayDesc>)
    ensures Ensure8BitRgb(args) == Pass <==> forall i :: 0 <= i < |args| ==> Is8BitRgb(args[i])
    ensures FirstInvalid(args) < |args| ==> Ensure8BitRgb(args) == CheckOne(args[FirstInvalid(args)])
  {
    if args != [] {
      CheckOneSpec(args[0]);
      Ensure8BitRgbSpec(args[1..]);
      if Is8BitRgb(args[0]) {
        assert forall i :: 1 <= i < |args| ==> args[i] == args[1..][i - 1];
      }
    }
  }

  /** Whatever follows the first invalid argument does not change the error. */
  lemma {:induction false} StopsAtFirstInvalid(args: seq<ArrayDesc>, rest: seq<ArrayDesc>)
    requires FirstInvalid(args) < |args|
    ensures Ensure8BitRgb(args + rest) == Ensure8BitRgb(args)
  {
    if Is8BitRgb(args[0]) {
      CheckOneSpec(args[0]);
      assert (args + rest)[1..] == args[1..] + rest;
      StopsAtFirstInvalid(args[1..], rest);
    } else {
      CheckOneSpec(args[0]);
    }
  }
}
