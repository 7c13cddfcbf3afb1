/**
 * validation.py: ensure_8bit_rgb guards with
 * `img.ndim != 3 and img.shape[-1] != 3`, so it raises only when an array
 * is both not 3-D and without a last axis of length 3.
 */
module Validation {
  import opened Images

  const NotRgbMessage: string := "img must be RGB with shape (h,w,3)."

  /**
   * The guard as Python evaluates it: `and` reads shape[-1] only when
   * ndim != 3, and on a 0-d array that index raises IndexError.
   */
  function EnsureRgb(a: ArrayDesc): (r: Outcome)
    ensures a.NDim() == 3 ==> r == Pass
    ensures r.Raise? && r.error.ValueError? ==> r.error.message == NotRgbMessage
  {
    if a.NDim() == 3 then Pass
    else if a.NDim() == 0 then Raise(IndexError("tuple index out of range"))
    else if a.shape[a.NDim() - 1] != 3 then Raise(ValueError(NotRgbMessage))
    else Pass
  }

  /**
   * The ValueError is raised exactly when both halves of the `and` hold;
   * every 3-D array passes, whatever its last axis, dtype or layout.
   */
  lemma EnsureRgbSpec(a: ArrayDesc)
    ensures EnsureRgb(a) == Raise(ValueError(NotRgbMessage)) <==>
      a.NDim() != 3 && a.NDim() > 0 && a.shape[a.NDim() - 1] != 3
    ensures EnsureRgb(a).Raise? && EnsureRgb(a).error.IndexError? <==> a.NDim() == 0
    ensures a.NDim() == 3 ==> EnsureRgb(a) == Pass
  {
  }

  /**
   * The guard's `and` lets through more than its message claims: an
   * (h, w, 4) image and an (h, 3) array pass; an (h, w) array with w != 3
   * raises.
   */
  lemma EnsureRgbExamples(h: nat, w: nat)
    requires w != 3
    ensures EnsureRgb(ArrayDesc([h, w, 3], UInt8, true)) == Pass
    ensures EnsureRgb(ArrayDesc([h, w, 4], UInt8, true)) == Pass
    ensures EnsureRgb(ArrayDesc([h, 3], UInt8, true)) == Pass
    ensures EnsureRgb(ArrayDesc([h, w], UInt8, true)) == Raise(ValueError(NotRgbMessage))
  {
  }
}
