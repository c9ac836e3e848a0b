/**
 * The default gesture-capture predicate: the carousel claims a horizontal
 * gesture once the squared horizontal travel `dx` exceeds one.
 */
module Gestures {

  /**
   * The default `shouldCapture`, as a function of the gesture's horizontal
   * delta: it captures once the delta is more than one unit either way.
   */
  function DefaultShouldCapture(dx: real): (capture: bool)
    ensures capture <==> (dx > 1.0 || dx < -1.0)
  {
    dx * dx > 1.0
  }

  /** The default predicate treats a move to the left and to the right alike. */
  lemma CaptureIsSymmetric(dx: real)
    ensures DefaultShouldCapture(-dx) == DefaultShouldCapture(dx)
  {
  }
}
