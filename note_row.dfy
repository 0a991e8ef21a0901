/**
 The release decision of one swipeable note row: when the finger lifts, the
 row's horizontal displacement decides whether the row is dismissed (and the
 note deleted once the fade-out ends) or springs back to where it started.
 */
module NoteRow {

  /** The displacement, in layout units, that a row must pass to the left to be dismissed. */
  const DismissThreshold: int := -120

  /** What a release does with the row. */
  datatype Release = Dismiss | SpringBack

  /** The outcome of releasing a row displaced by `dx`. */
  function OnRelease(dx: int): (r: Release)
    ensures r == Dismiss ==> dx < 0
    ensures dx >= 0 ==> r == SpringBack
  {
    if dx < DismissThreshold then Dismiss else SpringBack
  }

  /** Dismissal is the left side of a strict threshold: -120 itself springs back, -121 dismisses. */
  lemma ThresholdIsStrict()
    ensures OnRelease(DismissThreshold) == SpringBack
    ensures OnRelease(DismissThreshold - 1) == Dismiss
  {
  }

  /** Pulling a dismissed row further left still dismisses it, and springing back is kept when pulled less far. */
  lemma ReleaseIsMonotone(dx: int, dy: int)
    requires dy <= dx
    ensures OnRelease(dx) == Dismiss ==> OnRelease(dy) == Dismiss
    ensures OnRelease(dy) == SpringBack ==> OnRelease(dx) == SpringBack
  {
  }

  /** The two lemmas above pin the outcome: a release dismisses exactly when it is strictly left of -120. */
  lemma DismissExactlyBelowThreshold(dx: int)
    ensures OnRelease(dx) == Dismiss <==> dx < DismissThreshold
  {
    ThresholdIsStrict();
    if dx < DismissThreshold {
      ReleaseIsMonotone(DismissThreshold - 1, dx);
    } else {
      ReleaseIsMonotone(dx, DismissThreshold);
    }
  }
}
