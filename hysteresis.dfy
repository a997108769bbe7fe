/**
 * The resize hysteresis of the viewport: a new container size is applied
 * only when one dimension has moved by more than a fixed number of pixels
 * away from the last applied size.
 */
module Hysteresis {

  /** A size in whole pixels, as `offsetWidth`/`offsetHeight` report it. */
  datatype Size = Size(width: nat, height: nat)

  /** Pixels a dimension must move by, strictly, before a resize is applied. */
  const Threshold: nat := 10

  function Abs(n: int): (r: nat)
    ensures r == n || r == -n
  {
    if n < 0 then -n else n
  }

  /** True when `current` is far enough from the last applied size to be applied. */
  predicate ExceedsThreshold(previousWidth: nat, previousHeight: nat, current: Size)
  {
    Abs(current.width - previousWidth) > Threshold || Abs(current.height - previousHeight) > Threshold
  }

  /** The dead band, stated without `Abs`: a size is held back exactly when both
      dimensions lie within the closed interval of the threshold around the last one. */
  lemma HeldBackIffInsideBand(previousWidth: nat, previousHeight: nat, current: Size)
    ensures !ExceedsThreshold(previousWidth, previousHeight, current) <==>
      (previousWidth - Threshold <= current.width <= previousWidth + Threshold &&
       previousHeight - Threshold <= current.height <= previousHeight + Threshold)
  {
  }

  /** A move of exactly the threshold in both dimensions is held back;
      a move of one pixel more in either dimension is applied. */
  lemma ThresholdBoundary(previousWidth: nat, previousHeight: nat)
    ensures !ExceedsThreshold(previousWidth, previousHeight, Size(previousWidth + Threshold, previousHeight + Threshold))
    ensures ExceedsThreshold(previousWidth, previousHeight, Size(previousWidth + (Threshold + 1), previousHeight))
    ensures ExceedsThreshold(previousWidth, previousHeight, Size(previousWidth, previousHeight + (Threshold + 1)))
    ensures previousWidth >= Threshold && previousHeight >= Threshold ==>
      !ExceedsThreshold(previousWidth, previousHeight, Size(previousWidth - Threshold, previousHeight - Threshold))
    ensures previousWidth >= Threshold + 1 ==>
      ExceedsThreshold(previousWidth, previousHeight, Size(previousWidth - (Threshold + 1), previousHeight))
    ensures previousHeight >= Threshold + 1 ==>
      ExceedsThreshold(previousWidth, previousHeight, Size(previousWidth, previousHeight - (Threshold + 1)))
  {
  }
}
