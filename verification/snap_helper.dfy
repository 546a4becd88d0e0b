/**
 * The integer part of fling snapping (CarouselSnapHelper.kt): the average
 * child extent, the signed step count, and the target position, with the
 * circular clamp to about half the items and the modulo normalisation.
 * The fling distance and its rounding are floating point; the rounded step
 * count enters as a parameter.
 */
module SnapHelper {
  import opened Wrappers
  import opened Kotlin
  import opened LayoutHelper

  const INVALID_DISTANCE: int := -1

  /** Smallest start among the children with a position, or `Int.MAX_VALUE` when there is none. */
  function MinStart(children: seq<Child>): int {
    if |children| == 0 then INT_MAX
    else
      var m := MinStart(children[..|children| - 1]);
      var ch := children[|children| - 1];
      if ch.position != NO_POSITION && ch.start < m then ch.start else m
  }

  /** Largest end among the children with a position, or `Int.MIN_VALUE` when there is none. */
  function MaxEnd(children: seq<Child>): int {
    if |children| == 0 then INT_MIN
    else
      var m := MaxEnd(children[..|children| - 1]);
      var ch := children[|children| - 1];
      if ch.position != NO_POSITION && ch.end > m then ch.end else m
  }

  /** `MinStart` is a lower bound of the counted starts and is attained unless nothing counted. */
  lemma {:induction false} MinStartIsMinimum(children: seq<Child>)
    ensures forall k :: 0 <= k < |children| && children[k].position != NO_POSITION ==> MinStart(children) <= children[k].start
    ensures MinStart(children) == INT_MAX ||
            exists k :: 0 <= k < |children| && children[k].position != NO_POSITION && MinStart(children) == children[k].start
  {
    if |children| > 0 {
      var init := children[..|children| - 1];
      MinStartIsMinimum(init);
      assert forall k :: 0 <= k < |init| ==> init[k] == children[k];
    }
  }

  /** `MaxEnd` is an upper bound of the counted ends and is attained unless nothing counted. */
  lemma {:induction false} MaxEndIsMaximum(children: seq<Child>)
    ensures forall k :: 0 <= k < |children| && children[k].position != NO_POSITION ==> children[k].end <= MaxEnd(children)
    ensures MaxEnd(children) == INT_MIN ||
            exists k :: 0 <= k < |children| && children[k].position != NO_POSITION && MaxEnd(children) == children[k].end
  {
    if |children| > 0 {
      var init := children[..|children| - 1];
      MaxEndIsMaximum(init);
      assert forall k :: 0 <= k < |init| ==> init[k] == children[k];
    }
  }

  /**
   * `computeAverageDistancePerChild`: the span from the smallest start to the
   * largest end of the children that have a position, divided by the number
   * of all children; -1 without children or without a span. Children
   * without a position are skipped in the span but still counted.
   */
  method ComputeAverageDistancePerChild(children: seq<Child>) returns (r: int)
    ensures |children| == 0 ==> r == INVALID_DISTANCE
    ensures |children| > 0 ==>
              var lo, hi := MinStart(children), MaxEnd(children);
              r == if lo == INT_MAX || hi == INT_MIN || hi - lo == 0 then INVALID_DISTANCE
                   else KDiv(hi - lo, |children|)
  {
    if |children| == 0 {
      return INVALID_DISTANCE;
    }
    var minStart := INT_MAX;
    var maxEnd := INT_MIN;
    var i := 0;
    while i < |children|
      invariant 0 <= i <= |children|
      invariant minStart == MinStart(children[..i]) && maxEnd == MaxEnd(children[..i])
    {
      assert children[..i + 1][..i] == children[..i];
      var child := children[i];
      if child.position != NO_POSITION {
        if child.start < minStart {
          minStart := child.start;
        }
        if child.end > maxEnd {
          maxEnd := child.end;
        }
      }
      i := i + 1;
    }
    assert children[..i] == children;
    if minStart == INT_MAX || maxEnd == INT_MIN {
      return INVALID_DISTANCE;
    }
    var distance := maxEnd - minStart;
    if distance == 0 {
      return INVALID_DISTANCE;
    }
    r := KDiv(distance, |children|);
  }

  /**
   * `calculateNextPositionSteps` with `guessNextPositionDiff`: no steps when
   * the manager scrolls on neither axis or the average distance is not
   * positive; otherwise the rounded step count, negated when the scroll
   * vector toward the last item points left/up on the scrolling axis.
   */
  function CalculateNextPositionSteps(canScrollHorizontally: bool, canScrollVertically: bool,
                                      vectorX: int, vectorY: int, averageDistance: int, roundedSteps: int): (r: int)
    ensures !(canScrollHorizontally || canScrollVertically) || averageDistance <= 0 ==> r == 0
    ensures (canScrollHorizontally || canScrollVertically) && averageDistance > 0 ==> Abs(r) == Abs(roundedSteps)
    ensures canScrollHorizontally && averageDistance > 0 ==>
              (vectorX < 0 ==> r == -roundedSteps) && (vectorX >= 0 ==> r == roundedSteps)
    ensures !canScrollHorizontally && canScrollVertically && averageDistance > 0 ==>
              (vectorY < 0 ==> r == -roundedSteps) && (vectorY >= 0 ==> r == roundedSteps)
  {
    var guess := if averageDistance <= 0 then 0 else roundedSteps;
    if canScrollHorizontally then guess * (if vectorX < 0 then DIRECTION_LEFT_TOP else DIRECTION_RIGHT_BOTTOM)
    else if canScrollVertically then guess * (if vectorY < 0 then DIRECTION_LEFT_TOP else DIRECTION_RIGHT_BOTTOM)
    else 0
  }

  /**
   * `currentAndFirstVisibleDiff`: how far the snap view is after the first
   * child going forward around the circle; between 1 and N for positions
   * in the adapter.
   */
  function CurrentAndFirstVisibleDiff(currentPosition: int, firstChildPosition: int, itemCount: int): (r: int)
    ensures 0 <= currentPosition < itemCount && 0 <= firstChildPosition < itemCount ==> 1 <= r <= itemCount
    ensures r == currentPosition - firstChildPosition || r == itemCount - firstChildPosition + currentPosition
    ensures firstChildPosition == currentPosition ==> r == itemCount
  {
    if firstChildPosition < currentPosition then currentPosition - firstChildPosition
    else itemCount - firstChildPosition + currentPosition
  }

  /**
   * The circular clamp of the step count with `halfItemCount = N / 2`:
   * from two items on, the result lies within `[-(N/2) + 1, N/2 - 1]` and a
   * count already inside is kept.
   */
  function ClampSteps(steps: int, itemCount: nat): (r: int)
    ensures itemCount >= 2 ==> -(itemCount / 2) + 1 <= r <= itemCount / 2 - 1
    ensures -(itemCount / 2) < steps < itemCount / 2 ==> r == steps
    ensures itemCount == 1 ==> r == -1
  {
    var half := itemCount / 2;
    var s := if steps <= -half then -half + 1 else steps;
    if s >= half then half - 1 else s
  }

  /** The raw circular target: the first child's position moved by the clamped steps, one lap back when the first child is not before the snap view. */
  function CircularTarget(currentPosition: int, firstChildPosition: int, steps: int, itemCount: nat): (t: int)
    ensures var s := ClampSteps(steps, itemCount);
            t == firstChildPosition + s || t == firstChildPosition + s - itemCount
  {
    currentPosition + ClampSteps(steps, itemCount) - CurrentAndFirstVisibleDiff(currentPosition, firstChildPosition, itemCount)
  }

  /**
   * The normalisation as written: a negative target is wrapped with the
   * `(t % N + N) % N` idiom and a target above N with `t % N`, but a target
   * equal to N passes unchanged.
   */
  function NormalizeAsWritten(t: int, itemCount: int): (r: int)
    requires itemCount > 0
    ensures 0 <= r <= itemCount
    ensures r % itemCount == t % itemCount
  {
    if t < 0 then
      NormalizeInRange(t, itemCount);
      ModOfMod(t, itemCount);
      KRem(KRem(t, itemCount) + itemCount, itemCount)
    else if t > itemCount then
      KRemNonNegative(t, itemCount);
      ModOfMod(t, itemCount);
      KRem(t, itemCount)
    else
      t
  }

  lemma ModOfMod(x: int, n: int)
    requires n > 0
    ensures (x % n) % n == x % n
  {
    ModUnique(x % n, n, 0, x % n);
  }

  /** The normalisation with the bound the wrapping evidently intends: `t >= N` is wrapped too. */
  function Normalize(t: int, itemCount: int): (r: int)
    requires itemCount > 0
    ensures 0 <= r < itemCount
    ensures r == t % itemCount
  {
    if t < 0 then
      NormalizeInRange(t, itemCount);
      KRem(KRem(t, itemCount) + itemCount, itemCount)
    else if t >= itemCount then
      KRemNonNegative(t, itemCount);
      KRem(t, itemCount)
    else
      ModUnique(t, itemCount, 0, t);
      t
  }

  /** Everything `findTargetSnapPosition` checks before computing a target. */
  predicate CanSnap(itemCount: int, currentPosition: Option<int>, hasVector: bool, nextPositionSteps: int) {
    itemCount != 0 && currentPosition.Some? && currentPosition.value != NO_POSITION && hasVector && nextPositionSteps != 0
  }

  /** The linear target: the snap view's position moved by the steps and clamped into the adapter. */
  function LinearTarget(currentPosition: int, nextPositionSteps: int, itemCount: int): (r: int)
    requires itemCount > 0
    ensures 0 <= r < itemCount
    ensures 0 <= currentPosition + nextPositionSteps < itemCount ==> r == currentPosition + nextPositionSteps
    ensures currentPosition + nextPositionSteps < 0 ==> r == 0
    ensures currentPosition + nextPositionSteps >= itemCount ==> r == itemCount - 1
  {
    var t := currentPosition + nextPositionSteps;
    if t < 0 then 0 else if t >= itemCount then itemCount - 1 else t
  }

  /**
   * `findTargetSnapPosition` as written. `currentPosition` is the snap
   * view's position (`None` without a snap view), `hasVector` whether a
   * scroll vector exists, `firstChildPosition` the position of child 0.
   */
  function FindTargetSnapPositionAsWritten(itemCount: nat, currentPosition: Option<int>, hasVector: bool,
                                           nextPositionSteps: int, circular: bool, firstChildPosition: Option<int>): (r: int)
    ensures !CanSnap(itemCount, currentPosition, hasVector, nextPositionSteps) ==> r == NO_POSITION
    ensures CanSnap(itemCount, currentPosition, hasVector, nextPositionSteps) && !circular ==>
              r == LinearTarget(currentPosition.value, nextPositionSteps, itemCount)
    ensures CanSnap(itemCount, currentPosition, hasVector, nextPositionSteps) && circular &&
            firstChildPosition.Some? && firstChildPosition.value != NO_POSITION ==>
              0 <= r <= itemCount &&
              r % itemCount == (firstChildPosition.value + ClampSteps(nextPositionSteps, itemCount)) % itemCount
  {
    if !CanSnap(itemCount, currentPosition, hasVector, nextPositionSteps) then NO_POSITION
    else if circular then
      if firstChildPosition.None? || firstChildPosition.value == NO_POSITION then NO_POSITION
      else
        var t := CircularTarget(currentPosition.value, firstChildPosition.value, nextPositionSteps, itemCount);
        LapCongruent(firstChildPosition.value + ClampSteps(nextPositionSteps, itemCount), itemCount);
        NormalizeAsWritten(t, itemCount)
    else LinearTarget(currentPosition.value, nextPositionSteps, itemCount)
  }

  /**
   * `findTargetSnapPosition` with the corrected normalisation: a circular
   * target is always an adapter position, congruent to the first child's
   * position moved by the clamped steps.
   */
  function FindTargetSnapPosition(itemCount: nat, currentPosition: Option<int>, hasVector: bool,
                                  nextPositionSteps: int, circular: bool, firstChildPosition: Option<int>): (r: int)
    ensures !CanSnap(itemCount, currentPosition, hasVector, nextPositionSteps) ==> r == NO_POSITION
    ensures CanSnap(itemCount, currentPosition, hasVector, nextPositionSteps) && !circular ==>
              r == LinearTarget(currentPosition.value, nextPositionSteps, itemCount)
    ensures CanSnap(itemCount, currentPosition, hasVector, nextPositionSteps) && circular &&
            firstChildPosition.Some? && firstChildPosition.value != NO_POSITION ==>
              0 <= r < itemCount &&
              r == (firstChildPosition.value + ClampSteps(nextPositionSteps, itemCount)) % itemCount
    ensures CanSnap(itemCount, currentPosition, hasVector, nextPositionSteps) && circular &&
            !(firstChildPosition.Some? && firstChildPosition.value != NO_POSITION) ==>
              r == NO_POSITION
  {
    if !CanSnap(itemCount, currentPosition, hasVector, nextPositionSteps) then NO_POSITION
    else if circular then
      if firstChildPosition.None? || firstChildPosition.value == NO_POSITION then NO_POSITION
      else
        var t := CircularTarget(currentPosition.value, firstChildPosition.value, nextPositionSteps, itemCount);
        LapCongruent(firstChildPosition.value + ClampSteps(nextPositionSteps, itemCount), itemCount);
        Normalize(t, itemCount)
    else LinearTarget(currentPosition.value, nextPositionSteps, itemCount)
  }

  /** Going back a whole lap does not change a position modulo N. */
  lemma LapCongruent(x: int, n: int)
    requires n > 0
    ensures (x - n) % n == x % n
  {
    ModUnique(x - n, n, x / n - 1, x % n);
  }

  /** Every target the corrected version produces is a position of the adapter or `NO_POSITION`. */
  lemma SnapTargetIsAdapterPosition(itemCount: nat, currentPosition: Option<int>, hasVector: bool,
                                    nextPositionSteps: int, circular: bool, firstChildPosition: Option<int>)
    ensures var r := FindTargetSnapPosition(itemCount, currentPosition, hasVector, nextPositionSteps, circular, firstChildPosition);
            r == NO_POSITION || 0 <= r < itemCount
  {
  }

  /**
   * The as-written normalisation lets the target N through: six items, the
   * snap view at 5 right after the first child at 4, a fling of two steps
   * gives 6, which is no adapter position. The corrected version gives 0.
   */
  lemma SnapTargetEqualsItemCount()
    ensures FindTargetSnapPositionAsWritten(6, Some(5), true, 2, true, Some(4)) == 6
    ensures FindTargetSnapPosition(6, Some(5), true, 2, true, Some(4)) == 0
  {
    assert CircularTarget(5, 4, 2, 6) == 6;
  }
}
