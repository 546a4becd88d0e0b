/**
 * The circular target bookkeeping of CarouselSmoothScroller.kt. A target
 * outside the adapter means "keep going round": the scroller remembers the
 * adapter position it stands for and a virtual target that moves one lap
 * closer each time that position's child attaches, until it lies inside the
 * adapter and is handed to the underlying smooth scroller.
 */
module SmoothScroller {
  import opened Wrappers
  import opened Kotlin

  /** Keeps the underlying scroller seeking while the real target is not due yet. */
  const NOT_FOUND_YET_POSITION: int := -10

  /**
   * The scroller's positions; `superTarget` is the target position of the
   * underlying `LinearSmoothScroller`. `itemCount` is read once, when the
   * scroller is built.
   */
  datatype Scroller = Scroller(itemCount: nat, initialTarget: int, virtualTarget: int, validTarget: int, superTarget: int)

  function NewScroller(itemCount: nat): (s: Scroller)
    ensures s.itemCount == itemCount
    ensures s.initialTarget == s.virtualTarget == s.validTarget == s.superTarget == NO_POSITION
  {
    Scroller(itemCount, NO_POSITION, NO_POSITION, NO_POSITION, NO_POSITION)
  }

  /**
   * `setTargetPosition` as written: a target below 0 or above N stands for
   * its remainder modulo N and the underlying scroller keeps seeking; any
   * target in `[0, N]` goes straight to the underlying scroller, N included.
   * With no items, any target other than 0 divides by zero.
   */
  function SetTargetPositionAsWritten(s: Scroller, targetPosition: int): (r: Result<Scroller, string>)
    ensures r.Err? <==> s.itemCount == 0 && targetPosition != 0
    ensures r.Ok? ==> r.value.initialTarget == targetPosition && r.value.virtualTarget == targetPosition
    ensures r.Ok? ==> r.value.itemCount == s.itemCount
    ensures r.Ok? && (targetPosition < 0 || targetPosition > s.itemCount) ==>
              0 <= r.value.validTarget < s.itemCount && r.value.validTarget == targetPosition % s.itemCount &&
              r.value.superTarget == NOT_FOUND_YET_POSITION
    ensures r.Ok? && 0 <= targetPosition <= s.itemCount ==>
              r.value.validTarget == NO_POSITION && r.value.superTarget == targetPosition
  {
    var n := s.itemCount;
    var s' := s.(initialTarget := targetPosition, virtualTarget := targetPosition);
    if targetPosition < 0 then
      if n == 0 then Err("ArithmeticException: / by zero")
      else
        NormalizeInRange(targetPosition, n);
        Ok(s'.(validTarget := KRem(KRem(targetPosition, n) + n, n), superTarget := NOT_FOUND_YET_POSITION))
    else if targetPosition > n then
      if n == 0 then Err("ArithmeticException: / by zero")
      else
        KRemNonNegative(targetPosition, n);
        Ok(s'.(validTarget := KRem(targetPosition, n), superTarget := NOT_FOUND_YET_POSITION))
    else
      Ok(s'.(validTarget := NO_POSITION, superTarget := targetPosition))
  }

  /**
   * `setTargetPosition` with the bound its wrapping evidently intends: N
   * itself is past the last item and wraps like every target above it, so
   * the underlying scroller only ever receives an adapter position or the
   * keep-seeking sentinel.
   */
  function SetTargetPosition(s: Scroller, targetPosition: int): (r: Result<Scroller, string>)
    ensures r.Err? <==> s.itemCount == 0 && targetPosition != 0
    ensures r.Ok? ==> r.value.initialTarget == targetPosition && r.value.virtualTarget == targetPosition
    ensures r.Ok? ==> r.value.itemCount == s.itemCount
    ensures r.Ok? && (targetPosition < 0 || targetPosition >= s.itemCount) && s.itemCount > 0 ==>
              0 <= r.value.validTarget < s.itemCount && r.value.validTarget == targetPosition % s.itemCount &&
              r.value.superTarget == NOT_FOUND_YET_POSITION
    ensures r.Ok? && 0 <= targetPosition < s.itemCount ==>
              r.value.validTarget == NO_POSITION && r.value.superTarget == targetPosition
    ensures r.Ok? ==> r.value.superTarget == NOT_FOUND_YET_POSITION || 0 <= r.value.superTarget < s.itemCount ||
                      (s.itemCount == 0 && r.value.superTarget == 0)
  {
    var n := s.itemCount;
    var s' := s.(initialTarget := targetPosition, virtualTarget := targetPosition);
    if targetPosition < 0 then
      if n == 0 then Err("ArithmeticException: / by zero")
      else
        NormalizeInRange(targetPosition, n);
        Ok(s'.(validTarget := KRem(KRem(targetPosition, n) + n, n), superTarget := NOT_FOUND_YET_POSITION))
    else if targetPosition >= n then
      if n == 0 then
        if targetPosition == 0 then Ok(s'.(validTarget := NO_POSITION, superTarget := targetPosition))
        else Err("ArithmeticException: / by zero")
      else
        KRemNonNegative(targetPosition, n);
        Ok(s'.(validTarget := KRem(targetPosition, n), superTarget := NOT_FOUND_YET_POSITION))
    else
      Ok(s'.(validTarget := NO_POSITION, superTarget := targetPosition))
  }

  /**
   * With six items, the target 6 (one past the last item) is handed
   * unchanged to the underlying scroller, which is no adapter position; the
   * corrected version keeps seeking item 0 one lap on.
   */
  lemma TargetEqualToItemCountIsHandedOn()
    ensures var r := SetTargetPositionAsWritten(NewScroller(6), 6);
            r.Ok? && r.value.superTarget == 6 && r.value.validTarget == NO_POSITION
    ensures var r := SetTargetPosition(NewScroller(6), 6);
            r.Ok? && r.value.superTarget == NOT_FOUND_YET_POSITION && r.value.validTarget == 0
  {
  }

  /**
   * `onChildAttachedToWindow`: when the child of the remembered position
   * attaches, the virtual target moves one lap toward the adapter, or, once
   * inside it, is handed to the underlying scroller and cleared.
   */
  function OnChildAttached(s: Scroller, childPosition: int): (r: Scroller)
    ensures childPosition != s.validTarget ==> r == s
    ensures r.itemCount == s.itemCount && r.initialTarget == s.initialTarget && r.validTarget == s.validTarget
    ensures childPosition == s.validTarget && 0 <= s.virtualTarget < s.itemCount ==>
              r.superTarget == s.virtualTarget && r.virtualTarget == NO_POSITION
    ensures childPosition == s.validTarget && s.virtualTarget < 0 ==>
              r.virtualTarget - s.virtualTarget == s.itemCount && r.superTarget == s.superTarget
    ensures childPosition == s.validTarget && s.virtualTarget >= s.itemCount ==>
              s.virtualTarget - r.virtualTarget == s.itemCount && r.superTarget == s.superTarget
  {
    if childPosition != s.validTarget then s
    else if s.virtualTarget < 0 then s.(virtualTarget := s.virtualTarget + s.itemCount)
    else if s.virtualTarget > s.itemCount - 1 then s.(virtualTarget := s.virtualTarget - s.itemCount)
    else s.(superTarget := s.virtualTarget, virtualTarget := NO_POSITION)
  }

  /**
   * Going round: the remembered position is an adapter position, the
   * virtual target and the initial target both stand for it modulo N, and
   * the underlying scroller is still seeking.
   */
  ghost predicate Wrapping(s: Scroller) {
    s.itemCount > 0 && 0 <= s.validTarget < s.itemCount &&
    s.virtualTarget % s.itemCount == s.validTarget && s.initialTarget % s.itemCount == s.validTarget &&
    s.superTarget == NOT_FOUND_YET_POSITION
  }

  /** A target outside the adapter starts a round trip. */
  lemma OutOfRangeTargetStartsWrapping(s: Scroller, targetPosition: int)
    requires s.itemCount > 0 && (targetPosition < 0 || targetPosition >= s.itemCount)
    ensures SetTargetPosition(s, targetPosition).Ok?
    ensures Wrapping(SetTargetPosition(s, targetPosition).value)
  {
  }

  /** How many more laps the virtual target is away from the adapter. */
  function Laps(v: int, n: int): nat
    requires n > 0
  {
    if v < 0 then (-v + n - 1) / n else v / n
  }

  /** Each attach of the remembered child keeps the round trip going one lap closer, or ends it at the right item. */
  lemma AttachStepsTowardTarget(s: Scroller)
    requires Wrapping(s)
    ensures var r := OnChildAttached(s, s.validTarget);
            if Laps(s.virtualTarget, s.itemCount) == 0 then
              r.virtualTarget == NO_POSITION && r.superTarget == s.validTarget
            else
              Wrapping(r) && Laps(r.virtualTarget, s.itemCount) == Laps(s.virtualTarget, s.itemCount) - 1
  {
    var n, v := s.itemCount, s.virtualTarget;
    if v < 0 {
      ModUnique(v + n, n, v / n + 1, v % n);
      LapsStep(v, n);
    } else if v >= n {
      ModUnique(v - n, n, v / n - 1, v % n);
      ModUnique(v - n, n, (v - n) / n, (v - n) % n);
    } else {
      ModUnique(v, n, 0, v);
    }
  }

  lemma LapsStep(v: int, n: int)
    requires n > 0 && v < 0
    ensures Laps(v, n) > 0
    ensures Laps(v + n, n) == Laps(v, n) - 1
  {
    var q := (-v + n - 1) / n;
    var r := (-v + n - 1) % n;
    assert -v + n - 1 == q * n + r;
    if v + n < 0 {
      ModUnique(-(v + n) + n - 1, n, q - 1, r);
    } else {
      assert 0 <= v + n < n;
      assert q == 1 by {
        ModUnique(-v + n - 1, n, 1, -v - 1);
      }
    }
  }

  /** The remembered child attaching `k` times in a row. */
  function AttachTarget(s: Scroller, k: nat): Scroller
    decreases k
  {
    if k == 0 then s else AttachTarget(OnChildAttached(s, s.validTarget), k - 1)
  }

  /**
   * A round trip ends after exactly `Laps + 1` attaches of the remembered
   * child, and it ends by handing over the remembered adapter position.
   */
  lemma {:induction false} WrappingHandsOverTarget(s: Scroller)
    requires Wrapping(s)
    ensures var r := AttachTarget(s, Laps(s.virtualTarget, s.itemCount) + 1);
            r.superTarget == s.validTarget && r.virtualTarget == NO_POSITION && r.initialTarget == s.initialTarget
    decreases Laps(s.virtualTarget, s.itemCount)
  {
    AttachStepsTowardTarget(s);
    var next := OnChildAttached(s, s.validTarget);
    if Laps(s.virtualTarget, s.itemCount) > 0 {
      WrappingHandsOverTarget(next);
    }
  }
}
