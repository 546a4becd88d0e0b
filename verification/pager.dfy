/**
 * The navigation planning of CarouselPager.kt: which recycler scrolls a
 * `setCurrentItem` issues, the setters that validate their argument, the
 * extra layout space for off-screen pages, and the pending current item
 * that survives a save and restore. Scrolls are recorded as commands; the
 * one deferred with `post` is marked as such.
 */
module Pager {
  import opened Wrappers
  import opened Kotlin
  import opened LayoutHelper
  import LayoutManager
  import ScrollListener

  const DEFAULT_OFFSCREEN_PAGE_LIMIT: int := -1

  /** A smooth scroll farther than this many pages first jumps to this distance from the target. */
  const PRE_JUMP_DISTANCE: int := 3

  /** The scrolls the pager asks its recycler for. */
  datatype Command =
    | ScrollToPosition(position: int)
    | SmoothScrollToPosition(position: int)
    | PostSmoothScrollToPosition(position: int)

  /** `itemCount` is the adapter's; `manager` is the pager's layout manager. */
  datatype Pager = Pager(
    hasAdapter: bool,
    itemCount: nat,
    manager: LayoutManager.Manager,
    currentItem: int,
    pendingCurrentItem: int,
    offscreenPageLimit: int,
    listener: ScrollListener.Listener)

  datatype Outcome = Outcome(pager: Pager, events: seq<ScrollListener.Event>, commands: seq<Command>)

  /** The `orientation` setter: anything but horizontal or vertical throws and changes nothing. */
  function SetOrientation(p: Pager, value: int, axis: Axis): (r: Result<Pager, string>)
    ensures r.Err? <==> value != LayoutManager.HORIZONTAL && value != LayoutManager.VERTICAL
    ensures r.Ok? ==> r.value.manager.orientation == value && r.value == p.(manager := r.value.manager)
  {
    if value != LayoutManager.HORIZONTAL && value != LayoutManager.VERTICAL then Err("Invalid orientation")
    else
      var m := LayoutManager.SetOrientation(p.manager, value, axis);
      Ok(p.(manager := m.value))
  }

  /** The `offscreenPageLimit` setter: the default or a positive count; anything else throws and changes nothing. */
  function SetOffscreenPageLimit(p: Pager, value: int): (r: Result<Pager, string>)
    ensures r.Err? <==> value != DEFAULT_OFFSCREEN_PAGE_LIMIT && value < 1
    ensures r.Ok? ==> r.value == p.(offscreenPageLimit := value)
    ensures r.Ok? ==> r.value.offscreenPageLimit == DEFAULT_OFFSCREEN_PAGE_LIMIT || r.value.offscreenPageLimit >= 1
  {
    if value != DEFAULT_OFFSCREEN_PAGE_LIMIT && value < 1 then Err("offscreenPageLimit must be positive or DEFAULT_OFFSCREEN_PAGE_LIMIT")
    else Ok(p.(offscreenPageLimit := value))
  }

  /** The pager's recycler: its size and paddings. */
  datatype Box = Box(width: int, height: int, paddingLeft: int, paddingTop: int, paddingRight: int, paddingBottom: int)

  /** `calculatePageSize`: the recycler's extent along the scroll axis inside its paddings. */
  function CalculatePageSize(box: Box, orientation: int): int {
    if orientation == LayoutManager.HORIZONTAL then box.width - box.paddingLeft - box.paddingRight
    else box.height - box.paddingTop - box.paddingBottom
  }

  /** The layout axis the recycler's size and paddings give for an orientation, whichever way the text runs. */
  predicate AxisOf(axis: Axis, box: Box, orientation: int) {
    if orientation == LayoutManager.HORIZONTAL then
      axis.size == box.width &&
      ((axis.paddingStart == box.paddingLeft && axis.paddingEnd == box.paddingRight) ||
       (axis.paddingStart == box.paddingRight && axis.paddingEnd == box.paddingLeft))
    else
      axis.size == box.height && axis.paddingStart == box.paddingTop && axis.paddingEnd == box.paddingBottom
  }

  /** A page is exactly the space the layout fills. */
  lemma PageSizeIsLayoutSpace(box: Box, orientation: int, axis: Axis)
    requires AxisOf(axis, box, orientation)
    ensures CalculatePageSize(box, orientation) == axis.TotalSpace()
  {
  }

  /**
   * `CarouselPagerLayoutManager.calculateExtraLayoutSpace`: with the default
   * limit, the layout manager's own rule; otherwise `limit` whole pages on
   * each side.
   */
  function CalculateExtraLayoutSpace(limit: int, hasTargetScrollPosition: bool, box: Box, orientation: int, axis: Axis): (r: (int, int))
    ensures limit == DEFAULT_OFFSCREEN_PAGE_LIMIT ==> r == LayoutManager.CalculateExtraLayoutSpace(hasTargetScrollPosition, axis)
    ensures limit != DEFAULT_OFFSCREEN_PAGE_LIMIT ==> r.0 == r.1 && r.0 == limit * CalculatePageSize(box, orientation)
    ensures limit >= 1 && CalculatePageSize(box, orientation) >= 0 ==> r.0 >= CalculatePageSize(box, orientation)
  {
    if limit == DEFAULT_OFFSCREEN_PAGE_LIMIT then LayoutManager.CalculateExtraLayoutSpace(hasTargetScrollPosition, axis)
    else
      var offscreenSize := limit * CalculatePageSize(box, orientation);
      assert offscreenSize == (limit - 1) * CalculatePageSize(box, orientation) + CalculatePageSize(box, orientation);
      (offscreenSize, offscreenSize)
  }

  /**
   * The pages from `prev` to `position` the direct way and round the seam;
   * together they go round the carousel once.
   */
  function CircularSteps(prev: int, position: int, itemCount: int): (r: (int, int))
    ensures r.0 == Abs(position - prev)
    ensures r.0 + r.1 == itemCount
  {
    if position < prev then (prev - position, (itemCount - prev) + position)
    else (position - prev, (itemCount - position) + prev)
  }

  /** Which circular distances call for a jump before the smooth scroll. */
  datatype JumpRule =
    | EitherWayFar  // as written: either way round is more than three pages
    | BothWaysFar   // the shorter way round is more than three pages

  predicate FarForJump(rule: JumpRule, steps: int, stepsOpposite: int) {
    match rule
    case EitherWayFar => Abs(steps) > PRE_JUMP_DISTANCE || Abs(stepsOpposite) > PRE_JUMP_DISTANCE
    case BothWaysFar => Abs(steps) > PRE_JUMP_DISTANCE && Abs(stepsOpposite) > PRE_JUMP_DISTANCE
  }

  /** Nothing for `setCurrentItem` to do: the early returns. */
  predicate NoOp(p: Pager, position: int, smoothScroll: bool) {
    !p.hasAdapter || p.itemCount <= 0 ||
    (position == p.currentItem && p.listener.scrollState == ScrollListener.SCROLL_STATE_IDLE) ||
    (position == p.currentItem && smoothScroll)
  }

  /**
   * The recycler scrolls of a circular smooth scroll: none without a child
   * to take a direction from; a jump three pages short and a deferred smooth
   * scroll when the rule finds the target far; otherwise one smooth scroll.
   * The jump lands on the side of the target where the first child lies in
   * adapter order, the other side when the layout is reversed, whatever the
   * text direction and orientation.
   */
  function CircularPlan(p: Pager, prev: int, position: int, rule: JumpRule): (r: seq<Command>)
    ensures r == [] <==> |p.manager.children| == 0
    ensures |r| == 2 <==>
              |p.manager.children| > 0 &&
              FarForJump(rule, CircularSteps(prev, position, p.itemCount).0, CircularSteps(prev, position, p.itemCount).1)
    ensures |r| == 1 ==> r == [SmoothScrollToPosition(position)]
    ensures |r| == 2 ==>
              r[0].ScrollToPosition? && r[1] == PostSmoothScrollToPosition(position) &&
              Abs(r[0].position - position) == PRE_JUMP_DISTANCE &&
              (r[0].position > position <==> (position < p.manager.children[0].position) != p.manager.reverseLayout)
    ensures |r| <= 2
  {
    match LayoutManager.ComputeScrollVectorForPosition(p.manager, position)
    case None => []
    case Some(vector) =>
      var (steps, stepsOpposite) := CircularSteps(prev, position, p.itemCount);
      if FarForJump(rule, steps, stepsOpposite) then
        var isReversed := if p.manager.orientation == LayoutManager.HORIZONTAL then p.manager.rtl else false;
        var jump := if (vector.0 < 0 || vector.1 < 0) != isReversed then position + PRE_JUMP_DISTANCE
                    else position - PRE_JUMP_DISTANCE;
        [ScrollToPosition(jump), PostSmoothScrollToPosition(position)]
      else [SmoothScrollToPosition(position)]
  }

  /** The recycler scrolls of a linear smooth scroll; a jump lands three pages short of the target, on the near side. */
  function LinearPlan(prev: int, position: int): (r: seq<Command>)
    ensures Abs(position - prev) > PRE_JUMP_DISTANCE ==>
              |r| == 2 && r[0].ScrollToPosition? && r[1] == PostSmoothScrollToPosition(position) &&
              Abs(r[0].position - position) == PRE_JUMP_DISTANCE &&
              (prev < r[0].position < position || position < r[0].position < prev)
    ensures Abs(position - prev) <= PRE_JUMP_DISTANCE ==> r == [SmoothScrollToPosition(position)]
  {
    if Abs(position - prev) > PRE_JUMP_DISTANCE then
      [ScrollToPosition(if position > prev then position - PRE_JUMP_DISTANCE else position + PRE_JUMP_DISTANCE),
       PostSmoothScrollToPosition(position)]
    else [SmoothScrollToPosition(position)]
  }

  /**
   * `setCurrentItem` under a given circular jump rule. The previous position
   * is the current item (see `ScrollListener.ScrollStateAlwaysIdle`).
   */
  function SelectItem(p: Pager, position: int, smoothScroll: bool, rule: JumpRule): (r: Outcome)
    ensures !p.hasAdapter ==>
              r.events == [] && r.commands == [] &&
              r.pager == p.(pendingCurrentItem := if p.pendingCurrentItem != NO_POSITION then position else NO_POSITION)
    ensures p.hasAdapter && NoOp(p, position, smoothScroll) ==> r == Outcome(p, [], [])
    ensures !NoOp(p, position, smoothScroll) ==>
              var n := ScrollListener.NotifyProgrammaticScroll(p.listener, position, smoothScroll);
              r.pager == p.(currentItem := position, listener := n.listener) && r.events == n.events
    ensures !NoOp(p, position, smoothScroll) && !smoothScroll ==> r.commands == [ScrollToPosition(position)]
    ensures !NoOp(p, position, smoothScroll) && smoothScroll && !p.manager.circular ==>
              r.commands == LinearPlan(p.currentItem, position)
    ensures !NoOp(p, position, smoothScroll) && smoothScroll && p.manager.circular ==>
              r.commands == CircularPlan(p, p.currentItem, position, rule)
    ensures r.commands != [] ==> r.commands[|r.commands| - 1].position == position
  {
    if !p.hasAdapter then
      Outcome(p.(pendingCurrentItem := if p.pendingCurrentItem != NO_POSITION then position else p.pendingCurrentItem), [], [])
    else if NoOp(p, position, smoothScroll) then Outcome(p, [], [])
    else
      var prev := p.currentItem;
      var n := ScrollListener.NotifyProgrammaticScroll(p.listener, position, smoothScroll);
      var p' := p.(currentItem := position, listener := n.listener);
      var commands :=
        if !smoothScroll then [ScrollToPosition(position)]
        else if p.manager.circular then CircularPlan(p, prev, position, rule)
        else LinearPlan(prev, position);
      Outcome(p', n.events, commands)
  }

  /**
   * `setCurrentItem` as written: a circular smooth scroll jumps first when
   * either way round is more than three pages.
   */
  function SetCurrentItemAsWritten(p: Pager, position: int, smoothScroll: bool): (r: Outcome)
    ensures r.pager == SelectItem(p, position, smoothScroll, BothWaysFar).pager
    ensures r.events == SelectItem(p, position, smoothScroll, BothWaysFar).events
    ensures !NoOp(p, position, smoothScroll) && !smoothScroll ==> r.commands == [ScrollToPosition(position)]
    ensures !NoOp(p, position, smoothScroll) && smoothScroll && !p.manager.circular ==>
              r.commands == LinearPlan(p.currentItem, position)
    ensures !NoOp(p, position, smoothScroll) && smoothScroll && p.manager.circular ==>
              r.commands == CircularPlan(p, p.currentItem, position, EitherWayFar)
    ensures !NoOp(p, position, smoothScroll) && smoothScroll && p.manager.circular ==>
              var d := Abs(position - p.currentItem);
              (|r.commands| == 2 <==> |p.manager.children| > 0 && (d > PRE_JUMP_DISTANCE || Abs(p.itemCount - d) > PRE_JUMP_DISTANCE))
  {
    SelectItem(p, position, smoothScroll, EitherWayFar)
  }

  /** `setCurrentItem` with the circular jump taken only when the shorter way round is long. */
  function SetCurrentItem(p: Pager, position: int, smoothScroll: bool): (r: Outcome)
    ensures r.commands == [] || r.commands[|r.commands| - 1].position == position
    ensures p.hasAdapter && p.itemCount > 0 ==> r.pager.currentItem == position
    ensures !NoOp(p, position, smoothScroll) && smoothScroll && p.manager.circular ==>
              var d := Abs(position - p.currentItem);
              (|r.commands| == 2 <==> |p.manager.children| > 0 && d > PRE_JUMP_DISTANCE && Abs(p.itemCount - d) > PRE_JUMP_DISTANCE)
  {
    SelectItem(p, position, smoothScroll, BothWaysFar)
  }

  /** A circular smooth scroll in progress, between pages of the adapter. */
  predicate CircularSmoothScroll(p: Pager, position: int) {
    !NoOp(p, position, true) && p.manager.circular &&
    0 <= p.currentItem < p.itemCount && 0 <= position < p.itemCount &&
    LayoutManager.ComputeScrollVectorForPosition(p.manager, position).Some?
  }

  /** As written, a carousel of seven or more pages jumps before every smooth scroll, however near the target. */
  lemma LargeCarouselAlwaysJumpsAsWritten(p: Pager, position: int)
    requires CircularSmoothScroll(p, position) && p.itemCount >= 7
    ensures var r := SetCurrentItemAsWritten(p, position, true);
            |r.commands| == 2 && r.commands[0].ScrollToPosition?
  {
  }

  /**
   * As written, a circular smooth scroll jumps exactly when either way round
   * is more than three pages.
   */
  lemma JumpsWhenFarEitherWayAsWritten(p: Pager, position: int)
    requires CircularSmoothScroll(p, position)
    ensures var r := SetCurrentItemAsWritten(p, position, true);
            var d := Abs(position - p.currentItem);
            (|r.commands| == 2 <==> d > PRE_JUMP_DISTANCE || p.itemCount - d > PRE_JUMP_DISTANCE) &&
            (|r.commands| == 1 <==> !(d > PRE_JUMP_DISTANCE || Abs(p.itemCount - d) > PRE_JUMP_DISTANCE))
  {
  }

  /**
   * With the corrected rule, the pager jumps exactly when both ways round
   * are more than three pages, so never toward a page three or fewer away
   * either way round.
   */
  lemma JumpsOnlyWhenFarBothWays(p: Pager, position: int)
    requires CircularSmoothScroll(p, position)
    ensures var r := SetCurrentItem(p, position, true);
            var d := Abs(position - p.currentItem);
            (|r.commands| == 2 <==> d > PRE_JUMP_DISTANCE && p.itemCount - d > PRE_JUMP_DISTANCE) &&
            (|r.commands| == 1 <==> !(d > PRE_JUMP_DISTANCE && p.itemCount - d > PRE_JUMP_DISTANCE))
  {
  }

  /**
   * Ten pages, going from page 4 to its neighbour 5 with the layout running
   * forward: as written the pager first jumps back to page 2; with the
   * corrected rule it scrolls smoothly to 5 straight away.
   */
  lemma NeighbourScrollJumpsBackAsWritten(p: Pager)
    requires p.hasAdapter && p.itemCount == 10 && p.currentItem == 4
    requires p.manager.circular && p.manager.orientation == LayoutManager.HORIZONTAL
    requires !p.manager.rtl && !p.manager.reverseLayout
    requires |p.manager.children| > 0 && p.manager.children[0].position == 4
    ensures SetCurrentItemAsWritten(p, 5, true).commands == [ScrollToPosition(2), PostSmoothScrollToPosition(5)]
    ensures SetCurrentItem(p, 5, true).commands == [SmoothScrollToPosition(5)]
  {
  }

  /** `onSaveInstanceState`: the pending item if one is waiting, else the current one. */
  function SavedCurrentItem(p: Pager): (r: int)
    ensures p.pendingCurrentItem != NO_POSITION ==> r == p.pendingCurrentItem
    ensures p.pendingCurrentItem == NO_POSITION ==> r == p.currentItem
  {
    if p.pendingCurrentItem != NO_POSITION then p.pendingCurrentItem else p.currentItem
  }

  /** `onRestoreInstanceState`: the saved item waits until there is an adapter to apply it to. */
  function OnRestoreInstanceState(p: Pager, savedCurrentItem: int): (r: Pager)
    ensures r == p.(pendingCurrentItem := savedCurrentItem)
  {
    p.(pendingCurrentItem := savedCurrentItem)
  }

  /**
   * `restorePendingState` with `setCurrentItem` under a given jump rule: a
   * waiting item is selected through the `currentItem` setter (a smooth
   * `setCurrentItem`), cleared, and scrolled to directly.
   */
  function ApplyPending(p: Pager, rule: JumpRule): (r: Outcome)
    ensures p.pendingCurrentItem == NO_POSITION || !p.hasAdapter ==> r == Outcome(p, [], [])
    ensures p.pendingCurrentItem != NO_POSITION && p.hasAdapter ==>
              var o := SelectItem(p, p.pendingCurrentItem, true, rule);
              r.pager == o.pager.(pendingCurrentItem := NO_POSITION) && r.events == o.events &&
              r.commands == o.commands + [ScrollToPosition(r.pager.currentItem)]
    ensures p.pendingCurrentItem != NO_POSITION && p.hasAdapter && p.itemCount > 0 ==>
              r.pager.currentItem == p.pendingCurrentItem
  {
    if p.pendingCurrentItem == NO_POSITION || !p.hasAdapter then Outcome(p, [], [])
    else
      var o := SelectItem(p, p.pendingCurrentItem, true, rule);
      var p' := o.pager.(pendingCurrentItem := NO_POSITION);
      Outcome(p', o.events, o.commands + [ScrollToPosition(p'.currentItem)])
  }

  /** `restorePendingState` as written: the setter's smooth scroll uses the `setCurrentItem` as written. */
  function RestorePendingStateAsWritten(p: Pager): (r: Outcome)
    ensures p.pendingCurrentItem == NO_POSITION || !p.hasAdapter ==> r == Outcome(p, [], [])
    ensures p.pendingCurrentItem != NO_POSITION && p.hasAdapter ==>
              var o := SetCurrentItemAsWritten(p, p.pendingCurrentItem, true);
              r.pager == o.pager.(pendingCurrentItem := NO_POSITION) && r.events == o.events &&
              r.commands == o.commands + [ScrollToPosition(r.pager.currentItem)]
    ensures p.pendingCurrentItem != NO_POSITION && p.hasAdapter && p.itemCount > 0 ==>
              r.pager.currentItem == p.pendingCurrentItem
  {
    ApplyPending(p, EitherWayFar)
  }

  /** `restorePendingState` with the corrected `setCurrentItem`: the same pager and events, fewer jumps. */
  function RestorePendingState(p: Pager): (r: Outcome)
    ensures r.pager == RestorePendingStateAsWritten(p).pager && r.events == RestorePendingStateAsWritten(p).events
    ensures p.pendingCurrentItem != NO_POSITION && p.hasAdapter ==>
              r.commands == SetCurrentItem(p, p.pendingCurrentItem, true).commands + [ScrollToPosition(r.pager.currentItem)]
  {
    ApplyPending(p, BothWaysFar)
  }

  /**
   * Restoring page 5 into a ten-page pager showing page 4: as written the
   * setter jumps back to page 2 before scrolling; corrected it scrolls
   * smoothly to 5. Either way the direct scroll to 5 follows.
   */
  lemma RestoreNeighbourJumpsBackAsWritten(p: Pager)
    requires p.hasAdapter && p.itemCount == 10 && p.currentItem == 4 && p.pendingCurrentItem == 5
    requires p.manager.circular && p.manager.orientation == LayoutManager.HORIZONTAL
    requires !p.manager.rtl && !p.manager.reverseLayout
    requires |p.manager.children| > 0 && p.manager.children[0].position == 4
    ensures RestorePendingStateAsWritten(p).commands ==
              [ScrollToPosition(2), PostSmoothScrollToPosition(5), ScrollToPosition(5)]
    ensures RestorePendingState(p).commands == [SmoothScrollToPosition(5), ScrollToPosition(5)]
  {
    NeighbourScrollJumpsBackAsWritten(p);
  }

  /** A pending item is applied once: restoring again changes nothing. */
  lemma RestoreAppliesOnce(p: Pager)
    requires p.hasAdapter
    ensures var r := RestorePendingStateAsWritten(p).pager;
            RestorePendingStateAsWritten(r) == Outcome(r, [], [])
  {
  }

  /** Saving and restoring into a pager with pages selects the item that was saved. */
  lemma SaveRestoreKeepsCurrentItem(saved: Pager, restored: Pager)
    requires restored.hasAdapter && restored.itemCount > 0
    ensures var item := SavedCurrentItem(saved);
            item != NO_POSITION ==>
              RestorePendingStateAsWritten(OnRestoreInstanceState(restored, item)).pager.currentItem == item
  {
  }
}
