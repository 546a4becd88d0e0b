/**
 * The fill cursor of the carousel layout manager (`LayoutHelper` in
 * CarouselLayoutManager.kt) and the value types it works on.
 *
 * Android views are reduced to `Child` records (adapter position and
 * decorated bounds along the scroll axis) and `OrientationHelper` to an
 * `Axis` record.
 */
module LayoutHelper {
  import opened Wrappers
  import opened Kotlin

  /** A direction along the scroll axis or through the adapter: -1 or +1. */
  type Direction = d: int | d == -1 || d == 1 witness 1

  const DIRECTION_LEFT_TOP: Direction := -1
  const DIRECTION_RIGHT_BOTTOM: Direction := 1
  const DIRECTION_HEAD: Direction := -1
  const DIRECTION_TAIL: Direction := 1

  function Opposite(d: Direction): (r: Direction)
    ensures r + d == 0
  {
    if d == 1 then -1 else 1
  }

  /**
   * `OrientationHelper` along the scroll axis: the parent's extent, its two
   * paddings and the change of total space since the previous layout.
   */
  datatype Axis = Axis(size: int, paddingStart: int, paddingEnd: int, totalSpaceChange: int) {
    function StartAfterPadding(): int { paddingStart }
    function EndAfterPadding(): int { size - paddingEnd }
    function End(): int { size }
    function EndPadding(): int { paddingEnd }
    function TotalSpace(): int { size - paddingStart - paddingEnd }
  }

  /** An attached child: adapter position, decorated start/end, and whether its item is being removed. */
  datatype Child = Child(position: int, start: int, end: int, removed: bool)

  function Size(ch: Child): int { ch.end - ch.start }

  /** The edge of a placed child that touches the cursor offset it was placed at. */
  function NearEdge(ch: Child, layoutDirection: Direction): int {
    if layoutDirection == DIRECTION_RIGHT_BOTTOM then ch.start else ch.end
  }

  /** The edge of a placed child that the cursor offset moves to after placing it. */
  function FarEdge(ch: Child, layoutDirection: Direction): int {
    if layoutDirection == DIRECTION_RIGHT_BOTTOM then ch.end else ch.start
  }

  /**
   * The state of `LayoutHelper`. `scrollingOffset` is `None` where the source
   * stores `SCROLLING_OFFSET_NAN`: the fill is driven by layout, not scrolling.
   */
  datatype Cursor = Cursor(
    shouldRecycle: bool,
    offset: int,
    scrollingOffset: Option<int>,
    currentPosition: int,
    availableSpace: int,
    extraSpace: int,
    layoutDirection: Direction,
    itemDirection: Direction,
    latestScrollDelta: int,
    circular: bool)

  /** A fresh `LayoutHelper`. */
  const InitialCursor: Cursor := Cursor(false, 0, None, NO_POSITION, 0, 0,
                                        DIRECTION_RIGHT_BOTTOM, DIRECTION_RIGHT_BOTTOM, 0, true)

  /** The cursor's position may be handed to the recycler. */
  predicate Fetchable(c: Cursor, itemCount: int) {
    c.circular && itemCount > 0 ==> 0 <= c.currentPosition < itemCount
  }

  /**
   * `validateCurrentPositionForCircular`: in circular mode a position before
   * the first item becomes the last one and a position after the last item
   * becomes the first one; otherwise the position is kept.
   */
  function ValidateForCircular(position: int, circular: bool, itemCount: int): (r: int)
    ensures circular && itemCount > 0 ==> 0 <= r < itemCount
    ensures !circular || 0 <= position < itemCount ==> r == position
  {
    if circular then
      if position < 0 then itemCount - 1
      else if position > itemCount - 1 then 0
      else position
    else position
  }

  /** One step of the cursor through the adapter, as `moveCurrentPosition` takes it. */
  function Step(position: int, itemDirection: Direction, circular: bool, itemCount: int): int {
    ValidateForCircular(position + itemDirection, circular, itemCount)
  }

  /**
   * From a valid position a circular step is the modular successor or
   * predecessor: the wrap only ever corrects a one-step overshoot.
   */
  lemma StepIsModular(position: int, itemDirection: Direction, itemCount: int)
    requires 0 <= position < itemCount
    ensures Step(position, itemDirection, true, itemCount) == (position + itemDirection) % itemCount
    ensures position == itemCount - 1 && itemDirection == DIRECTION_TAIL ==> Step(position, itemDirection, true, itemCount) == 0
    ensures position == 0 && itemDirection == DIRECTION_HEAD ==> Step(position, itemDirection, true, itemCount) == itemCount - 1
  {
    var q := position + itemDirection;
    if q < 0 {
      ModUnique(q, itemCount, -1, itemCount - 1);
    } else if q > itemCount - 1 {
      ModUnique(q, itemCount, 1, 0);
    } else {
      ModUnique(q, itemCount, 0, q);
    }
  }

  /** From a valid position, a step back undoes a step forth. */
  lemma StepInverse(position: int, d: Direction, circular: bool, itemCount: int)
    requires 0 <= position < itemCount
    ensures Step(Step(position, Opposite(d), circular, itemCount), d, circular, itemCount) == position
  {
  }

  /** `moveCurrentPosition`. */
  function MoveCurrentPosition(c: Cursor, itemCount: int): (c': Cursor)
    ensures Fetchable(c', itemCount)
    ensures c' == c.(currentPosition := c'.currentPosition)
  {
    c.(currentPosition := Step(c.currentPosition, c.itemDirection, c.circular, itemCount))
  }

  /**
   * `hasNext`: in circular mode there is always a next item when the adapter
   * is not empty; otherwise only while the position is inside the adapter.
   */
  function HasNext(c: Cursor, itemCount: int): (b: bool)
    ensures b && Fetchable(c, itemCount) ==> 0 <= c.currentPosition < itemCount
  {
    if c.circular then itemCount > 0 else 0 <= c.currentPosition < itemCount
  }

  /** `x` moved by `amount` in direction `d`. */
  function Toward(x: int, amount: int, d: Direction): int {
    if d == DIRECTION_RIGHT_BOTTOM then x + amount else x - amount
  }

  /** `updateForFillingNext`: the offset moves past the placed item and its size is no longer available. */
  function UpdateForFillingNext(c: Cursor, viewSize: int): (c': Cursor)
    ensures c'.offset == Toward(c.offset, viewSize, c.layoutDirection)
    ensures c.availableSpace - c'.availableSpace == viewSize
    ensures c' == c.(offset := c'.offset, availableSpace := c'.availableSpace)
  {
    c.(offset := c.offset + viewSize * c.layoutDirection, availableSpace := c.availableSpace - viewSize)
  }

  /** `updateLayoutDirectionFromLatestScrollDelta`. */
  function UpdateLayoutDirectionFromLatestScrollDelta(c: Cursor): (c': Cursor)
    ensures c'.layoutDirection == DIRECTION_LEFT_TOP <==> c.latestScrollDelta < 0
    ensures c' == c.(layoutDirection := c'.layoutDirection)
  {
    c.(layoutDirection := if c.latestScrollDelta >= 0 then DIRECTION_RIGHT_BOTTOM else DIRECTION_LEFT_TOP)
  }

  /**
   * `updateForFillingToLeftOrTop`: a layout-driven fill from `offset` toward
   * the start padding; the available space is exactly the gap to that edge,
   * and adapter order runs backwards unless the layout itself is reversed.
   */
  function UpdateForFillingToLeftOrTop(c: Cursor, position: int, offset: int, extraSpace: int,
                                       layoutToLeftTop: bool, axis: Axis): (c': Cursor)
    ensures c'.offset - c'.availableSpace == axis.StartAfterPadding()
    ensures c'.scrollingOffset.None? && c'.layoutDirection == DIRECTION_LEFT_TOP
    ensures c'.itemDirection == DIRECTION_TAIL <==> layoutToLeftTop
    ensures c'.currentPosition == position && c'.offset == offset && c'.extraSpace == extraSpace
    ensures c'.circular == c.circular && c'.shouldRecycle == c.shouldRecycle
    ensures c'.latestScrollDelta == c.latestScrollDelta
  {
    c.(currentPosition := position, offset := offset, scrollingOffset := None,
       layoutDirection := DIRECTION_LEFT_TOP,
       itemDirection := if layoutToLeftTop then DIRECTION_TAIL else DIRECTION_HEAD,
       availableSpace := offset - axis.StartAfterPadding(), extraSpace := extraSpace)
  }

  /** `updateForFillingToRightOrBottom`: the mirror image, toward the end padding. */
  function UpdateForFillingToRightOrBottom(c: Cursor, position: int, offset: int, extraSpace: int,
                                           layoutToLeftTop: bool, axis: Axis): (c': Cursor)
    ensures c'.offset + c'.availableSpace == axis.EndAfterPadding()
    ensures c'.scrollingOffset.None? && c'.layoutDirection == DIRECTION_RIGHT_BOTTOM
    ensures c'.itemDirection == DIRECTION_HEAD <==> layoutToLeftTop
    ensures c'.currentPosition == position && c'.offset == offset && c'.extraSpace == extraSpace
    ensures c'.circular == c.circular && c'.shouldRecycle == c.shouldRecycle
    ensures c'.latestScrollDelta == c.latestScrollDelta
  {
    c.(currentPosition := position, offset := offset, scrollingOffset := None,
       layoutDirection := DIRECTION_RIGHT_BOTTOM,
       itemDirection := if layoutToLeftTop then DIRECTION_HEAD else DIRECTION_TAIL,
       availableSpace := axis.EndAfterPadding() - offset, extraSpace := extraSpace)
  }

  /**
   * `updateForScrollingToLeftOrTop`: a scroll-driven fill starting at the
   * start edge of the child closest to the start. The scrolling budget is the
   * part of that child hidden under the start padding, and budget plus
   * available space is the requested scroll distance.
   */
  function UpdateForScrollingToLeftOrTop(c: Cursor, delta: int, view: Child, position: int, extraSpace: int,
                                         layoutToLeftTop: bool, axis: Axis, itemCount: int): (c': Cursor)
    ensures c'.scrollingOffset == Some(axis.StartAfterPadding() - view.start)
    ensures c'.scrollingOffset.value + c'.availableSpace == Abs(delta)
    ensures c'.offset == view.start && c'.layoutDirection == DIRECTION_LEFT_TOP
    ensures c'.itemDirection == DIRECTION_TAIL <==> layoutToLeftTop
    ensures c'.currentPosition == Step(position, c'.itemDirection, c.circular, itemCount)
    ensures Fetchable(c', itemCount)
    ensures c'.extraSpace == extraSpace && c'.circular == c.circular
    ensures c'.shouldRecycle == c.shouldRecycle && c'.latestScrollDelta == c.latestScrollDelta
  {
    var itemDirection: Direction := if layoutToLeftTop then DIRECTION_TAIL else DIRECTION_HEAD;
    var scrollingOffset := axis.StartAfterPadding() - view.start;
    c.(layoutDirection := DIRECTION_LEFT_TOP, itemDirection := itemDirection,
       currentPosition := ValidateForCircular(position + itemDirection, c.circular, itemCount),
       offset := view.start, scrollingOffset := Some(scrollingOffset),
       availableSpace := Abs(delta) - scrollingOffset, extraSpace := extraSpace)
  }

  /** `updateForScrollingToRightOrBottom`: the mirror image, from the end edge of the child closest to the end. */
  function UpdateForScrollingToRightOrBottom(c: Cursor, delta: int, view: Child, position: int, extraSpace: int,
                                             layoutToLeftTop: bool, axis: Axis, itemCount: int): (c': Cursor)
    ensures c'.scrollingOffset == Some(view.end - axis.EndAfterPadding())
    ensures c'.scrollingOffset.value + c'.availableSpace == Abs(delta)
    ensures c'.offset == view.end && c'.layoutDirection == DIRECTION_RIGHT_BOTTOM
    ensures c'.itemDirection == DIRECTION_HEAD <==> layoutToLeftTop
    ensures c'.currentPosition == Step(position, c'.itemDirection, c.circular, itemCount)
    ensures Fetchable(c', itemCount)
    ensures c'.extraSpace == extraSpace && c'.circular == c.circular
    ensures c'.shouldRecycle == c.shouldRecycle && c'.latestScrollDelta == c.latestScrollDelta
  {
    var itemDirection: Direction := if layoutToLeftTop then DIRECTION_HEAD else DIRECTION_TAIL;
    var scrollingOffset := view.end - axis.EndAfterPadding();
    c.(layoutDirection := DIRECTION_RIGHT_BOTTOM, itemDirection := itemDirection,
       currentPosition := ValidateForCircular(position + itemDirection, c.circular, itemCount),
       offset := view.end, scrollingOffset := Some(scrollingOffset),
       availableSpace := Abs(delta) - scrollingOffset, extraSpace := extraSpace)
  }
}
