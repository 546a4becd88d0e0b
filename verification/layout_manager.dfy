/**
 * `CarouselLayoutManager`: its configuration, pending state, scroll
 * handling and the two-sided layout around an anchor. The Android view
 * system is reduced to the list of attached children along the scroll
 * axis; a layout or scroll returns the new state instead of mutating views.
 */
module LayoutManager {
  import opened Wrappers
  import opened Kotlin
  import opened LayoutHelper
  import opened Anchor
  import Fill

  const HORIZONTAL: int := 0
  const VERTICAL: int := 1

  datatype Manager = Manager(
    orientation: int,
    circular: bool,
    reverseLayout: bool,
    rtl: bool,
    axis: Axis,
    children: seq<Child>,
    anchor: AnchorInfo,
    pendingSavedState: Option<SavedState>,
    pendingPosition: int,
    helper: Cursor)

  /** The manager's own bookkeeping agrees: a valid orientation, and the fill cursor knows the mode. */
  predicate Valid(m: Manager) {
    (m.orientation == HORIZONTAL || m.orientation == VERTICAL) && m.helper.circular == m.circular
  }

  /** The layout grows toward the left/top: a horizontal layout flips with right-to-left text. */
  function LayoutToLeftTop(m: Manager): bool {
    if m.orientation == HORIZONTAL then m.reverseLayout != m.rtl else m.reverseLayout
  }

  /** The constructors: an invalid orientation throws, everything else starts empty. */
  function NewManager(orientation: int, circular: bool, reverseLayout: bool, rtl: bool, axis: Axis): (r: Result<Manager, string>)
    ensures r.Ok? <==> orientation == HORIZONTAL || orientation == VERTICAL
    ensures r.Ok? ==> Valid(r.value) && r.value.children == [] && r.value.pendingSavedState.None?
    ensures r.Ok? ==> r.value.pendingPosition == NO_POSITION && !r.value.anchor.isValid
    ensures r.Ok? ==> r.value.circular == circular && r.value.reverseLayout == reverseLayout
  {
    if orientation != HORIZONTAL && orientation != VERTICAL then Err("Invalid orientation")
    else Ok(Manager(orientation, circular, reverseLayout, rtl, axis, [], InitialAnchorInfo, None, NO_POSITION,
                    InitialCursor.(circular := circular)))
  }

  /** The `orientation` setter; `axis` is the orientation helper for the new orientation. */
  function SetOrientation(m: Manager, value: int, axis: Axis): (r: Result<Manager, string>)
    ensures r.Ok? <==> value == HORIZONTAL || value == VERTICAL
    ensures r.Ok? && value == m.orientation ==> r.value == m
    ensures r.Ok? && value != m.orientation ==> r.value == m.(orientation := value, axis := axis)
    ensures r.Ok? && Valid(m) ==> Valid(r.value)
  {
    if value != HORIZONTAL && value != VERTICAL then Err("Invalid orientation")
    else if value != m.orientation then Ok(m.(orientation := value, axis := axis))
    else Ok(m)
  }

  /** The `circular` setter keeps the fill cursor in the same mode. */
  function SetCircular(m: Manager, value: bool): (r: Manager)
    requires Valid(m)
    ensures Valid(r) && r.circular == value
    ensures r == m.(circular := value, helper := m.helper.(circular := value))
  {
    if m.circular != value then m.(circular := value, helper := m.helper.(circular := value)) else m
  }

  /** The `reverseLayout` setter: flipping it flips the side the layout grows toward. */
  function SetReverseLayout(m: Manager, value: bool): (r: Manager)
    ensures r.reverseLayout == value
    ensures LayoutToLeftTop(r) == (LayoutToLeftTop(m) != (value != m.reverseLayout))
    ensures r == m.(reverseLayout := r.reverseLayout)
  {
    if value != m.reverseLayout then m.(reverseLayout := value) else m
  }

  /** `canScrollHorizontally` / `canScrollVertically`. */
  function CanScroll(m: Manager, horizontally: bool): bool {
    if horizontally then m.orientation == HORIZONTAL else m.orientation == VERTICAL
  }

  /** Exactly one axis scrolls. */
  lemma ExactlyOneAxisScrolls(m: Manager)
    requires Valid(m)
    ensures CanScroll(m, true) != CanScroll(m, false)
  {
  }

  /** `scrollToPosition`: remember the position; a pending saved anchor no longer applies. */
  function ScrollToPosition(m: Manager, position: int): (r: Manager)
    ensures r.pendingPosition == position
    ensures r.pendingSavedState.Some? <==> m.pendingSavedState.Some?
    ensures r.pendingSavedState.Some? ==>
              (!r.pendingSavedState.value.HasValidAnchor() &&
               r.pendingSavedState.value.layoutToLeftTop == m.pendingSavedState.value.layoutToLeftTop)
    ensures r == m.(pendingPosition := position, pendingSavedState := r.pendingSavedState)
  {
    m.(pendingPosition := position,
       pendingSavedState := if m.pendingSavedState.Some? then Some(InvalidateAnchor(m.pendingSavedState.value)) else None)
  }

  /** `onLayoutCompleted`: nothing stays pending and the next layout recomputes its anchor. */
  function OnLayoutCompleted(m: Manager): (r: Manager)
    ensures r.pendingSavedState.None? && r.pendingPosition == NO_POSITION && !r.anchor.isValid
    ensures r.anchor.layoutToLeftTop == m.anchor.layoutToLeftTop
    ensures r == m.(pendingSavedState := None, pendingPosition := NO_POSITION, anchor := r.anchor)
  {
    m.(pendingSavedState := None, pendingPosition := NO_POSITION, anchor := Invalidate(m.anchor))
  }

  /** `onSaveInstanceState`. */
  function SaveState(m: Manager): (s: SavedState)
    ensures m.pendingSavedState.None? && |m.children| > 0 ==> s.anchorPosition == m.children[0].position
    ensures m.pendingSavedState.None? ==> s.layoutToLeftTop == LayoutToLeftTop(m)
    ensures m.pendingSavedState.Some? ==> s == m.pendingSavedState.value
  {
    OnSaveInstanceState(m.pendingSavedState, LayoutToLeftTop(m), m.children, m.axis)
  }

  /** `onRestoreInstanceState`: the state becomes pending for the next layout. */
  function RestoreState(m: Manager, state: SavedState): (r: Manager)
    ensures r.pendingSavedState.Some?
    ensures m.pendingPosition == NO_POSITION ==> r.pendingSavedState.value == state
    ensures m.pendingPosition != NO_POSITION ==> !r.pendingSavedState.value.HasValidAnchor()
    ensures r == m.(pendingSavedState := r.pendingSavedState)
  {
    m.(pendingSavedState := Some(OnRestoreInstanceState(state, m.pendingPosition)))
  }

  /**
   * `computeScrollVectorForPosition`: none without children; otherwise a
   * unit vector along the scroll axis, toward left/top exactly when the
   * target lies before the first child in adapter order and the layout is
   * not reversed, or after it and the layout is reversed.
   */
  function ComputeScrollVectorForPosition(m: Manager, targetPosition: int): (r: Option<(int, int)>)
    ensures r.None? <==> |m.children| == 0
    ensures r.Some? && m.orientation == HORIZONTAL ==> r.value.1 == 0
    ensures r.Some? && m.orientation != HORIZONTAL ==> r.value.0 == 0
    ensures r.Some? ==>
              var d := if m.orientation == HORIZONTAL then r.value.0 else r.value.1;
              (d == DIRECTION_LEFT_TOP || d == DIRECTION_RIGHT_BOTTOM) &&
              (d == DIRECTION_LEFT_TOP <==> (targetPosition < m.children[0].position) != LayoutToLeftTop(m))
  {
    if |m.children| == 0 then None
    else
      var d := if (targetPosition < m.children[0].position) != LayoutToLeftTop(m) then DIRECTION_LEFT_TOP
               else DIRECTION_RIGHT_BOTTOM;
      if m.orientation == HORIZONTAL then Some((d, 0)) else Some((0, d))
  }

  /**
   * `calculateExtraLayoutSpace`: the layout also covers the paddings, and
   * one whole page more on each side while a smooth scroll has a target.
   */
  function CalculateExtraLayoutSpace(hasTargetScrollPosition: bool, axis: Axis): (r: (int, int))
    ensures r.0 - axis.StartAfterPadding() == r.1 - axis.EndPadding()
    ensures hasTargetScrollPosition ==> r.0 - axis.StartAfterPadding() == axis.TotalSpace()
    ensures !hasTargetScrollPosition ==> r == (axis.StartAfterPadding(), axis.EndPadding())
  {
    var extraSpace := if hasTargetScrollPosition then axis.TotalSpace() else 0;
    (extraSpace + axis.StartAfterPadding(), extraSpace + axis.EndPadding())
  }

  /** The extra spaces as the callers use them, never negative. */
  function ExtraSpaces(hasTargetScrollPosition: bool, axis: Axis): (r: (nat, nat))
    ensures r.0 >= CalculateExtraLayoutSpace(hasTargetScrollPosition, axis).0
    ensures r.1 >= CalculateExtraLayoutSpace(hasTargetScrollPosition, axis).1
    ensures r.0 > 0 ==> r.0 == CalculateExtraLayoutSpace(hasTargetScrollPosition, axis).0
    ensures r.1 > 0 ==> r.1 == CalculateExtraLayoutSpace(hasTargetScrollPosition, axis).1
  {
    var (s, e) := CalculateExtraLayoutSpace(hasTargetScrollPosition, axis);
    (if s < 0 then 0 else s, if e < 0 then 0 else e)
  }

  /** A child moved along the axis. */
  function Shift(ch: Child, amount: int): Child {
    ch.(start := ch.start + amount, end := ch.end + amount)
  }

  /** `offsetChildren`. */
  function OffsetChildren(children: seq<Child>, amount: int): (r: seq<Child>)
    ensures |r| == |children|
    ensures forall k :: 0 <= k < |r| ==> r[k] == Shift(children[k], amount)
  {
    seq(|children|, k requires 0 <= k < |children| => Shift(children[k], amount))
  }

  function Min(a: int, b: int): int { if a <= b then a else b }

  /**
   * The fill half of `scrollBy`: point the cursor at the child on the edge
   * being scrolled toward and fill behind it. Returns the moved cursor, the
   * children laid out, all attached children afterwards, and the consumable
   * distance: the hidden part of the edge child plus what was laid out.
   */
  method ScrollFill(m: Manager, delta: int, itemCount: nat, sizes: seq<nat>, hasTargetScrollPosition: bool)
    returns (h: Cursor, laidOut: seq<Child>, attached: seq<Child>, consumed: int)
    requires Valid(m) && |sizes| == itemCount && delta != 0 && |m.children| > 0
    ensures h.circular == m.circular && h.layoutDirection == (if delta < 0 then DIRECTION_LEFT_TOP else DIRECTION_RIGHT_BOTTOM)
    ensures delta < 0 ==>
              consumed == m.axis.StartAfterPadding() - m.children[0].start + Fill.Extent(laidOut) &&
              (|laidOut| > 0 ==> laidOut[0].end == m.children[0].start) &&
              Fill.Contiguous(laidOut, DIRECTION_LEFT_TOP)
    ensures delta > 0 ==>
              consumed == m.children[|m.children| - 1].end - m.axis.EndAfterPadding() + Fill.Extent(laidOut) &&
              (|laidOut| > 0 ==> laidOut[0].start == m.children[|m.children| - 1].end) &&
              Fill.Contiguous(laidOut, DIRECTION_RIGHT_BOTTOM)
    ensures forall k :: 0 <= k < |laidOut| ==>
              0 <= laidOut[k].position < itemCount && Size(laidOut[k]) == sizes[laidOut[k].position]
    ensures !m.circular && delta < 0 &&
            !(0 <= m.children[0].position + (if LayoutToLeftTop(m) then 1 else -1) < itemCount) ==>
              laidOut == []
    ensures !m.circular && delta > 0 &&
            !(0 <= m.children[|m.children| - 1].position + (if LayoutToLeftTop(m) then -1 else 1) < itemCount) ==>
              laidOut == []
    ensures forall x :: x in attached ==> x in m.children || x in laidOut
  {
    var (extraStart, extraEnd) := ExtraSpaces(hasTargetScrollPosition, m.axis);
    var layoutToLeftTop := LayoutToLeftTop(m);
    h := m.helper.(shouldRecycle := true);
    if delta < 0 {
      var anchorView := m.children[0];
      h := UpdateForScrollingToLeftOrTop(h, delta, anchorView, anchorView.position, extraStart, layoutToLeftTop, m.axis, itemCount);
    } else {
      var anchorView := m.children[|m.children| - 1];
      h := UpdateForScrollingToRightOrBottom(h, delta, anchorView, anchorView.position, extraEnd, layoutToLeftTop, m.axis, itemCount);
    }
    var scrollingOffsetBeforeFilling := h.scrollingOffset.value;
    var filled;
    h, laidOut, attached, filled := Fill.Fill(h, itemCount, sizes, m.children, m.axis);
    consumed := scrollingOffsetBeforeFilling + filled;
  }

  /**
   * `scrollBy` (behind `scrollHorizontallyBy` / `scrollVerticallyBy`): fill
   * behind the edge being scrolled toward, then move the content by the
   * requested distance clamped to the consumable distance. Returns the new
   * state, the scrolled distance, the consumable distance and the children
   * laid out by the fill.
   */
  method ScrollBy(m: Manager, delta: int, itemCount: nat, sizes: seq<nat>, hasTargetScrollPosition: bool)
    returns (m': Manager, scrolled: int, consumed: int, laidOut: seq<Child>)
    requires Valid(m) && |sizes| == itemCount
    ensures Valid(m')
    ensures delta == 0 || |m.children| == 0 ==> m' == m && scrolled == 0 && laidOut == []
    // the scrolled distance never exceeds the request and keeps its direction
    ensures Abs(scrolled) <= Abs(delta)
    ensures scrolled != 0 ==> (scrolled < 0 <==> delta < 0)
    ensures delta != 0 && |m.children| > 0 && consumed < 0 ==> scrolled == 0
    ensures delta != 0 && |m.children| > 0 && consumed >= 0 ==> Abs(scrolled) == Min(Abs(delta), consumed)
    // what can be consumed: the hidden part of the edge child plus the new children behind it
    ensures delta < 0 && |m.children| > 0 ==>
              consumed == m.axis.StartAfterPadding() - m.children[0].start + Fill.Extent(laidOut)
    ensures delta > 0 && |m.children| > 0 ==>
              consumed == m.children[|m.children| - 1].end - m.axis.EndAfterPadding() + Fill.Extent(laidOut)
    // a non-circular carousel stops at the adapter's ends
    ensures !m.circular && delta < 0 && |m.children| > 0 &&
            !(0 <= m.children[0].position + (if LayoutToLeftTop(m) then 1 else -1) < itemCount) ==>
              laidOut == [] && Abs(scrolled) <= Abs(m.axis.StartAfterPadding() - m.children[0].start)
    ensures !m.circular && delta > 0 && |m.children| > 0 &&
            !(0 <= m.children[|m.children| - 1].position + (if LayoutToLeftTop(m) then -1 else 1) < itemCount) ==>
              laidOut == [] && Abs(scrolled) <= Abs(m.children[|m.children| - 1].end - m.axis.EndAfterPadding())
    // every child afterwards was attached before or laid out now, moved by the scrolled distance
    ensures forall x :: x in m'.children ==> Shift(x, scrolled) in m.children || Shift(x, scrolled) in laidOut
    ensures delta != 0 && |m.children| > 0 && consumed >= 0 ==> m'.helper.latestScrollDelta == scrolled
  {
    if delta == 0 || |m.children| == 0 {
      return m, 0, 0, [];
    }
    var h, attached;
    h, laidOut, attached, consumed := ScrollFill(m, delta, itemCount, sizes, hasTargetScrollPosition);
    if consumed < 0 {
      m' := m.(helper := h, children := attached);
      scrolled := 0;
      assert forall x :: x in m'.children ==> Shift(x, scrolled) == x;
      return;
    }
    scrolled := if Abs(delta) > consumed then consumed * h.layoutDirection else delta;
    m' := m.(helper := h.(latestScrollDelta := scrolled), children := OffsetChildren(attached, -scrolled));
    ShiftBack(attached, scrolled);
  }

  lemma ShiftBack(attached: seq<Child>, amount: int)
    ensures forall x :: x in OffsetChildren(attached, -amount) ==> Shift(x, amount) in attached
  {
    forall x | x in OffsetChildren(attached, -amount)
      ensures Shift(x, amount) in attached
    {
      var k :| 0 <= k < |attached| && OffsetChildren(attached, -amount)[k] == x;
      assert Shift(x, amount) == attached[k];
    }
  }

  /** Inside the reversed left run, view `k` and `k + 1` are placed children `n - 1 - k` and `n - 2 - k`. */
  lemma ReversedPair(L: seq<Child>, R: seq<Child>, k: int)
    requires 0 <= k && k + 1 < |L|
    ensures (Fill.Reverse(L) + R)[k] == L[|L| - 1 - k] && (Fill.Reverse(L) + R)[k + 1] == L[|L| - 2 - k]
  {
  }

  /** Inside the right run, view `k` and `k + 1` are its children `k - n` and `k - n + 1`. */
  lemma RightPair(L: seq<Child>, R: seq<Child>, k: int)
    requires |L| <= k && k + 1 < |L| + |R|
    ensures (Fill.Reverse(L) + R)[k] == R[k - |L|] && (Fill.Reverse(L) + R)[k + 1] == R[k - |L| + 1]
  {
  }

  /** Where the runs meet, the last view of the left run is its first placed child. */
  lemma SeamPair(L: seq<Child>, R: seq<Child>)
    requires |L| > 0 && |R| > 0
    ensures (Fill.Reverse(L) + R)[|L| - 1] == L[0] && (Fill.Reverse(L) + R)[|L|] == R[0]
  {
  }

  /**
   * Joining a run laid out toward left/top (reversed into view order) with
   * one laid out toward right/bottom from the same coordinate gives a
   * gap-free row whose positions step by `d` from left to right.
   */
  lemma CombineRuns(L: seq<Child>, R: seq<Child>, coordinate: int, d: Direction, circular: bool, itemCount: int)
    requires Fill.Contiguous(L, DIRECTION_LEFT_TOP) && Fill.Contiguous(R, DIRECTION_RIGHT_BOTTOM)
    requires |L| > 0 ==> L[0].end == coordinate
    requires |R| > 0 ==> R[0].start == coordinate
    requires forall k :: 0 <= k < |L| ==> 0 <= L[k].position < itemCount
    requires Fill.Stepping(L, Opposite(d), circular, itemCount) && Fill.Stepping(R, d, circular, itemCount)
    requires |L| > 0 && |R| > 0 ==> R[0].position == Step(L[0].position, d, circular, itemCount)
    ensures Fill.Contiguous(Fill.Reverse(L) + R, DIRECTION_RIGHT_BOTTOM)
    ensures Fill.Stepping(Fill.Reverse(L) + R, d, circular, itemCount)
  {
    var V := Fill.Reverse(L) + R;
    var n := |L|;
    assert |V| == |L| + |R|;
    forall k | 0 <= k < |V| - 1
      ensures V[k].end == V[k + 1].start
      ensures V[k + 1].position == Step(V[k].position, d, circular, itemCount)
    {
      if k + 1 < n {
        ReversedPair(L, R, k);
        var j := n - 2 - k;
        assert L[j + 1].end == L[j].start;
        assert L[j + 1].position == Step(L[j].position, Opposite(d), circular, itemCount);
        StepInverse(L[j].position, d, circular, itemCount);
      } else if k + 1 == n {
        SeamPair(L, R);
      } else {
        RightPair(L, R, k);
        var j := k - n;
        assert R[j + 1].start == R[j].end;
        assert R[j + 1].position == Step(R[j].position, d, circular, itemCount);
      }
    }
  }

  /** The direction adapter positions step in, left to right (top to bottom) on screen. */
  function ViewDirection(layoutToLeftTop: bool): Direction {
    if layoutToLeftTop then DIRECTION_HEAD else DIRECTION_TAIL
  }

  /** Every child shows an adapter item at its measured size. */
  ghost predicate ChildrenFit(children: seq<Child>, itemCount: int, sizes: seq<nat>) {
    |sizes| == itemCount &&
    forall k :: 0 <= k < |children| ==>
      0 <= children[k].position < itemCount && Size(children[k]) == sizes[children[k].position] && !children[k].removed
  }

  /**
   * What a layout around anchor `a` produces, in view order: a gap-free row
   * of measured adapter items stepping through the adapter; the anchor item
   * sits at the anchor coordinate whenever there was room to lay it out; in
   * circular mode the row reaches past both padded edges by the extra space.
   * A circular adapter whose items all have size zero gets an empty row.
   */
  ghost predicate LaidOutAround(children: seq<Child>, a: AnchorInfo, layoutToLeftTop: bool, extraStart: int, extraEnd: int,
                                circular: bool, itemCount: int, sizes: seq<nat>, axis: Axis) {
    && ChildrenFit(children, itemCount, sizes)
    && Fill.Contiguous(children, DIRECTION_RIGHT_BOTTOM)
    && Fill.Stepping(children, ViewDirection(layoutToLeftTop), circular, itemCount)
    && (Fill.CanCover(circular, sizes) && 0 <= a.position < itemCount && a.layoutToLeftTop &&
        a.coordinate - axis.StartAfterPadding() + extraStart > 0 ==>
          exists k :: 0 <= k < |children| && children[k].position == a.position && children[k].end == a.coordinate)
    && (Fill.CanCover(circular, sizes) && 0 <= a.position < itemCount && !a.layoutToLeftTop &&
        axis.EndAfterPadding() - a.coordinate + extraEnd > 0 ==>
          exists k :: 0 <= k < |children| && children[k].position == a.position && children[k].start == a.coordinate)
    // an anchor outside the adapter places nothing: the row is the second run, which starts next to it
    && (!(0 <= a.position < itemCount) && |children| > 0 ==>
          if a.layoutToLeftTop then
            children[0].start == a.coordinate &&
            children[0].position == Step(a.position, ViewDirection(layoutToLeftTop), circular, itemCount)
          else
            children[|children| - 1].end == a.coordinate &&
            children[|children| - 1].position == Step(a.position, Opposite(ViewDirection(layoutToLeftTop)), circular, itemCount))
    && (!Fill.CanCover(circular, sizes) ==> children == [])
    && (circular && |children| > 0 ==>
          children[0].start <= axis.StartAfterPadding() - extraStart &&
          children[|children| - 1].end >= axis.EndAfterPadding() + extraEnd)
  }

  /** A run laid out toward left/top from `coordinate`, starting with item `first`. */
  ghost predicate LeftRun(L: seq<Child>, coordinate: int, first: int, d: Direction, circular: bool,
                          itemCount: int, sizes: seq<nat>, reach: int) {
    && ChildrenFit(L, itemCount, sizes)
    && Fill.Contiguous(L, DIRECTION_LEFT_TOP)
    && Fill.Stepping(L, d, circular, itemCount)
    && (|L| > 0 ==> L[0].end == coordinate && L[0].position == first)
    && (Fill.CanCover(circular, sizes) && 0 <= first < itemCount && coordinate > reach ==> |L| > 0)
    && (circular && Fill.CanCover(circular, sizes) && |L| > 0 ==> L[|L| - 1].start <= reach)
    && (circular && Fill.CanCover(circular, sizes) && |L| == 0 ==> coordinate <= reach)
    && (!Fill.CanCover(circular, sizes) ==> L == [])
  }

  /** A run laid out toward right/bottom from `coordinate`, starting with item `first`. */
  ghost predicate RightRun(R: seq<Child>, coordinate: int, first: int, d: Direction, circular: bool,
                           itemCount: int, sizes: seq<nat>, reach: int) {
    && ChildrenFit(R, itemCount, sizes)
    && Fill.Contiguous(R, DIRECTION_RIGHT_BOTTOM)
    && Fill.Stepping(R, d, circular, itemCount)
    && (|R| > 0 ==> R[0].start == coordinate && R[0].position == first)
    && (Fill.CanCover(circular, sizes) && 0 <= first < itemCount && coordinate < reach ==> |R| > 0)
    && (circular && Fill.CanCover(circular, sizes) && |R| > 0 ==> R[|R| - 1].end >= reach)
    && (circular && Fill.CanCover(circular, sizes) && |R| == 0 ==> coordinate >= reach)
    && (!Fill.CanCover(circular, sizes) ==> R == [])
  }

  /** A layout-driven fill toward left/top from the anchor (after stepping off it when `move`). */
  method FillToLeftOrTop(h0: Cursor, position: int, coordinate: int, extraStart: nat, layoutToLeftTop: bool,
                         move: bool, itemCount: nat, sizes: seq<nat>, attached0: seq<Child>, axis: Axis)
    returns (h: Cursor, L: seq<Child>, attached: seq<Child>)
    requires |sizes| == itemCount && !h0.shouldRecycle
    requires h0.circular && !move && !(0 <= position < itemCount) ==> coordinate - axis.StartAfterPadding() + extraStart <= 0
    ensures h.circular == h0.circular && !h.shouldRecycle
    ensures attached == Fill.Reverse(L) + attached0
    ensures LeftRun(L, coordinate,
                    if move then Step(position, Opposite(ViewDirection(layoutToLeftTop)), h0.circular, itemCount) else position,
                    Opposite(ViewDirection(layoutToLeftTop)), h0.circular, itemCount, sizes,
                    axis.StartAfterPadding() - extraStart)
  {
    var c := UpdateForFillingToLeftOrTop(h0, position, coordinate, extraStart, layoutToLeftTop, axis);
    if move {
      c := MoveCurrentPosition(c, itemCount);
    }
    if Fetchable(c, itemCount) {
      var filled;
      h, L, attached, filled := Fill.Fill(c, itemCount, sizes, attached0, axis);
    } else {
      // off the adapter with no space to cover: the fill loop is not entered
      h, L, attached := c, [], attached0;
    }
  }

  /** A layout-driven fill toward right/bottom from the anchor (after stepping off it when `move`). */
  method FillToRightOrBottom(h0: Cursor, position: int, coordinate: int, extraEnd: nat, layoutToLeftTop: bool,
                             move: bool, itemCount: nat, sizes: seq<nat>, attached0: seq<Child>, axis: Axis)
    returns (h: Cursor, R: seq<Child>, attached: seq<Child>)
    requires |sizes| == itemCount && !h0.shouldRecycle
    requires h0.circular && !move && !(0 <= position < itemCount) ==> axis.EndAfterPadding() - coordinate + extraEnd <= 0
    ensures h.circular == h0.circular && !h.shouldRecycle
    ensures attached == attached0 + R
    ensures RightRun(R, coordinate,
                     if move then Step(position, ViewDirection(layoutToLeftTop), h0.circular, itemCount) else position,
                     ViewDirection(layoutToLeftTop), h0.circular, itemCount, sizes,
                     axis.EndAfterPadding() + extraEnd)
  {
    var c := UpdateForFillingToRightOrBottom(h0, position, coordinate, extraEnd, layoutToLeftTop, axis);
    if move {
      c := MoveCurrentPosition(c, itemCount);
    }
    if Fetchable(c, itemCount) {
      var filled;
      h, R, attached, filled := Fill.Fill(c, itemCount, sizes, attached0, axis);
    } else {
      // off the adapter with no space to cover: the fill loop is not entered
      h, R, attached := c, [], attached0;
    }
  }

  lemma RowFits(L: seq<Child>, R: seq<Child>, itemCount: int, sizes: seq<nat>)
    requires ChildrenFit(L, itemCount, sizes) && ChildrenFit(R, itemCount, sizes)
    ensures ChildrenFit(Fill.Reverse(L) + R, itemCount, sizes)
  {
    var children := Fill.Reverse(L) + R;
    forall k | 0 <= k < |children|
      ensures 0 <= children[k].position < itemCount && Size(children[k]) == sizes[children[k].position] && !children[k].removed
    {
      if k < |L| {
        assert children[k] == L[|L| - 1 - k];
      } else {
        assert children[k] == R[k - |L|];
      }
    }
  }

  /** The row's first and last child come from the runs' far ends, or from the other run when one is empty. */
  lemma RowEnds(L: seq<Child>, R: seq<Child>)
    requires |L| + |R| > 0
    ensures var children := Fill.Reverse(L) + R;
            children[0] == (if |L| > 0 then L[|L| - 1] else R[0]) &&
            children[|children| - 1] == (if |R| > 0 then R[|R| - 1] else L[0])
  {
  }

  /** The first child of a non-empty left run ends up in the row just before the right run. */
  lemma LeftAnchorInRow(L: seq<Child>, R: seq<Child>, position: int, coordinate: int)
    requires |L| > 0 && L[0].position == position && L[0].end == coordinate
    ensures var children := Fill.Reverse(L) + R;
            exists k :: 0 <= k < |children| && children[k].position == position && children[k].end == coordinate
  {
    assert (Fill.Reverse(L) + R)[|L| - 1] == L[0];
  }

  /** The first child of a non-empty right run ends up in the row just after the left run. */
  lemma RightAnchorInRow(L: seq<Child>, R: seq<Child>, position: int, coordinate: int)
    requires |R| > 0 && R[0].position == position && R[0].start == coordinate
    ensures var children := Fill.Reverse(L) + R;
            exists k :: 0 <= k < |children| && children[k].position == position && children[k].start == coordinate
  {
    assert |Fill.Reverse(L)| == |L|;
    assert (Fill.Reverse(L) + R)[|L|] == R[0];
  }

  /** When both runs reach their bounds (an empty run already starting beyond it), so does the row. */
  lemma RowCovers(L: seq<Child>, R: seq<Child>, coordinate: int, lo: int, hi: int)
    requires |L| + |R| > 0
    requires |L| > 0 ==> L[0].end == coordinate && L[|L| - 1].start <= lo
    requires |L| == 0 ==> coordinate <= lo
    requires |R| > 0 ==> R[0].start == coordinate && R[|R| - 1].end >= hi
    requires |R| == 0 ==> coordinate >= hi
    ensures var children := Fill.Reverse(L) + R;
            children[0].start <= lo && children[|children| - 1].end >= hi
  {
    RowEnds(L, R);
  }

  /** The two runs around an anchor make the row `LaidOutAround` promises. */
  lemma AssembleRow(L: seq<Child>, R: seq<Child>, a: AnchorInfo, layoutToLeftTop: bool, extraStart: int, extraEnd: int,
                    circular: bool, itemCount: int, sizes: seq<nat>, axis: Axis)
    requires LeftRun(L, a.coordinate, if a.layoutToLeftTop then a.position
                                      else Step(a.position, Opposite(ViewDirection(layoutToLeftTop)), circular, itemCount),
                     Opposite(ViewDirection(layoutToLeftTop)), circular, itemCount, sizes, axis.StartAfterPadding() - extraStart)
    requires RightRun(R, a.coordinate, if a.layoutToLeftTop then Step(a.position, ViewDirection(layoutToLeftTop), circular, itemCount)
                                       else a.position,
                      ViewDirection(layoutToLeftTop), circular, itemCount, sizes, axis.EndAfterPadding() + extraEnd)
    ensures LaidOutAround(Fill.Reverse(L) + R, a, layoutToLeftTop, extraStart, extraEnd, circular, itemCount, sizes, axis)
  {
    var d := ViewDirection(layoutToLeftTop);
    var lo, hi := axis.StartAfterPadding() - extraStart, axis.EndAfterPadding() + extraEnd;
    if !a.layoutToLeftTop && 0 <= a.position < itemCount {
      StepInverse(a.position, d, circular, itemCount);
    }
    CombineRuns(L, R, a.coordinate, d, circular, itemCount);
    RowFits(L, R, itemCount, sizes);
    if 0 <= a.position < itemCount {
      if Fill.CanCover(circular, sizes) && a.layoutToLeftTop && a.coordinate > lo {
        LeftAnchorInRow(L, R, a.position, a.coordinate);
      }
      if Fill.CanCover(circular, sizes) && !a.layoutToLeftTop && a.coordinate < hi {
        RightAnchorInRow(L, R, a.position, a.coordinate);
      }
    } else {
      // the first run would start with the anchor item, which is not in the adapter
      if a.layoutToLeftTop {
        assert L == [];
      } else {
        assert R == [];
      }
    }
    if circular && |L| + |R| > 0 {
      RowCovers(L, R, a.coordinate, lo, hi);
    }
  }

  /**
   * The space the first fill of `onLayoutChildren` has to cover from the
   * anchor: down to the start padding toward left/top, up to the end
   * padding toward right/bottom, plus that side's extra space.
   */
  function MainSpace(a: AnchorInfo, extraStart: int, extraEnd: int, axis: Axis): int {
    if a.layoutToLeftTop then a.coordinate - axis.StartAfterPadding() + extraStart
    else axis.EndAfterPadding() - a.coordinate + extraEnd
  }

  /** RecyclerView's refusal to fetch a position outside the adapter. */
  const INVALID_ITEM_POSITION: string := "Invalid item position"

  /**
   * The two fills of `onLayoutChildren`: first toward the anchor's side from
   * the anchor, then toward the other side from the item next to it. The
   * children were detached before, so the row is rebuilt from scratch.
   * A kept anchor may lie past a shrunk adapter. A linear first fill then
   * has no next item; a circular one fetches the anchor position and
   * RecyclerView throws, unless there is no space to fill at all.
   */
  method LayoutAround(h0: Cursor, a: AnchorInfo, layoutToLeftTop: bool, extraStart: nat, extraEnd: nat,
                      itemCount: nat, sizes: seq<nat>, axis: Axis)
    returns (r: Result<(Cursor, seq<Child>), string>)
    requires |sizes| == itemCount && itemCount > 0 && !h0.shouldRecycle
    ensures r.Err? <==> h0.circular && !(0 <= a.position < itemCount) && MainSpace(a, extraStart, extraEnd, axis) > 0
    ensures r.Ok? ==> r.value.0.circular == h0.circular && !r.value.0.shouldRecycle
    ensures r.Ok? ==> LaidOutAround(r.value.1, a, layoutToLeftTop, extraStart, extraEnd, h0.circular, itemCount, sizes, axis)
  {
    if h0.circular && !(0 <= a.position < itemCount) && MainSpace(a, extraStart, extraEnd, axis) > 0 {
      return Err(INVALID_ITEM_POSITION);
    }
    var h, L, R, attached, children;
    if a.layoutToLeftTop {
      h, L, attached := FillToLeftOrTop(h0, a.position, a.coordinate, extraStart, layoutToLeftTop, false, itemCount, sizes, [], axis);
      h, R, children := FillToRightOrBottom(h, a.position, a.coordinate, extraEnd, layoutToLeftTop, true, itemCount, sizes, attached, axis);
    } else {
      h, R, attached := FillToRightOrBottom(h0, a.position, a.coordinate, extraEnd, layoutToLeftTop, false, itemCount, sizes, [], axis);
      h, L, children := FillToLeftOrTop(h, a.position, a.coordinate, extraStart, layoutToLeftTop, true, itemCount, sizes, attached, axis);
    }
    assert children == Fill.Reverse(L) + R;
    AssembleRow(L, R, a, layoutToLeftTop, extraStart, extraEnd, h0.circular, itemCount, sizes, axis);
    r := Ok((h, children));
  }

  /** The anchor of the previous layout is reused as it is: it is valid and nothing is pending. */
  predicate KeepsAnchor(m: Manager) {
    m.anchor.isValid && m.pendingSavedState.None? && m.pendingPosition == NO_POSITION
  }

  /**
   * The anchor step of `onLayoutChildren`: a pending saved anchor becomes
   * the pending position, and the anchor is recomputed when it is stale or
   * anything is pending. Returns the anchor, validated, and the pending
   * position that survives. A kept anchor is not checked against the
   * adapter, which may have shrunk since it was chosen.
   */
  method ChooseAnchor(m: Manager, itemCount: nat) returns (anchor: AnchorInfo, pendingPosition: int)
    requires itemCount > 0
    ensures anchor.isValid
    ensures !KeepsAnchor(m) ==> 0 <= anchor.position < itemCount
    ensures m.pendingSavedState.Some? && m.pendingSavedState.value.HasValidAnchor() &&
            0 <= m.pendingSavedState.value.anchorPosition < itemCount ==>
              var s := m.pendingSavedState.value;
              anchor.position == s.anchorPosition && anchor.layoutToLeftTop == s.layoutToLeftTop &&
              (s.layoutToLeftTop ==> m.axis.EndAfterPadding() - anchor.coordinate == s.anchorOffset) &&
              (!s.layoutToLeftTop ==> anchor.coordinate - m.axis.StartAfterPadding() == s.anchorOffset)
    ensures !(m.pendingSavedState.Some? && m.pendingSavedState.value.HasValidAnchor()) &&
            m.pendingPosition != NO_POSITION && 0 <= m.pendingPosition < itemCount ==>
              anchor.position == m.pendingPosition && anchor.layoutToLeftTop == LayoutToLeftTop(m) &&
              anchor.coordinate == StartingEdge(LayoutToLeftTop(m), m.axis)
    ensures pendingPosition != NO_POSITION ==> 0 <= pendingPosition < itemCount && anchor.position == pendingPosition
    ensures KeepsAnchor(m) ==> anchor == m.anchor && pendingPosition == NO_POSITION
  {
    pendingPosition := m.pendingPosition;
    if m.pendingSavedState.Some? && m.pendingSavedState.value.HasValidAnchor() {
      pendingPosition := m.pendingSavedState.value.anchorPosition;
    }
    anchor := m.anchor;
    if !anchor.isValid || m.pendingSavedState.Some? || pendingPosition != NO_POSITION {
      anchor, pendingPosition := UpdateAnchorInfoForLayout(Invalidate(anchor), pendingPosition, m.pendingSavedState,
                                                           LayoutToLeftTop(m), itemCount, m.children, m.axis);
      anchor := anchor.(isValid := true);
    }
  }

  /**
   * `onLayoutChildren`: with no items every child goes; otherwise a pending
   * saved anchor becomes the pending position, the anchor is recomputed when
   * it is stale or anything is pending, and the row is rebuilt around it
   * with recycling off. Pending state stays until `onLayoutCompleted`.
   */
  method OnLayoutChildren(m: Manager, itemCount: nat, sizes: seq<nat>, hasTargetScrollPosition: bool)
    returns (r: Result<Manager, string>)
    requires Valid(m) && |sizes| == itemCount
    ensures r.Ok? ==> Valid(r.value)
    ensures r.Ok? ==> r.value == m.(children := r.value.children, anchor := r.value.anchor,
                                    pendingPosition := r.value.pendingPosition, helper := r.value.helper)
    ensures itemCount == 0 ==> r == Ok(m.(children := []))
    // only a kept anchor past a shrunk circular adapter fails, when the first fill has space to cover
    ensures r.Err? <==>
              var (extraStart, extraEnd) := ExtraSpaces(hasTargetScrollPosition, m.axis);
              itemCount > 0 && m.circular && KeepsAnchor(m) && !(0 <= m.anchor.position < itemCount) &&
              MainSpace(m.anchor, extraStart, extraEnd, m.axis) > 0
    ensures itemCount > 0 && r.Ok? ==> r.value.anchor.isValid && !r.value.helper.shouldRecycle
    ensures itemCount > 0 && !KeepsAnchor(m) ==> r.Ok? && 0 <= r.value.anchor.position < itemCount
    ensures itemCount > 0 && r.Ok? ==>
              var (extraStart, extraEnd) := ExtraSpaces(hasTargetScrollPosition, m.axis);
              LaidOutAround(r.value.children, r.value.anchor, LayoutToLeftTop(m), extraStart, extraEnd, m.circular, itemCount, sizes, m.axis)
    // a restored anchor puts its item back at the same distance from the same padding edge
    ensures itemCount > 0 && m.pendingSavedState.Some? && m.pendingSavedState.value.HasValidAnchor() &&
            0 <= m.pendingSavedState.value.anchorPosition < itemCount ==>
              var s := m.pendingSavedState.value;
              r.Ok? && r.value.anchor.position == s.anchorPosition && r.value.anchor.layoutToLeftTop == s.layoutToLeftTop &&
              (s.layoutToLeftTop ==> m.axis.EndAfterPadding() - r.value.anchor.coordinate == s.anchorOffset) &&
              (!s.layoutToLeftTop ==> r.value.anchor.coordinate - m.axis.StartAfterPadding() == s.anchorOffset)
    // a position to scroll to is laid out at the starting padding edge
    ensures itemCount > 0 && !(m.pendingSavedState.Some? && m.pendingSavedState.value.HasValidAnchor()) &&
            m.pendingPosition != NO_POSITION && 0 <= m.pendingPosition < itemCount ==>
              r.Ok? && r.value.anchor.position == m.pendingPosition && r.value.anchor.layoutToLeftTop == LayoutToLeftTop(m) &&
              r.value.anchor.coordinate == StartingEdge(LayoutToLeftTop(m), m.axis)
    // an unusable pending position is dropped; a usable one is where the layout starts
    ensures itemCount > 0 && r.Ok? && r.value.pendingPosition != NO_POSITION ==>
              0 <= r.value.pendingPosition < itemCount && r.value.anchor.position == r.value.pendingPosition
    // a valid anchor with nothing pending is kept, whether or not it is still in the adapter
    ensures itemCount > 0 && r.Ok? && KeepsAnchor(m) ==> r.value.anchor == m.anchor
  {
    if itemCount == 0 {
      return Ok(m.(children := []));
    }
    var anchor, pendingPosition := ChooseAnchor(m, itemCount);
    var layoutToLeftTop := LayoutToLeftTop(m);
    var h := UpdateLayoutDirectionFromLatestScrollDelta(m.helper.(shouldRecycle := false));
    var (extraStart, extraEnd) := ExtraSpaces(hasTargetScrollPosition, m.axis);
    var row := LayoutAround(h, anchor, layoutToLeftTop, extraStart, extraEnd, itemCount, sizes, m.axis);
    match row {
      case Err(e) =>
        r := Err(e);
      case Ok((h', children)) =>
        r := Ok(m.(children := children, anchor := anchor, pendingPosition := pendingPosition, helper := h'));
    }
  }
}
