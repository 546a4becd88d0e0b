/**
 * Recycling of children that scrolled out of the retained window
 * (`recycleChildren`, `recycleChildrenFromLeftOrTop`,
 * `recycleChildrenFromRightOrBottom`, `recycleChildrenInRange` in
 * CarouselLayoutManager.kt). Children are in view order; a transformed
 * edge is taken to equal the decorated edge.
 */
module Recycle {
  import opened Wrappers
  import opened Kotlin
  import opened LayoutHelper

  /** The indices `recycleChildrenInRange(start, end)` may remove are attached children. */
  predicate RangeInBounds(count: int, start: int, end: int) {
    if end > start then 0 <= start && end <= count
    else if end < start then -1 <= end && start < count
    else true
  }

  /** Lowest index removed by `recycleChildrenInRange(start, end)`. */
  function RangeLow(start: int, end: int): int {
    if end >= start then start else end + 1
  }

  /** One past the highest index removed by `recycleChildrenInRange(start, end)`. */
  function RangeHigh(start: int, end: int): int {
    if end >= start then end else start + 1
  }

  /** Removing the child at index `i`. */
  function RemoveAt(s: seq<Child>, i: int): (r: seq<Child>)
    requires 0 <= i < |s|
    ensures |r| == |s| - 1
  {
    s[..i] + s[i + 1..]
  }

  /**
   * `recycleChildrenInRange`: `start` inclusive, `end` exclusive, in either
   * order. Children are removed one by one from the highest index down, so
   * the indices still to be removed never shift; the result is the children
   * with exactly that block cut out.
   */
  method RecycleChildrenInRange(children: seq<Child>, start: int, end: int) returns (r: seq<Child>)
    requires RangeInBounds(|children|, start, end)
    ensures start == end ==> r == children
    ensures start != end ==> 0 <= RangeLow(start, end) < RangeHigh(start, end) <= |children|
    ensures start != end ==> r == children[..RangeLow(start, end)] + children[RangeHigh(start, end)..]
    ensures |r| == |children| - Abs(end - start)
  {
    r := children;
    if start == end {
      return;
    }
    var lo, hi := RangeLow(start, end), RangeHigh(start, end);
    var i := hi - 1;
    assert children[..i + 1] + children[hi..] == children;
    while i >= lo
      invariant lo - 1 <= i <= hi - 1
      invariant r == children[..i + 1] + children[hi..]
    {
      assert children[..i + 1][..i] == children[..i];
      r := RemoveAt(r, i);
      i := i - 1;
    }
  }

  /**
   * `recycleChildrenFromLeftOrTop` (after scrolling toward right/bottom):
   * with a non-negative budget, remove the leading children up to the first
   * one whose end passes the budget; if no child passes it, nothing is
   * removed. A negative budget (or none) removes nothing.
   */
  method RecycleFromLeftOrTop(children: seq<Child>, scrollingOffset: int) returns (r: seq<Child>)
    ensures scrollingOffset < 0 ==> r == children
    ensures exists k :: 0 <= k <= |children| && r == children[k..]
    ensures forall k :: 0 <= k < |children| - |r| ==> children[k].end <= scrollingOffset
    ensures |r| < |children| ==> 0 < |r| && r[0].end > scrollingOffset
    ensures (forall k :: 0 <= k < |children| ==> children[k].end <= scrollingOffset) ==> r == children
  {
    r := children;
    if scrollingOffset < 0 {
      assert r == children[0..];
      return;
    }
    var limit := scrollingOffset;
    var i := 0;
    while i < |children|
      invariant 0 <= i <= |children|
      invariant forall k :: 0 <= k < i ==> children[k].end <= limit
    {
      if children[i].end > limit {
        r := RecycleChildrenInRange(children, 0, i);
        assert r == children[i..];
        return;
      }
      i := i + 1;
    }
    assert r == children[0..];
  }

  /**
   * `recycleChildrenFromRightOrBottom` (after scrolling toward left/top): the
   * limit is the parent's end less the budget; remove the trailing children
   * after the last one whose start is before the limit.
   */
  method RecycleFromRightOrBottom(children: seq<Child>, scrollingOffset: int, axis: Axis) returns (r: seq<Child>)
    ensures scrollingOffset < 0 ==> r == children
    ensures exists k :: 0 <= k <= |children| && r == children[..k]
    ensures forall k :: |r| <= k < |children| ==> children[k].start >= axis.End() - scrollingOffset
    ensures |r| < |children| && scrollingOffset >= 0 ==> 0 < |r| && r[|r| - 1].start < axis.End() - scrollingOffset
    ensures (forall k :: 0 <= k < |children| ==> children[k].start >= axis.End() - scrollingOffset) ==> r == children
  {
    r := children;
    if scrollingOffset < 0 {
      assert r == children[..|children|];
      return;
    }
    var limit := axis.End() - scrollingOffset;
    var i := |children| - 1;
    while i >= 0
      invariant -1 <= i <= |children| - 1
      invariant forall k :: i < k < |children| ==> children[k].start >= limit
    {
      if children[i].start < limit {
        r := RecycleChildrenInRange(children, |children| - 1, i);
        assert r == children[..i + 1];
        return;
      }
      i := i - 1;
    }
    assert r == children[..|children|];
  }

  /**
   * `recycleChildren`: recycle behind the direction the cursor is filling,
   * only when recycling is on. Filling toward right/bottom drops the leading
   * children that end at or before the scrolling offset, up to the first
   * that passes it; filling toward left/top drops the trailing children that
   * start at or after the parent's end less the offset, back to the last
   * that starts before it.
   */
  method RecycleChildren(c: Cursor, children: seq<Child>, axis: Axis) returns (r: seq<Child>)
    ensures !c.shouldRecycle || c.scrollingOffset.None? ==> r == children
    ensures c.scrollingOffset.Some? && c.scrollingOffset.value < 0 ==> r == children
    ensures c.layoutDirection == DIRECTION_RIGHT_BOTTOM ==> exists k :: 0 <= k <= |children| && r == children[k..]
    ensures c.layoutDirection == DIRECTION_LEFT_TOP ==> exists k :: 0 <= k <= |children| && r == children[..k]
    ensures c.shouldRecycle && c.scrollingOffset.Some? && c.layoutDirection == DIRECTION_RIGHT_BOTTOM ==>
              var limit := c.scrollingOffset.value;
              (forall k :: 0 <= k < |children| - |r| ==> children[k].end <= limit) &&
              (|r| < |children| ==> 0 < |r| && r[0].end > limit)
    ensures c.shouldRecycle && c.scrollingOffset.Some? && c.layoutDirection == DIRECTION_LEFT_TOP ==>
              var limit := axis.End() - c.scrollingOffset.value;
              (forall k :: |r| <= k < |children| ==> children[k].start >= limit) &&
              (|r| < |children| ==> 0 < |r| && r[|r| - 1].start < limit)
  {
    if !c.shouldRecycle || c.scrollingOffset.None? {
      r := children;
      assert r == children[0..] && r == children[..|children|];
      return;
    }
    if c.layoutDirection == DIRECTION_RIGHT_BOTTOM {
      r := RecycleFromLeftOrTop(children, c.scrollingOffset.value);
    } else {
      r := RecycleFromRightOrBottom(children, c.scrollingOffset.value, axis);
    }
  }
}
