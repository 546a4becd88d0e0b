/**
 * What the carousel layout manager remembers between layouts: the
 * parcelable `SavedState`, the `AnchorInfo` a layout starts from, and the
 * choice of the anchor child among the attached ones (CarouselLayoutManager.kt).
 */
module Anchor {
  import opened Wrappers
  import opened Kotlin
  import opened LayoutHelper

  const INVALID_OFFSET: int := INT_MIN
  const INT_TRUE: int := 1
  const INT_FALSE: int := 0

  /** `SavedState`: the anchor's adapter position, its distance from the padding edge, and the layout side. */
  datatype SavedState = SavedState(anchorPosition: int, anchorOffset: int, layoutToLeftTop: bool) {
    predicate HasValidAnchor() {
      anchorPosition != NO_POSITION && anchorOffset != INVALID_OFFSET
    }
  }

  const DefaultSavedState: SavedState := SavedState(NO_POSITION, INVALID_OFFSET, false)

  /** `invalidateAnchor`: forget the anchor, keep the layout side. */
  function InvalidateAnchor(s: SavedState): (r: SavedState)
    ensures !r.HasValidAnchor()
    ensures r.layoutToLeftTop == s.layoutToLeftTop
    ensures r == DefaultSavedState.(layoutToLeftTop := s.layoutToLeftTop)
  {
    s.(anchorPosition := NO_POSITION, anchorOffset := INVALID_OFFSET)
  }

  /** `writeToParcel`: three ints in field order, the flag as 1 or 0. */
  function WriteToParcel(s: SavedState): (p: seq<int>)
    ensures |p| == 3 && p[0] == s.anchorPosition && p[1] == s.anchorOffset
    ensures p[2] == INT_TRUE <==> s.layoutToLeftTop
  {
    [s.anchorPosition, s.anchorOffset, if s.layoutToLeftTop then INT_TRUE else INT_FALSE]
  }

  /** `Parcel.readInt` past the written data yields 0. */
  function ReadInt(p: seq<int>, i: nat): int {
    if i < |p| then p[i] else 0
  }

  /** `createFromParcel`: read the three ints back; any flag other than 1 reads as false. */
  function CreateFromParcel(p: seq<int>): (s: SavedState)
    ensures s.layoutToLeftTop <==> ReadInt(p, 2) == INT_TRUE
    ensures s.anchorPosition == ReadInt(p, 0) && s.anchorOffset == ReadInt(p, 1)
  {
    SavedState(ReadInt(p, 0), ReadInt(p, 1), ReadInt(p, 2) == INT_TRUE)
  }

  /** A saved state survives the parcel. */
  lemma ParcelRoundTrip(s: SavedState)
    ensures CreateFromParcel(WriteToParcel(s)) == s
  {
  }

  /** `AnchorInfo`. */
  datatype AnchorInfo = AnchorInfo(position: int, coordinate: int, layoutToLeftTop: bool, isValid: bool)

  const InitialAnchorInfo: AnchorInfo := AnchorInfo(NO_POSITION, INVALID_OFFSET, false, false)

  /** `invalidate`: forget position and coordinate, keep the layout side. */
  function Invalidate(a: AnchorInfo): (r: AnchorInfo)
    ensures !r.isValid && r.position == NO_POSITION && r.coordinate == INVALID_OFFSET
    ensures r.layoutToLeftTop == a.layoutToLeftTop
  {
    a.(position := NO_POSITION, coordinate := INVALID_OFFSET, isValid := false)
  }

  /** The padding edge a layout toward `layoutToLeftTop` starts from. */
  function StartingEdge(layoutToLeftTop: bool, axis: Axis): int {
    if layoutToLeftTop then axis.EndAfterPadding() else axis.StartAfterPadding()
  }

  /** `updateFromNothing`: item 0 at the starting padding edge. */
  function UpdateFromNothing(a: AnchorInfo, layoutToLeftTop: bool, axis: Axis): (r: AnchorInfo)
    ensures r.position == 0 && r.layoutToLeftTop == layoutToLeftTop
    ensures layoutToLeftTop ==> r.coordinate == axis.EndAfterPadding()
    ensures !layoutToLeftTop ==> r.coordinate == axis.StartAfterPadding()
    ensures r.isValid == a.isValid
  {
    a.(position := 0, layoutToLeftTop := layoutToLeftTop, coordinate := StartingEdge(layoutToLeftTop, axis))
  }

  /**
   * `updateFromPending`: only a pending position inside the adapter is used
   * (`None` stands for the source's `false`, anchor untouched). A saved state
   * with a valid anchor also restores the side and the offset from the
   * padding edge; otherwise the anchor sits on the current starting edge.
   */
  function UpdateFromPending(a: AnchorInfo, pendingPosition: int, pendingSavedState: Option<SavedState>,
                             layoutToLeftTop: bool, itemCount: int, axis: Axis): (r: Option<AnchorInfo>)
    ensures r.Some? <==> pendingPosition != NO_POSITION && 0 <= pendingPosition < itemCount
    ensures r.Some? ==> r.value.position == pendingPosition && r.value.isValid == a.isValid
    ensures r.Some? && pendingSavedState.Some? && pendingSavedState.value.HasValidAnchor() ==>
              var s := pendingSavedState.value;
              r.value.layoutToLeftTop == s.layoutToLeftTop &&
              (s.layoutToLeftTop ==> axis.EndAfterPadding() - r.value.coordinate == s.anchorOffset) &&
              (!s.layoutToLeftTop ==> r.value.coordinate - axis.StartAfterPadding() == s.anchorOffset)
    ensures r.Some? && !(pendingSavedState.Some? && pendingSavedState.value.HasValidAnchor()) ==>
              r.value.layoutToLeftTop == layoutToLeftTop && r.value.coordinate == StartingEdge(layoutToLeftTop, axis)
  {
    if pendingPosition == NO_POSITION then None
    else if pendingPosition < 0 || pendingPosition >= itemCount then None
    else if pendingSavedState.Some? && pendingSavedState.value.HasValidAnchor() then
      var s := pendingSavedState.value;
      Some(a.(position := pendingPosition, layoutToLeftTop := s.layoutToLeftTop,
              coordinate := if s.layoutToLeftTop then axis.EndAfterPadding() - s.anchorOffset
                            else axis.StartAfterPadding() + s.anchorOffset))
    else
      Some(a.(position := pendingPosition, layoutToLeftTop := layoutToLeftTop,
              coordinate := StartingEdge(layoutToLeftTop, axis)))
  }

  /** `updateFromView`: the anchor child's far edge (plus the change of total space) or its near edge. */
  function UpdateFromView(a: AnchorInfo, view: Child, layoutToLeftTop: bool, axis: Axis): (r: AnchorInfo)
    ensures r.position == view.position && r.layoutToLeftTop == layoutToLeftTop && r.isValid == a.isValid
    ensures layoutToLeftTop ==> r.coordinate - axis.totalSpaceChange == view.end
    ensures !layoutToLeftTop ==> r.coordinate == view.start
  {
    a.(position := view.position, layoutToLeftTop := layoutToLeftTop,
       coordinate := if layoutToLeftTop then view.end + axis.totalSpaceChange else view.start)
  }

  /**
   * `onSaveInstanceState`: a pending saved state is handed back as is.
   * Otherwise child 0 is the anchor (the child closest to the right/bottom
   * edge in a left/top layout, else the one closest to the left/top edge),
   * stored as its distance from the padding edge the layout starts at.
   */
  function OnSaveInstanceState(pendingSavedState: Option<SavedState>, layoutToLeftTop: bool,
                               children: seq<Child>, axis: Axis): (r: SavedState)
    ensures pendingSavedState.Some? ==> r == pendingSavedState.value
    ensures pendingSavedState.None? ==> r.layoutToLeftTop == layoutToLeftTop
    ensures pendingSavedState.None? && |children| == 0 ==> !r.HasValidAnchor()
    ensures pendingSavedState.None? && |children| > 0 ==>
              r.anchorPosition == children[0].position &&
              (layoutToLeftTop ==> r.anchorOffset == axis.EndAfterPadding() - children[0].end) &&
              (!layoutToLeftTop ==> r.anchorOffset == children[0].start - axis.StartAfterPadding())
  {
    if pendingSavedState.Some? then pendingSavedState.value
    else
      var s := DefaultSavedState.(layoutToLeftTop := layoutToLeftTop);
      if |children| > 0 then
        var view := children[0];
        s.(anchorPosition := view.position,
           anchorOffset := if layoutToLeftTop then axis.EndAfterPadding() - view.end
                           else view.start - axis.StartAfterPadding())
      else InvalidateAnchor(s)
  }

  /** `onRestoreInstanceState`: keep the state pending; a pending scroll position wins over its anchor. */
  function OnRestoreInstanceState(state: SavedState, pendingPosition: int): (r: SavedState)
    ensures pendingPosition == NO_POSITION ==> r == state
    ensures pendingPosition != NO_POSITION ==> !r.HasValidAnchor() && r.layoutToLeftTop == state.layoutToLeftTop
  {
    if pendingPosition != NO_POSITION then InvalidateAnchor(state) else state
  }

  /**
   * Saving with a child attached and restoring into an adapter that still
   * holds its item puts the anchor back on the same edge of the same item:
   * the first layout after restoring starts exactly where the saved one was.
   */
  lemma SaveRestoreKeepsAnchor(layoutToLeftTop: bool, children: seq<Child>, axis: Axis, itemCount: int, a: AnchorInfo)
    requires |children| > 0 && 0 <= children[0].position < itemCount
    requires IsPixel(children[0].start) && IsPixel(children[0].end)
    requires IsPixel(axis.StartAfterPadding()) && IsPixel(axis.EndAfterPadding())
    ensures var saved := CreateFromParcel(WriteToParcel(OnSaveInstanceState(None, layoutToLeftTop, children, axis)));
            var restored := OnRestoreInstanceState(saved, NO_POSITION);
            saved.HasValidAnchor() &&
            var r := UpdateFromPending(a, restored.anchorPosition, Some(restored), layoutToLeftTop, itemCount, axis);
            r.Some? && r.value.position == children[0].position &&
            r.value.layoutToLeftTop == layoutToLeftTop &&
            r.value.coordinate == (if layoutToLeftTop then children[0].end else children[0].start)
  {
    ParcelRoundTrip(OnSaveInstanceState(None, layoutToLeftTop, children, axis));
  }

  // ---- choosing the anchor child (`findAnchorView`) ----

  predicate BeforeStart(ch: Child, axis: Axis) {
    ch.end <= axis.StartAfterPadding() && ch.start < axis.StartAfterPadding()
  }

  predicate AfterEnd(ch: Child, axis: Axis) {
    ch.start >= axis.EndAfterPadding() && ch.end > axis.EndAfterPadding()
  }

  /**
   * How good an anchor a child is: 0 never (outside the adapter or being
   * removed), 1 a child within the padded bounds, 2 a child out of bounds on
   * the side the layout grows toward, 3 a child out of bounds on the other side.
   */
  function Rank(ch: Child, itemCount: int, layoutToLeftTop: bool, axis: Axis): (k: int)
    ensures 0 <= k <= 3
    ensures k == 0 <==> !(0 <= ch.position < itemCount) || ch.removed
  {
    if !(0 <= ch.position < itemCount) || ch.removed then 0
    else if !BeforeStart(ch, axis) && !AfterEnd(ch, axis) then 1
    else if (if layoutToLeftTop then AfterEnd(ch, axis) else BeforeStart(ch, axis)) then 3
    else 2
  }

  /**
   * Index `i` is the anchor child: it has the best non-zero rank; among
   * ranks 1 and 2 the first child wins, among rank 3 the last one.
   */
  predicate IsAnchorChoice(children: seq<Child>, itemCount: int, layoutToLeftTop: bool, axis: Axis, i: int) {
    0 <= i < |children| &&
    var k := Rank(children[i], itemCount, layoutToLeftTop, axis);
    k != 0 &&
    (forall j :: 0 <= j < |children| && Rank(children[j], itemCount, layoutToLeftTop, axis) != 0 ==>
       k <= Rank(children[j], itemCount, layoutToLeftTop, axis)) &&
    (k != 3 ==> forall j :: 0 <= j < i ==> Rank(children[j], itemCount, layoutToLeftTop, axis) != k) &&
    (k == 3 ==> forall j :: i < j < |children| ==> Rank(children[j], itemCount, layoutToLeftTop, axis) != 3)
  }

  /** No child can be the anchor. */
  predicate NoAnchor(children: seq<Child>, itemCount: int, layoutToLeftTop: bool, axis: Axis) {
    forall j :: 0 <= j < |children| ==> Rank(children[j], itemCount, layoutToLeftTop, axis) == 0
  }

  /** At most one index is the anchor child. */
  lemma AnchorChoiceUnique(children: seq<Child>, itemCount: int, layoutToLeftTop: bool, axis: Axis, i: int, j: int)
    requires IsAnchorChoice(children, itemCount, layoutToLeftTop, axis, i)
    requires IsAnchorChoice(children, itemCount, layoutToLeftTop, axis, j)
    ensures i == j
  {
  }

  /**
   * `findAnchorView`: one pass over the children, stopping at the first
   * child within bounds, remembering the first out-of-bounds child on one
   * side and the last on the other. A child being removed is never chosen.
   */
  method FindAnchorView(children: seq<Child>, itemCount: int, layoutToLeftTop: bool, axis: Axis) returns (r: Option<nat>)
    ensures r.None? <==> NoAnchor(children, itemCount, layoutToLeftTop, axis)
    ensures r.Some? ==> IsAnchorChoice(children, itemCount, layoutToLeftTop, axis, r.value)
    ensures r.Some? ==> !children[r.value].removed && 0 <= children[r.value].position < itemCount
  {
    if |children| == 0 {
      return None;
    }
    var second: Option<nat> := None;
    var third: Option<nat> := None;
    var i := 0;
    while i < |children|
      invariant 0 <= i <= |children|
      invariant forall j :: 0 <= j < i ==> Rank(children[j], itemCount, layoutToLeftTop, axis) != 1
      invariant second.None? <==> forall j :: 0 <= j < i ==> Rank(children[j], itemCount, layoutToLeftTop, axis) != 2
      invariant second.Some? ==> second.value < i && Rank(children[second.value], itemCount, layoutToLeftTop, axis) == 2
      invariant second.Some? ==> forall j :: 0 <= j < second.value ==> Rank(children[j], itemCount, layoutToLeftTop, axis) != 2
      invariant third.None? <==> forall j :: 0 <= j < i ==> Rank(children[j], itemCount, layoutToLeftTop, axis) != 3
      invariant third.Some? ==> third.value < i && Rank(children[third.value], itemCount, layoutToLeftTop, axis) == 3
      invariant third.Some? ==> forall j :: third.value < j < i ==> Rank(children[j], itemCount, layoutToLeftTop, axis) != 3
    {
      var k := Rank(children[i], itemCount, layoutToLeftTop, axis);
      if k == 1 {
        return Some(i);
      } else if k == 3 {
        third := Some(i);
      } else if k == 2 && second.None? {
        second := Some(i);
      }
      i := i + 1;
    }
    if second.Some? {
      r := second;
    } else {
      r := third;
    }
  }

  /**
   * `updateAnchorInfoForLayout`: a usable pending position first, then the
   * anchor child, then item 0 at the starting edge. A pending position that
   * cannot be used is dropped. Returns the anchor and the pending position.
   */
  method UpdateAnchorInfoForLayout(a: AnchorInfo, pendingPosition: int, pendingSavedState: Option<SavedState>,
                                   layoutToLeftTop: bool, itemCount: int, children: seq<Child>, axis: Axis)
    returns (r: AnchorInfo, pendingPosition': int)
    ensures pendingPosition != NO_POSITION && 0 <= pendingPosition < itemCount ==>
              pendingPosition' == pendingPosition &&
              Some(r) == UpdateFromPending(a, pendingPosition, pendingSavedState, layoutToLeftTop, itemCount, axis)
    ensures !(pendingPosition != NO_POSITION && 0 <= pendingPosition < itemCount) ==>
              pendingPosition' == NO_POSITION &&
              (NoAnchor(children, itemCount, layoutToLeftTop, axis) ==> r == UpdateFromNothing(a, layoutToLeftTop, axis)) &&
              (!NoAnchor(children, itemCount, layoutToLeftTop, axis) ==>
                 exists i :: IsAnchorChoice(children, itemCount, layoutToLeftTop, axis, i) &&
                             r == UpdateFromView(a, children[i], layoutToLeftTop, axis))
    ensures r.isValid == a.isValid
  {
    var fromPending := UpdateFromPending(a, pendingPosition, pendingSavedState, layoutToLeftTop, itemCount, axis);
    if fromPending.Some? {
      return fromPending.value, pendingPosition;
    }
    pendingPosition' := NO_POSITION;
    var anchorView := FindAnchorView(children, itemCount, layoutToLeftTop, axis);
    if anchorView.Some? {
      r := UpdateFromView(a, children[anchorView.value], layoutToLeftTop, axis);
      return;
    }
    r := UpdateFromNothing(a, layoutToLeftTop, axis);
  }
}
