# simplecarousel, modelled in Dafny

This project models the core of *simplecarousel-android*, a Kotlin library for Android that shows an adapter's items as a carousel. In circular mode the carousel wraps from the last item back to the first. In linear mode it stops at both ends. The model covers two parts.

- **`CarouselLayoutManager` and its helpers** lay out and recycle the children and scroll them:
  - the `LayoutHelper` cursor;
  - `AnchorInfo` and the parcelled `SavedState`;
  - fill, scroll and recycle;
  - finding the anchor view.

  The other helpers in this part are:
  - `CarouselSnapHelper`, which turns a fling into the adapter position to snap to;
  - `CarouselSmoothScroller`, which walks round the carousel towards a target that lies outside the adapter;
  - `ViewBoundsHelper`, which finds the first child that is partly or fully visible.
- **The pager** is a `ViewPager2`-like widget built on that layout manager:
  - `CarouselPager`: selecting an item, the pre-jump before a long smooth scroll, the offscreen page limit, and saving and restoring the current item;
  - `ScrollListenerAdapter`: the state machine that turns RecyclerView scroll callbacks into page-change events;
  - `PageTransformerAdapter`: the signed page distance round the carousel;
  - `CarouselFragmentStateAdapter`: bundle keys, saving and restoring fragment state, and the item-to-view-holder bindings.

Each source component is one Dafny module. Every module is a set of pure functions over immutable datatypes, plus methods where the source loops. Android views are reduced to what the code reads from them:
- a child is an adapter position, a start edge, an end edge and a "removed" flag;
- an axis is a size and two paddings;
- the layout's output is the sequence of attached children.

Scrolling, measuring and attaching are not run. Measured sizes come in as a sequence indexed by adapter position. The calls the code makes on RecyclerView come out as a list of commands. Page-change callbacks come out as a list of events.

Kotlin's `Int` `%` and `/` truncate toward zero. They are modelled by `Kotlin.KRem` and `Kotlin.KDiv`. Dafny's own operators are Euclidean.

Where the library's described behaviour and its code disagree, the model follows the code:
- `findAnchorView` records a removed child as the "least" candidate, but it never returns it. The model's anchor choice never picks a removed child.
- The circular snap target also subtracts the distance from the first attached child to the snap view (`currentAndFirstVisibleDiff`). The model keeps that subtraction.

## Model

| member | source | states |
|---|---|---|
| Anchor.InvalidateAnchor | simplecarousel/src/main/java/com/cheonjaeung/simplecarousel/android/CarouselLayoutManager.kt:805-808 | the result has no valid anchor and keeps the saved layout direction |
| Anchor.WriteToParcel | simplecarousel/src/main/java/com/cheonjaeung/simplecarousel/android/CarouselLayoutManager.kt:810-815 | a parcel is three ints: anchor position, anchor offset, and the direction as 1 or 0 |
| Anchor.CreateFromParcel | simplecarousel/src/main/java/com/cheonjaeung/simplecarousel/android/CarouselLayoutManager.kt:789-793 | reads the three ints back; the direction is true exactly when the third int is 1 |
| Anchor.ParcelRoundTrip | simplecarousel/src/main/java/com/cheonjaeung/simplecarousel/android/CarouselLayoutManager.kt:789-815 | reading back a written SavedState gives the same state |
| Anchor.Invalidate | simplecarousel/src/main/java/com/cheonjaeung/simplecarousel/android/CarouselLayoutManager.kt:1230-1234 | the anchor becomes invalid with no position and the invalid offset; the direction is kept |
| Anchor.UpdateFromNothing | simplecarousel/src/main/java/com/cheonjaeung/simplecarousel/android/CarouselLayoutManager.kt:1154-1167 | with nothing to restore, the anchor is item 0 at the padded edge the layout starts from (end edge when laying out to left/top) |
| Anchor.UpdateFromPending | simplecarousel/src/main/java/com/cheonjaeung/simplecarousel/android/CarouselLayoutManager.kt:1169-1208 | a pending position is usable exactly when it lies in the adapter; a valid saved anchor puts the item at its saved distance from the same padded edge; otherwise the item goes at the starting edge |
| Anchor.UpdateFromView | simplecarousel/src/main/java/com/cheonjaeung/simplecarousel/android/CarouselLayoutManager.kt:1210-1221 | the anchor takes the view's position and its near edge, corrected by the total-space change when laying out to left/top |
| Anchor.OnSaveInstanceState | simplecarousel/src/main/java/com/cheonjaeung/simplecarousel/android/CarouselLayoutManager.kt:173-202 | a pending saved state is returned unchanged; otherwise the anchor is the first child at its distance from the padded edge, or no anchor when there are no children |
| Anchor.OnRestoreInstanceState | simplecarousel/src/main/java/com/cheonjaeung/simplecarousel/android/CarouselLayoutManager.kt:204-212 | a restored state is kept as is, unless a position is pending, in which case its anchor is invalidated |
| Anchor.SaveRestoreKeepsAnchor | simplecarousel/src/main/java/com/cheonjaeung/simplecarousel/android/CarouselLayoutManager.kt:173-212 | saving, parcelling and restoring with no pending position puts the anchor back on the same edge of the same item |
| Anchor.Rank | simplecarousel/src/main/java/com/cheonjaeung/simplecarousel/android/CarouselLayoutManager.kt:623-662 | ranks a child as an anchor candidate 0..3; rank 0 exactly for out-of-adapter or removed children |
| Anchor.AnchorChoiceUnique | simplecarousel/src/main/java/com/cheonjaeung/simplecarousel/android/CarouselLayoutManager.kt:610-672 | the anchor choice rule picks at most one child |
| Anchor.FindAnchorView | simplecarousel/src/main/java/com/cheonjaeung/simplecarousel/android/CarouselLayoutManager.kt:610-672 | the first in-bounds child if any; else the first child that is out of bounds on the near side; else the last one out on the far side; none exactly when no child is usable; never a removed child |
| Anchor.UpdateAnchorInfoForLayout | simplecarousel/src/main/java/com/cheonjaeung/simplecarousel/android/CarouselLayoutManager.kt:295-313 | an in-range pending position wins; otherwise the anchor view is used, and item 0 when there is none; validity is untouched |
| LayoutHelper.Opposite | simplecarousel/src/main/java/com/cheonjaeung/simplecarousel/android/CarouselLayoutManager.kt:766-770 | the opposite direction is the negation |
| LayoutHelper.ValidateForCircular | simplecarousel/src/main/java/com/cheonjaeung/simplecarousel/android/CarouselLayoutManager.kt:1084-1092 | in circular mode the current position is wrapped into the adapter; a position already inside it is unchanged |
| LayoutHelper.StepIsModular | simplecarousel/src/main/java/com/cheonjaeung/simplecarousel/android/CarouselLayoutManager.kt:1075-1092 | a circular step is +/-1 modulo the item count, wrapping from last to first and from first to last |
| LayoutHelper.StepInverse | simplecarousel/src/main/java/com/cheonjaeung/simplecarousel/android/CarouselLayoutManager.kt:1075-1092 | stepping one way and then back returns to the same adapter position |
| LayoutHelper.MoveCurrentPosition | simplecarousel/src/main/java/com/cheonjaeung/simplecarousel/android/CarouselLayoutManager.kt:1075-1082 | only the current position moves, and the cursor stays fetchable |
| LayoutHelper.HasNext | simplecarousel/src/main/java/com/cheonjaeung/simplecarousel/android/CarouselLayoutManager.kt:1054-1064 | there is a next view only at an adapter position |
| LayoutHelper.UpdateForFillingNext | simplecarousel/src/main/java/com/cheonjaeung/simplecarousel/android/CarouselLayoutManager.kt:1046-1052 | the offset advances by the view size in the layout direction, and the available space shrinks by the same amount |
| LayoutHelper.UpdateLayoutDirectionFromLatestScrollDelta | simplecarousel/src/main/java/com/cheonjaeung/simplecarousel/android/CarouselLayoutManager.kt:930-944 | the layout direction is left/top exactly when the last scroll delta was negative |
| LayoutHelper.UpdateForFillingToLeftOrTop | simplecarousel/src/main/java/com/cheonjaeung/simplecarousel/android/CarouselLayoutManager.kt:946-967 | the space to fill runs from the offset down to the start padding; there is no scrolling offset; the item direction follows layoutToLeftTop |
| LayoutHelper.UpdateForFillingToRightOrBottom | simplecarousel/src/main/java/com/cheonjaeung/simplecarousel/android/CarouselLayoutManager.kt:969-991 | the space to fill runs from the offset up to the end padding; the item direction follows layoutToLeftTop |
| LayoutHelper.UpdateForScrollingToLeftOrTop | simplecarousel/src/main/java/com/cheonjaeung/simplecarousel/android/CarouselLayoutManager.kt:993-1019 | the scrolling offset is the hidden part of the edge view, and it plus the available space equals the scroll distance; filling starts at the view's start with the next item |
| LayoutHelper.UpdateForScrollingToRightOrBottom | simplecarousel/src/main/java/com/cheonjaeung/simplecarousel/android/CarouselLayoutManager.kt:1021-1044 | the mirror image for the end edge |
| Fill.Place | simplecarousel/src/main/java/com/cheonjaeung/simplecarousel/android/CarouselLayoutManager.kt:480-513 | a view is placed with its measured size, with its near edge at the cursor offset |
| Fill.Reverse | simplecarousel/src/main/java/com/cheonjaeung/simplecarousel/android/CarouselLayoutManager.kt:471-475 | reversal keeps the length and puts the j-th view at place n-1-j, the order views added at index 0 end up in |
| Fill.ReverseAppend | simplecarousel/src/main/java/com/cheonjaeung/simplecarousel/android/CarouselLayoutManager.kt:471-475 | reversing s + [c] puts c first: views added at index 0 end up in reverse order |
| Fill.AttachOne | simplecarousel/src/main/java/com/cheonjaeung/simplecarousel/android/CarouselLayoutManager.kt:471-475 | attaching one more view adds it at the end (right/bottom) or at the front (left/top) |
| Fill.ExtentAppend | simplecarousel/src/main/java/com/cheonjaeung/simplecarousel/android/CarouselLayoutManager.kt:525-526 | the filled extent grows by each view's size |
| Fill.StepKeepsGeometry | simplecarousel/src/main/java/com/cheonjaeung/simplecarousel/android/CarouselLayoutManager.kt:468-534 | one fill step keeps the views gap-free, with the offset at the far edge of the last view |
| Fill.StepKeepsPositions | simplecarousel/src/main/java/com/cheonjaeung/simplecarousel/android/CarouselLayoutManager.kt:468-534 | one fill step keeps the views stepping through the adapter at their measured sizes |
| Fill.StepKeepsBudget | simplecarousel/src/main/java/com/cheonjaeung/simplecarousel/android/CarouselLayoutManager.kt:461-534 | one fill step keeps the consumed space and the scrolling offset in step with the extent |
| Fill.StepKeepsLoopInv | simplecarousel/src/main/java/com/cheonjaeung/simplecarousel/android/CarouselLayoutManager.kt:468-534 | the fill loop invariant survives one step |
| Fill.AttachStep | simplecarousel/src/main/java/com/cheonjaeung/simplecarousel/android/CarouselLayoutManager.kt:470-537 | the attached list stays the old children plus the views placed so far, in attach order |
| Fill.FillLoop | simplecarousel/src/main/java/com/cheonjaeung/simplecarousel/android/CarouselLayoutManager.kt:467-538 | the loop stops when the space runs out or there is no next item, with its invariant intact; it ends on every adapter, and on a circular adapter whose items all have size zero it places nothing (corrected, see Findings) |
| Fill.Fill | simplecarousel/src/main/java/com/cheonjaeung/simplecarousel/android/CarouselLayoutManager.kt:458-541 | the views are adapter items at their measured sizes, gap-free from the start offset; they step through the adapter (linear: consecutive positions); the returned amount is their total extent; every view but the last started inside the budget; the scrolling offset grows by the amount filled; a circular adapter with no item of positive size fills nothing (corrected, see Findings) |
| Fill.Distance | simplecarousel/src/main/java/com/cheonjaeung/simplecarousel/android/CarouselLayoutManager.kt:1066-1092 | the number of circular steps from one adapter position to another is in [0, itemCount) and is 0 only at the target |
| Fill.DistanceStep | simplecarousel/src/main/java/com/cheonjaeung/simplecarousel/android/CarouselLayoutManager.kt:1066-1092 | one circular step moves one position closer to the target |
| Fill.StepDecreases | simplecarousel/src/main/java/com/cheonjaeung/simplecarousel/android/CarouselLayoutManager.kt:468-534 | each fill step either uses up space or, at size zero, moves one position closer to an item of positive size |
| Fill.StepTimes | simplecarousel/src/main/java/com/cheonjaeung/simplecarousel/android/CarouselLayoutManager.kt:467-538 | any number of fill steps on a circular adapter keeps a fetchable cursor |
| Fill.ZeroSizedCircularFillNeverStops | simplecarousel/src/main/java/com/cheonjaeung/simplecarousel/android/CarouselLayoutManager.kt:467-538 | as written: on a circular adapter whose items all have size zero, after any number of steps the space left is unchanged and there is still a next item, so the loop never ends |
| LayoutManager.NewManager | simplecarousel/src/main/java/com/cheonjaeung/simplecarousel/android/CarouselLayoutManager.kt:133-140 | construction succeeds exactly for HORIZONTAL or VERTICAL and starts with no children, nothing pending and an invalid anchor |
| LayoutManager.SetOrientation | simplecarousel/src/main/java/com/cheonjaeung/simplecarousel/android/CarouselLayoutManager.kt:42-55 | an unknown orientation is refused; the same one changes nothing; a new one also replaces the axis |
| LayoutManager.SetCircular | simplecarousel/src/main/java/com/cheonjaeung/simplecarousel/android/CarouselLayoutManager.kt:29-36 | the manager and its layout helper both take the new mode |
| LayoutManager.SetReverseLayout | simplecarousel/src/main/java/com/cheonjaeung/simplecarousel/android/CarouselLayoutManager.kt:65-72 | flipping reverseLayout flips the layout direction and changes nothing else |
| LayoutManager.ExactlyOneAxisScrolls | simplecarousel/src/main/java/com/cheonjaeung/simplecarousel/android/CarouselLayoutManager.kt:322-328 | exactly one of canScrollHorizontally and canScrollVertically holds |
| LayoutManager.ScrollToPosition | simplecarousel/src/main/java/com/cheonjaeung/simplecarousel/android/CarouselLayoutManager.kt:330-336 | the position becomes pending, and a pending saved state loses its anchor |
| LayoutManager.OnLayoutCompleted | simplecarousel/src/main/java/com/cheonjaeung/simplecarousel/android/CarouselLayoutManager.kt:315-320 | the saved state and position are cleared and the anchor is invalidated |
| LayoutManager.SaveState | simplecarousel/src/main/java/com/cheonjaeung/simplecarousel/android/CarouselLayoutManager.kt:173-202 | save through the manager: the first child's position, or the pending saved state |
| LayoutManager.RestoreState | simplecarousel/src/main/java/com/cheonjaeung/simplecarousel/android/CarouselLayoutManager.kt:204-212 | a restored state always becomes pending; its anchor is dropped when a position is pending |
| LayoutManager.ComputeScrollVectorForPosition | simplecarousel/src/main/java/com/cheonjaeung/simplecarousel/android/CarouselLayoutManager.kt:348-364 | no vector without children; otherwise a unit vector on the scrolling axis, pointing to left/top exactly when (target < first child) differs from layoutToLeftTop |
| LayoutManager.CalculateExtraLayoutSpace | simplecarousel/src/main/java/com/cheonjaeung/simplecarousel/android/CarouselLayoutManager.kt:559-570 | both sides get the same extra beyond their paddings: one total space while a smooth scroll has a target, else nothing |
| LayoutManager.ExtraSpaces | simplecarousel/src/main/java/com/cheonjaeung/simplecarousel/android/CarouselLayoutManager.kt:248-250 | a negative extra space is treated as 0; a positive one is used as computed |
| LayoutManager.OffsetChildren | simplecarousel/src/main/java/com/cheonjaeung/simplecarousel/android/CarouselLayoutManager.kt:445-446 | every child moves by the same amount, in the same order |
| LayoutManager.ScrollFill | simplecarousel/src/main/java/com/cheonjaeung/simplecarousel/android/CarouselLayoutManager.kt:394-431 | the consumable distance is the hidden part of the edge child plus the extent laid out behind it, gap-free; a linear carousel at its end lays nothing out; so does a circular adapter with no item of positive size |
| LayoutManager.ScrollBy | simplecarousel/src/main/java/com/cheonjaeung/simplecarousel/android/CarouselLayoutManager.kt:388-451 | the scroll never exceeds the request and keeps its sign; it is min(request, consumable) and 0 when nothing can be consumed; a linear carousel stops at its ends; every child afterwards was there before or was laid out, shifted by the distance scrolled; no item sizes are required |
| LayoutManager.ShiftBack | simplecarousel/src/main/java/com/cheonjaeung/simplecarousel/android/CarouselLayoutManager.kt:445-446 | undoing an offset finds each child in the list before the offset |
| LayoutManager.CombineRuns | simplecarousel/src/main/java/com/cheonjaeung/simplecarousel/android/CarouselLayoutManager.kt:251-289 | a run filled to left/top, reversed, and a run filled to right/bottom join at the anchor coordinate into one gap-free row that steps through the adapter |
| LayoutManager.FillToLeftOrTop | simplecarousel/src/main/java/com/cheonjaeung/simplecarousel/android/CarouselLayoutManager.kt:251-289 | the run toward left/top starts at the anchor coordinate with the given item, and in circular mode it reaches past the start padding by the extra space; it is empty exactly for a circular adapter with no item of positive size |
| LayoutManager.FillToRightOrBottom | simplecarousel/src/main/java/com/cheonjaeung/simplecarousel/android/CarouselLayoutManager.kt:251-289 | the run toward right/bottom mirrors that from the anchor coordinate, and is likewise empty when a circular adapter has no item of positive size |
| LayoutManager.RowFits | simplecarousel/src/main/java/com/cheonjaeung/simplecarousel/android/CarouselLayoutManager.kt:458-541 | joining two runs of measured adapter items gives measured adapter items |
| LayoutManager.RowEnds | simplecarousel/src/main/java/com/cheonjaeung/simplecarousel/android/CarouselLayoutManager.kt:251-289 | the joined row starts with the last left/top view and ends with the last right/bottom view |
| LayoutManager.AssembleRow | simplecarousel/src/main/java/com/cheonjaeung/simplecarousel/android/CarouselLayoutManager.kt:251-289 | the two runs of a layout join into a row laid out around the anchor |
| LayoutManager.LayoutAround | simplecarousel/src/main/java/com/cheonjaeung/simplecarousel/android/CarouselLayoutManager.kt:251-289 | laying out around an anchor gives a gap-free row of measured adapter items that steps through the adapter, with the anchor item at the anchor coordinate when it fits; in circular mode the row covers both padded edges plus the extra space; a circular adapter with no item of positive size gives an empty row; an anchor outside the adapter places nothing, so the row is the second run from the neighbouring item, and in circular mode it throws exactly when the first fill has space to cover |
| LayoutManager.ChooseAnchor | simplecarousel/src/main/java/com/cheonjaeung/simplecarousel/android/CarouselLayoutManager.kt:229-240 | a saved state with a valid anchor becomes the pending position; the anchor is recomputed, and lies in the adapter, unless a valid anchor is kept with nothing pending; a restored anchor keeps its saved distance from the saved edge; a pending position lands at the starting edge; a kept anchor is reused unchanged and without a range check, since the adapter may have shrunk |
| LayoutManager.OnLayoutChildren | simplecarousel/src/main/java/com/cheonjaeung/simplecarousel/android/CarouselLayoutManager.kt:214-290 | an empty adapter removes every child; it fails exactly when a kept anchor lies past a shrunk circular adapter and the first fill has space to cover; otherwise the children are laid out around a valid anchor, which lies in the adapter unless it was kept; a restored anchor puts its item at the saved distance from the same edge; a pending position is laid out at the starting edge; an out-of-range pending position is dropped; a kept anchor is reused; item sizes of zero are allowed |
| Recycle.RemoveAt | simplecarousel/src/main/java/com/cheonjaeung/simplecarousel/android/CarouselLayoutManager.kt:744-748 | removing one child shortens the list by one |
| Recycle.RecycleChildrenInRange | simplecarousel/src/main/java/com/cheonjaeung/simplecarousel/android/CarouselLayoutManager.kt:738-751 | the children between the two indices (end exclusive) are removed and the rest keep their order |
| Recycle.RecycleFromLeftOrTop | simplecarousel/src/main/java/com/cheonjaeung/simplecarousel/android/CarouselLayoutManager.kt:693-711 | a negative limit recycles nothing; otherwise only a prefix of children ending at or before the limit is recycled, and the first survivor ends after it |
| Recycle.RecycleFromRightOrBottom | simplecarousel/src/main/java/com/cheonjaeung/simplecarousel/android/CarouselLayoutManager.kt:714-735 | mirror image: only a suffix starting at or after end - limit is recycled |
| Recycle.RecycleChildren | simplecarousel/src/main/java/com/cheonjaeung/simplecarousel/android/CarouselLayoutManager.kt:677-688 | nothing is recycled without recycling or a scrolling offset, or with a negative offset; filling to right/bottom recycles the prefix of children that end at or before the offset, and the first kept child ends past it; filling to left/top recycles the suffix that starts at or after the far limit, and the last kept child starts before it |
| SnapHelper.MinStartIsMinimum | simplecarousel/src/main/java/com/cheonjaeung/simplecarousel/android/CarouselSnapHelper.kt:274-314 | the minimum start is below every positioned child's start and is one of them, or Int.MAX when there is none |
| SnapHelper.MaxEndIsMaximum | simplecarousel/src/main/java/com/cheonjaeung/simplecarousel/android/CarouselSnapHelper.kt:274-314 | the maximum end is above every positioned child's end and is one of them, or Int.MIN when there is none |
| SnapHelper.ComputeAverageDistancePerChild | simplecarousel/src/main/java/com/cheonjaeung/simplecarousel/android/CarouselSnapHelper.kt:274-314 | no children gives INVALID_DISTANCE; otherwise the average is the span from min start to max end divided by the child count |
| SnapHelper.CalculateNextPositionSteps | simplecarousel/src/main/java/com/cheonjaeung/simplecarousel/android/CarouselSnapHelper.kt:210-249 | no steps without a scrolling axis or with no average distance; otherwise the rounded steps signed by the scroll vector on the scrolling axis |
| SnapHelper.CurrentAndFirstVisibleDiff | simplecarousel/src/main/java/com/cheonjaeung/simplecarousel/android/CarouselSnapHelper.kt:175-179 | the distance from the first child to the snap view going forward, between 1 and N; a full lap when they coincide |
| SnapHelper.ClampSteps | simplecarousel/src/main/java/com/cheonjaeung/simplecarousel/android/CarouselSnapHelper.kt:181-187 | steps are clamped strictly inside half the item count; steps already inside are unchanged |
| SnapHelper.NormalizeAsWritten | simplecarousel/src/main/java/com/cheonjaeung/simplecarousel/android/CarouselSnapHelper.kt:190-194 | the result is congruent to the target but may equal N |
| SnapHelper.Normalize | simplecarousel/src/main/java/com/cheonjaeung/simplecarousel/android/CarouselSnapHelper.kt:190-194 | the corrected normalisation is the target modulo N, inside the adapter |
| SnapHelper.LinearTarget | simplecarousel/src/main/java/com/cheonjaeung/simplecarousel/android/CarouselSnapHelper.kt:196-203 | current + steps, clamped to [0, N-1] |
| SnapHelper.FindTargetSnapPositionAsWritten | simplecarousel/src/main/java/com/cheonjaeung/simplecarousel/android/CarouselSnapHelper.kt:126-205 | NO_POSITION when snapping is impossible; linear target clamped; circular target as written |
| SnapHelper.FindTargetSnapPosition | simplecarousel/src/main/java/com/cheonjaeung/simplecarousel/android/CarouselSnapHelper.kt:126-205 | as above, but the circular target is current + clamped steps - diff, reduced modulo N into the adapter |
| SnapHelper.LapCongruent | simplecarousel/src/main/java/com/cheonjaeung/simplecarousel/android/CarouselSnapHelper.kt:189-194 | subtracting a lap does not change the page |
| SnapHelper.SnapTargetIsAdapterPosition | simplecarousel/src/main/java/com/cheonjaeung/simplecarousel/android/CarouselSnapHelper.kt:126-205 | the corrected snap target is NO_POSITION or an adapter position |
| SnapHelper.SnapTargetEqualsItemCount | simplecarousel/src/main/java/com/cheonjaeung/simplecarousel/android/CarouselSnapHelper.kt:189-194 | 6 items, current 5, first child 4, 2 steps: the code as written returns 6, the corrected one returns 0 |
| SmoothScroller.NewScroller | simplecarousel/src/main/java/com/cheonjaeung/simplecarousel/android/CarouselSmoothScroller.kt:18-36 | a new scroller has no targets |
| SmoothScroller.SetTargetPositionAsWritten | simplecarousel/src/main/java/com/cheonjaeung/simplecarousel/android/CarouselSmoothScroller.kt:64-82 | an empty adapter refuses every target but 0; targets in [0, N] go straight to the underlying scroller; others start a round trip |
| SmoothScroller.SetTargetPosition | simplecarousel/src/main/java/com/cheonjaeung/simplecarousel/android/CarouselSmoothScroller.kt:64-82 | the same, with [0, N-1] going straight on; the underlying target is always still seeking or an adapter position |
| SmoothScroller.TargetEqualToItemCountIsHandedOn | simplecarousel/src/main/java/com/cheonjaeung/simplecarousel/android/CarouselSmoothScroller.kt:64-82 | 6 items, target 6: as written 6 is handed on; corrected, the scroller seeks item 0 |
| SmoothScroller.OnChildAttached | simplecarousel/src/main/java/com/cheonjaeung/simplecarousel/android/CarouselSmoothScroller.kt:111-121 | only the remembered child matters; its attach moves the virtual target one lap toward the adapter, or hands it over once inside |
| SmoothScroller.OutOfRangeTargetStartsWrapping | simplecarousel/src/main/java/com/cheonjaeung/simplecarousel/android/CarouselSmoothScroller.kt:64-82 | a target outside the adapter starts a round trip toward its adapter position modulo N |
| SmoothScroller.AttachStepsTowardTarget | simplecarousel/src/main/java/com/cheonjaeung/simplecarousel/android/CarouselSmoothScroller.kt:111-121 | each attach during a round trip is one lap closer, or ends it at the right item |
| SmoothScroller.LapsStep | simplecarousel/src/main/java/com/cheonjaeung/simplecarousel/android/CarouselSmoothScroller.kt:111-121 | moving a negative virtual target one lap up removes one lap |
| SmoothScroller.WrappingHandsOverTarget | simplecarousel/src/main/java/com/cheonjaeung/simplecarousel/android/CarouselSmoothScroller.kt:64-121 | a round trip ends after exactly laps + 1 attaches, handing over the remembered adapter position |
| ViewBounds.CompletelyVisibleMeansContained | simplecarousel/src/main/java/com/cheonjaeung/simplecarousel/android/ViewBoundsHelper.kt:102-109 | completely visible exactly when every point of the child lies within the parent |
| ViewBounds.PartiallyVisibleMeansOverlapWithoutCover | simplecarousel/src/main/java/com/cheonjaeung/simplecarousel/android/ViewBoundsHelper.kt:92-100 | partially visible exactly when child and parent overlap but the child does not cover the whole parent |
| ViewBounds.CompletelyVisibleIsPartialUnlessFilling | simplecarousel/src/main/java/com/cheonjaeung/simplecarousel/android/ViewBoundsHelper.kt:92-109 | a completely visible child is also partially visible unless it fills the parent exactly |
| ViewBounds.ChildAt | simplecarousel/src/main/java/com/cheonjaeung/simplecarousel/android/ViewBoundsHelper.kt:118-118 | a child is found only at an index in range |
| ViewBounds.FindVisibleView | simplecarousel/src/main/java/com/cheonjaeung/simplecarousel/android/ViewBoundsHelper.kt:21-74 | the result is the first child in scan order (ascending or descending) with the requested visibility; none exactly when no scanned child has it |
| PageTransformer.Steps | simplecarousel-pager/src/main/java/com/cheonjaeung/simplecarousel/android/pager/PageTransformerAdapter.kt:34-34 | forward steps are congruent to the difference and lie in [0, N) |
| PageTransformer.StepsOpposite | simplecarousel-pager/src/main/java/com/cheonjaeung/simplecarousel/android/pager/PageTransformerAdapter.kt:35-35 | backward steps are congruent to the difference and lie in (-N, 0] |
| PageTransformer.NegationCongruent | simplecarousel-pager/src/main/java/com/cheonjaeung/simplecarousel/android/pager/PageTransformerAdapter.kt:35-35 | negation preserves congruence |
| PageTransformer.CalculatePositionDiff | simplecarousel-pager/src/main/java/com/cheonjaeung/simplecarousel/android/pager/PageTransformerAdapter.kt:28-44 | linear: the plain difference; circular: a value congruent to it; a circular pager with no items divides by zero |
| PageTransformer.StepsComplement | simplecarousel-pager/src/main/java/com/cheonjaeung/simplecarousel/android/pager/PageTransformerAdapter.kt:34-35 | backward steps are forward steps minus a lap |
| PageTransformer.DiffValue | simplecarousel-pager/src/main/java/com/cheonjaeung/simplecarousel/android/pager/PageTransformerAdapter.kt:36-40 | the circular difference is s or s - N, whichever is shorter |
| PageTransformer.ShortestRepresentative | simplecarousel-pager/src/main/java/com/cheonjaeung/simplecarousel/android/pager/PageTransformerAdapter.kt:36-40 | among numbers naming the same page, s or s - N is shortest, with ties going to the negative one |
| PageTransformer.CircularDiffIsShortest | simplecarousel-pager/src/main/java/com/cheonjaeung/simplecarousel/android/pager/PageTransformerAdapter.kt:28-44 | the circular difference is the shortest signed distance round the carousel, at most N/2 |
| PageTransformer.NeighboursAreOneApart | simplecarousel-pager/src/main/java/com/cheonjaeung/simplecarousel/android/pager/PageTransformerAdapter.kt:28-44 | neighbouring pages are +1/-1 apart, also across the seam |
| Pager.SetOrientation | simplecarousel-pager/src/main/java/com/cheonjaeung/simplecarousel/android/pager/CarouselPager.kt:79-86 | only HORIZONTAL or VERTICAL is accepted, and it is passed to the layout manager |
| Pager.SetOffscreenPageLimit | simplecarousel-pager/src/main/java/com/cheonjaeung/simplecarousel/android/pager/CarouselPager.kt:118-126 | the limit is the default (-1) or at least 1; anything else is refused |
| Pager.PageSizeIsLayoutSpace | simplecarousel-pager/src/main/java/com/cheonjaeung/simplecarousel/android/pager/CarouselPager.kt:483-489 | the page size is the layout manager's total space on the pager's axis |
| Pager.CalculateExtraLayoutSpace | simplecarousel-pager/src/main/java/com/cheonjaeung/simplecarousel/android/pager/CarouselPager.kt:593-600 | the default limit defers to the layout manager; otherwise limit pages on each side |
| Pager.CircularSteps | simplecarousel-pager/src/main/java/com/cheonjaeung/simplecarousel/android/pager/CarouselPager.kt:323-331 | steps one way plus steps the other way make one lap |
| Pager.CircularPlan | simplecarousel-pager/src/main/java/com/cheonjaeung/simplecarousel/android/pager/CarouselPager.kt:321-345 | circular smooth scroll: nothing without a scroll vector; otherwise it jumps exactly when the rule calls the target far, to three pages short on the side of the first child (mirrored by reverse layout), then smooth-scrolls to the target; near targets get one smooth scroll |
| Pager.LinearPlan | simplecarousel-pager/src/main/java/com/cheonjaeung/simplecarousel/android/pager/CarouselPager.kt:346-361 | linear smooth scroll: more than three pages away, jump to three short and then scroll; otherwise scroll directly |
| Pager.SelectItem | simplecarousel-pager/src/main/java/com/cheonjaeung/simplecarousel/android/pager/CarouselPager.kt:286-362 | without an adapter only a pending item is replaced; selecting the current item or an empty adapter does nothing; otherwise the item becomes current, the listener is told, and an instant or smooth scroll to it follows |
| Pager.SetCurrentItemAsWritten | simplecarousel-pager/src/main/java/com/cheonjaeung/simplecarousel/android/pager/CarouselPager.kt:286-362 | as written: the same state and events as the corrected rule; an instant selection is one scroll to the target; a linear pager uses the linear plan; a circular pager follows the circular plan under the either-way rule, so it jumps before scrolling exactly when the target is more than three pages away in either direction, landing three pages short on the first child's side |
| Pager.SetCurrentItem | simplecarousel-pager/src/main/java/com/cheonjaeung/simplecarousel/android/pager/CarouselPager.kt:286-362 | the last scroll always ends at the target, and with items the target becomes current; corrected: a circular pager jumps exactly when the target is more than three pages away both ways round |
| Pager.LargeCarouselAlwaysJumpsAsWritten | simplecarousel-pager/src/main/java/com/cheonjaeung/simplecarousel/android/pager/CarouselPager.kt:332-344 | as written, a circular pager with 7 or more pages jumps before every smooth scroll |
| Pager.JumpsWhenFarEitherWayAsWritten | simplecarousel-pager/src/main/java/com/cheonjaeung/simplecarousel/android/pager/CarouselPager.kt:321-345 | as written, a circular smooth scroll jumps exactly when either way round is more than three pages, and otherwise scrolls once |
| Pager.JumpsOnlyWhenFarBothWays | simplecarousel-pager/src/main/java/com/cheonjaeung/simplecarousel/android/pager/CarouselPager.kt:332-344 | corrected: it jumps exactly when both ways round are more than three pages |
| Pager.NeighbourScrollJumpsBackAsWritten | simplecarousel-pager/src/main/java/com/cheonjaeung/simplecarousel/android/pager/CarouselPager.kt:332-344 | 10 pages, 4 to 5: as written it jumps to 2 and then scrolls; corrected, it scrolls straight to 5 |
| Pager.SavedCurrentItem | simplecarousel-pager/src/main/java/com/cheonjaeung/simplecarousel/android/pager/CarouselPager.kt:187-205 | the saved item is the pending one if any, else the current one |
| Pager.OnRestoreInstanceState | simplecarousel-pager/src/main/java/com/cheonjaeung/simplecarousel/android/pager/CarouselPager.kt:207-215 | restoring only records the pending item |
| Pager.ApplyPending | simplecarousel-pager/src/main/java/com/cheonjaeung/simplecarousel/android/pager/CarouselPager.kt:216-231 | nothing happens without a pending item or an adapter; otherwise the pending item is selected by the setter under the given jump rule, the pending item is cleared, and an instant scroll to the current item follows |
| Pager.RestorePendingStateAsWritten | simplecarousel-pager/src/main/java/com/cheonjaeung/simplecarousel/android/pager/CarouselPager.kt:216-231 | as written: the restore selects through the setter, that is a smooth setCurrentItem with the either-way jump rule, then clears the pending item and scrolls to the current item |
| Pager.RestoreNeighbourJumpsBackAsWritten | simplecarousel-pager/src/main/java/com/cheonjaeung/simplecarousel/android/pager/CarouselPager.kt:216-231 | 10 pages, 4 restored to 5: as written it jumps to 2, smooth-scrolls to 5 and scrolls to 5; corrected, it smooth-scrolls to 5 and scrolls to 5 |
| Pager.RestorePendingState | simplecarousel-pager/src/main/java/com/cheonjaeung/simplecarousel/android/pager/CarouselPager.kt:216-231 | corrected (see Findings): same state and events as the source, but the selection uses the both-ways rule; the pending item is cleared and scrolled to directly |
| Pager.RestoreAppliesOnce | simplecarousel-pager/src/main/java/com/cheonjaeung/simplecarousel/android/pager/CarouselPager.kt:217-232 | restoring (as written) a second time changes nothing |
| Pager.SaveRestoreKeepsCurrentItem | simplecarousel-pager/src/main/java/com/cheonjaeung/simplecarousel/android/pager/CarouselPager.kt:187-232 | saving and restoring (as written) into a pager with items selects the saved item |
| ScrollListener.Initial | simplecarousel-pager/src/main/java/com/cheonjaeung/simplecarousel/android/pager/ScrollListenerAdapter.kt:20-37 | the listener starts idle with no drag positions and no flags |
| ScrollListener.Reset | simplecarousel-pager/src/main/java/com/cheonjaeung/simplecarousel/android/pager/ScrollListenerAdapter.kt:39-48 | reset returns exactly the initial listener |
| ScrollListener.FirstVisiblePosition | simplecarousel-pager/src/main/java/com/cheonjaeung/simplecarousel/android/pager/ScrollListenerAdapter.kt:160-166 | the first completely visible position if any, else the first partially visible one |
| ScrollListener.UpdateScrollEventValues | simplecarousel-pager/src/main/java/com/cheonjaeung/simplecarousel/android/pager/ScrollListenerAdapter.kt:159-214 | no position gives the empty values; otherwise the first visible position with an offset equal to minus its start offset |
| ScrollListener.EnterDrag | simplecarousel-pager/src/main/java/com/cheonjaeung/simplecarousel/android/pager/ScrollListenerAdapter.kt:52-71 | entering a drag reports DRAGGING; the drag start becomes the previous target, or the first visible position when nothing was recorded |
| ScrollListener.DragToSettling | simplecarousel-pager/src/main/java/com/cheonjaeung/simplecarousel/android/pager/ScrollListenerAdapter.kt:74-80 | settling is reported, and selection armed, only when the content has scrolled |
| ScrollListener.DragToIdle | simplecarousel-pager/src/main/java/com/cheonjaeung/simplecarousel/android/pager/ScrollListenerAdapter.kt:83-106 | drag to idle: not scrolled reports the resting page with offset 0 and goes idle; scrolled to rest selects a changed page and goes idle |
| ScrollListener.SmoothScrollToIdle | simplecarousel-pager/src/main/java/com/cheonjaeung/simplecarousel/android/pager/ScrollListenerAdapter.kt:108-117 | after a data-set change, a smooth scroll coming to rest selects a changed page and goes idle |
| ScrollListener.OnScrollStateChanged | simplecarousel-pager/src/main/java/com/cheonjaeung/simplecarousel/android/pager/ScrollListenerAdapter.kt:50-118 | dispatches to the four transitions; scrollState is never anything but its old value or idle |
| ScrollListener.DragTarget | simplecarousel-pager/src/main/java/com/cheonjaeung/simplecarousel/android/pager/ScrollListenerAdapter.kt:126-135 | scrolling forward part-way targets the next page, wrapping last to 0; otherwise the current page; an adapter page stays one |
| ScrollListener.SelectOnScroll | simplecarousel-pager/src/main/java/com/cheonjaeung/simplecarousel/android/pager/ScrollListenerAdapter.kt:124-141 | an armed selection reports the drag target if it differs from the drag start; an idle listener reports the current page |
| ScrollListener.OnScrolled | simplecarousel-pager/src/main/java/com/cheonjaeung/simplecarousel/android/pager/ScrollListenerAdapter.kt:120-154 | a scroll reports the page and offset, and goes idle when at rest on the target |
| ScrollListener.NotifyProgrammaticScroll | simplecarousel-pager/src/main/java/com/cheonjaeung/simplecarousel/android/pager/ScrollListenerAdapter.kt:238-250 | records the target; always reports SETTLING, and selects the target exactly when it is new |
| ScrollListener.NotifyDataSetChanged | simplecarousel-pager/src/main/java/com/cheonjaeung/simplecarousel/android/pager/ScrollListenerAdapter.kt:252-254 | only the data-set-changed flag is set |
| ScrollListener.SelectedCountAppend | simplecarousel-pager/src/main/java/com/cheonjaeung/simplecarousel/android/pager/ScrollListenerAdapter.kt:228-232 | counting selections distributes over concatenation |
| ScrollListener.RepeatedTargetSelectedOnce | simplecarousel-pager/src/main/java/com/cheonjaeung/simplecarousel/android/pager/ScrollListenerAdapter.kt:238-250 | asking twice for the same page selects it at most once |
| ScrollListener.Apply | simplecarousel-pager/src/main/java/com/cheonjaeung/simplecarousel/android/pager/ScrollListenerAdapter.kt:50-254 | no callback sets scrollState to anything but idle |
| ScrollListener.ScrollStateAlwaysIdle | simplecarousel-pager/src/main/java/com/cheonjaeung/simplecarousel/android/pager/ScrollListenerAdapter.kt:20-48 | scrollState stays idle after any run of callbacks |
| ScrollListener.DragReportAlwaysEntersDrag | simplecarousel-pager/src/main/java/com/cheonjaeung/simplecarousel/android/pager/ScrollListenerAdapter.kt:52-55 | in every reachable state a DRAGGING report enters a drag |
| FragmentKeys.DigitChar | simplecarousel-pager/src/main/java/com/cheonjaeung/simplecarousel/android/pager/CarouselFragmentStateAdapter.kt:172-174 | a decimal digit character with the given value |
| FragmentKeys.DigitValue | simplecarousel-pager/src/main/java/com/cheonjaeung/simplecarousel/android/pager/CarouselFragmentStateAdapter.kt:186-188 | a digit's value is below 10 |
| FragmentKeys.DigitsRoundTrip | simplecarousel-pager/src/main/java/com/cheonjaeung/simplecarousel/android/pager/CarouselFragmentStateAdapter.kt:172-188 | decimal digits of n are non-empty and read back as n |
| FragmentKeys.ParseLong | simplecarousel-pager/src/main/java/com/cheonjaeung/simplecarousel/android/pager/CarouselFragmentStateAdapter.kt:186-188 | a parsed id is a Long |
| FragmentKeys.LongRoundTrip | simplecarousel-pager/src/main/java/com/cheonjaeung/simplecarousel/android/pager/CarouselFragmentStateAdapter.kt:172-188 | every Long prints and parses back to itself |
| FragmentKeys.CreateKey | simplecarousel-pager/src/main/java/com/cheonjaeung/simplecarousel/android/pager/CarouselFragmentStateAdapter.kt:172-174 | a key is the prefix followed by at least one character |
| FragmentKeys.ParseIdFromKey | simplecarousel-pager/src/main/java/com/cheonjaeung/simplecarousel/android/pager/CarouselFragmentStateAdapter.kt:186-188 | the parsed id is a Long |
| FragmentKeys.KeyRoundTrip | simplecarousel-pager/src/main/java/com/cheonjaeung/simplecarousel/android/pager/CarouselFragmentStateAdapter.kt:172-188 | a created key is valid for its prefix and parses back to its id |
| FragmentKeys.CreateKeyInjective | simplecarousel-pager/src/main/java/com/cheonjaeung/simplecarousel/android/pager/CarouselFragmentStateAdapter.kt:172-174 | different ids give different keys |
| FragmentKeys.PrefixesDisjoint | simplecarousel-pager/src/main/java/com/cheonjaeung/simplecarousel/android/pager/CarouselFragmentStateAdapter.kt:505-506 | a fragment key is never a state key, and the other way round |
| FragmentKeys.GetItemId | simplecarousel-pager/src/main/java/com/cheonjaeung/simplecarousel/android/pager/CarouselFragmentStateAdapter.kt:468-470 | the item id is the position, widened to Long |
| FragmentKeys.ContainsExactlyItemIds | simplecarousel-pager/src/main/java/com/cheonjaeung/simplecarousel/android/pager/CarouselFragmentStateAdapter.kt:472-474 | containsItem holds exactly for the ids of adapter positions |
| FragmentState.CreateKeysInjective | simplecarousel-pager/src/main/java/com/cheonjaeung/simplecarousel/android/pager/CarouselFragmentStateAdapter.kt:172-174 | key creation is injective on Longs |
| FragmentState.SaveState | simplecarousel-pager/src/main/java/com/cheonjaeung/simplecarousel/android/pager/CarouselFragmentStateAdapter.kt:76-97 | the bundle keys are the added fragments' keys plus the keys of saved states of items still in the adapter |
| FragmentState.SavedFragmentId | simplecarousel-pager/src/main/java/com/cheonjaeung/simplecarousel/android/pager/CarouselFragmentStateAdapter.kt:79-86 | each fragment key in the bundle comes from an added fragment and carries its handle |
| FragmentState.SavedStateId | simplecarousel-pager/src/main/java/com/cheonjaeung/simplecarousel/android/pager/CarouselFragmentStateAdapter.kt:88-94 | each state key in the bundle comes from the state of an item still in the adapter |
| FragmentState.SavedKeysDisjoint | simplecarousel-pager/src/main/java/com/cheonjaeung/simplecarousel/android/pager/CarouselFragmentStateAdapter.kt:76-97 | fragment keys and state keys never collide |
| FragmentState.RestoreKey | simplecarousel-pager/src/main/java/com/cheonjaeung/simplecarousel/android/pager/CarouselFragmentStateAdapter.kt:112-144 | a fragment key restores its fragment; a state key restores the state if the item is still there; anything else throws |
| FragmentState.RestoreGuardAsWritten | simplecarousel-pager/src/main/java/com/cheonjaeung/simplecarousel/android/pager/CarouselFragmentStateAdapter.kt:100-102 | as written, restore throws unless both maps already hold something |
| FragmentState.RestoreGuard | simplecarousel-pager/src/main/java/com/cheonjaeung/simplecarousel/android/pager/CarouselFragmentStateAdapter.kt:100-102 | corrected: restore is allowed exactly into an adapter whose maps are both empty |
| FragmentState.FreshAdapterRefusedAsWritten | simplecarousel-pager/src/main/java/com/cheonjaeung/simplecarousel/android/pager/CarouselFragmentStateAdapter.kt:100-102 | a fresh adapter is refused as written and accepted when corrected |
| FragmentState.RestoreErrorSticks | simplecarousel-pager/src/main/java/com/cheonjaeung/simplecarousel/android/pager/CarouselFragmentStateAdapter.kt:112-145 | once a key throws, the rest of the bundle does not matter |
| FragmentState.RestoreState | simplecarousel-pager/src/main/java/com/cheonjaeung/simplecarousel/android/pager/CarouselFragmentStateAdapter.kt:99-146 | corrected (see Findings): restoring succeeds only into a fresh adapter, and there it is the fold over the bundle keys |
| FragmentState.RestoreStateAsWritten | simplecarousel-pager/src/main/java/com/cheonjaeung/simplecarousel/android/pager/CarouselFragmentStateAdapter.kt:99-146 | as written: a fresh adapter is refused; restoring succeeds only into an adapter whose maps both already hold something, and there it is the same fold over the bundle keys |
| FragmentState.RestoreSavedKeys | simplecarousel-pager/src/main/java/com/cheonjaeung/simplecarousel/android/pager/CarouselFragmentStateAdapter.kt:76-146 | restoring any subset of a saved bundle into a fresh adapter succeeds and restores exactly those entries |
| FragmentState.SaveRestoreRoundTrip | simplecarousel-pager/src/main/java/com/cheonjaeung/simplecarousel/android/pager/CarouselFragmentStateAdapter.kt:76-146 | save then restore gives back exactly the added fragments and the states of items still in the adapter |
| FragmentBindings.IndexOf | simplecarousel-pager/src/main/java/com/cheonjaeung/simplecarousel/android/pager/CarouselFragmentStateAdapter.kt:211-220 | the first slot holding the item, or -1 exactly when none does |
| FragmentBindings.Holder | simplecarousel-pager/src/main/java/com/cheonjaeung/simplecarousel/android/pager/CarouselFragmentStateAdapter.kt:211-220 | the view holder bound to an item; none exactly when the item is unbound |
| FragmentBindings.PutHolder | simplecarousel-pager/src/main/java/com/cheonjaeung/simplecarousel/android/pager/CarouselFragmentStateAdapter.kt:218-219 | binding an item to a holder changes only that item's holder and keeps items distinct |
| FragmentBindings.RemoveHolder | simplecarousel-pager/src/main/java/com/cheonjaeung/simplecarousel/android/pager/CarouselFragmentStateAdapter.kt:215-216 | unbinding an item clears only that item |
| FragmentBindings.SharedBreaksInjective | simplecarousel-pager/src/main/java/com/cheonjaeung/simplecarousel/android/pager/CarouselFragmentStateAdapter.kt:455-466 | two items on one holder break the one-holder-one-item rule |
| FragmentBindings.FindBoundItemIdByViewHolderId | simplecarousel-pager/src/main/java/com/cheonjaeung/simplecarousel/android/pager/CarouselFragmentStateAdapter.kt:455-466 | throws exactly when two items share the holder; none exactly when no item has it; otherwise the only item bound to it |
| FragmentBindings.FoundHolder | simplecarousel-pager/src/main/java/com/cheonjaeung/simplecarousel/android/pager/CarouselFragmentStateAdapter.kt:455-466 | the found item is exactly the one whose holder is the given one |
| FragmentBindings.RebindHolder | simplecarousel-pager/src/main/java/com/cheonjaeung/simplecarousel/android/pager/CarouselFragmentStateAdapter.kt:211-220 | rebinding moves the holder to the new item and unbinds the old one |
| FragmentBindings.UnbindHolder | simplecarousel-pager/src/main/java/com/cheonjaeung/simplecarousel/android/pager/CarouselFragmentStateAdapter.kt:363-370 | unbinding the holder clears only the item it was bound to |
| FragmentBindings.RebindInjective | simplecarousel-pager/src/main/java/com/cheonjaeung/simplecarousel/android/pager/CarouselFragmentStateAdapter.kt:211-220 | rebinding keeps holders one-to-one |
| FragmentBindings.UnbindInjective | simplecarousel-pager/src/main/java/com/cheonjaeung/simplecarousel/android/pager/CarouselFragmentStateAdapter.kt:363-370 | unbinding keeps holders one-to-one |
| FragmentBindings.OnBindViewHolder | simplecarousel-pager/src/main/java/com/cheonjaeung/simplecarousel/android/pager/CarouselFragmentStateAdapter.kt:211-220 | throws exactly on a shared holder; otherwise the item gets the holder, its previous item loses it, other items are unchanged; one-to-one bindings stay one-to-one and never throw |
| FragmentBindings.OnViewRecycled | simplecarousel-pager/src/main/java/com/cheonjaeung/simplecarousel/android/pager/CarouselFragmentStateAdapter.kt:363-370 | throws exactly on a shared holder; otherwise the item bound to the holder is unbound and nothing else changes |

## Left out

- Floating point: the fling distance, `relativePosition` and the pager's `prevPosition` (a `Float` set from `relativePosition` while scrolling), `ScrollValues.offset`, and `MILLISECONDS_PER_INCH`. Offsets in pixels are kept; fractions are not. The pager model takes `prevPosition = currentItem`. This is exact because `scrollState` is always idle (ScrollListener.ScrollStateAlwaysIdle).
- Pixel coordinates and counts are unbounded integers. Int overflow (`to + 1` in the bounds scans, sums of sizes) is not modelled; pixel values are assumed to stay within ±2^30 where the sentinel `Int.MIN_VALUE` must not collide.
- Android view operations: measuring, `layoutDecoratedWithMargins`, margins, item decorations, and RTL mirroring of the non-scrolling axis. Transformed edges are taken equal to the decorated edges. `Parcel`, `Bundle` and the class loader are reduced to int sequences and maps.
- Fill.FillLoop: on a circular adapter whose items all have size zero the source loop never ends; the model stops there without placing anything (see Findings). Any item of positive size makes the loop end, so other adapters are modelled as written.
- `RecyclerView.Recycler.getViewForPosition` is not part of this model. Its refusal of a position outside the adapter (an `IndexOutOfBoundsException`) is modelled as the error `"Invalid item position"`, which is what a kept anchor past a shrunk circular adapter runs into.
- The fragment lifecycle is left out: `gcFragments`, `removeFragment`, `ensureFragment`, `placeFragmentInViewHolder`, the max-lifecycle enforcer, the transaction callbacks and the grace period. They are driven by the Android lifecycle and the `FragmentManager`.
- `smoothScrollToPosition` starts a platform `LinearSmoothScroller`, whose internals (interim targets, speed) are not modelled; `CarouselSmoothScroller.updateActionForInterimTarget` likewise.
- `CarouselPager`'s adapter setter, `pendingAdapterState`, `setPageTransformer`, `requestTransform`, item decorations and measuring/layout of the pager itself.
- FragmentKeys.ParseLong: accepts ASCII digits only, where Kotlin's `toLong` also accepts other Unicode decimal digits.
- FragmentBindings.Put: a new entry is appended, where a `LongSparseArray` keeps its keys in ascending order; no modelled result depends on that order, because keys are distinct and every lookup is by key.
- FragmentState.SaveState: sparse-array keys are visited in map order, not the source's ascending order.
- FragmentState.RestoreState: the message for a bundle that is not a `Bundle` is not modelled; every saved value is a fragment handle or a fragment state.

## Findings

| source | as written | input that shows it | evidently intended | confidence | as-written member | corrected member |
|---|---|---|---|---|---|---|
| simplecarousel/src/main/java/com/cheonjaeung/simplecarousel/android/CarouselSnapHelper.kt:190-194 | `targetPosition > itemCount -> targetPosition % itemCount`, else the target unchanged | N = 6, current 5, first child 4, 2 steps: target 6 is returned, which is no adapter position | `>=`, so that the target is always in [0, N) | high, not executed | SnapHelper.FindTargetSnapPositionAsWritten | SnapHelper.FindTargetSnapPosition |
| simplecarousel/src/main/java/com/cheonjaeung/simplecarousel/android/CarouselSmoothScroller.kt:73-80 | a target in [0, itemCount] is handed straight to the platform scroller | N = 6, target 6: the platform scroller is asked for position 6 | `targetPosition >= itemCount` starts the round trip, so 6 seeks item 0 | high, not executed | SmoothScroller.SetTargetPositionAsWritten | SmoothScroller.SetTargetPosition |
| simplecarousel-pager/src/main/java/com/cheonjaeung/simplecarousel/android/pager/CarouselPager.kt:332 | pre-jump when `abs(steps) > 3 \|\| abs(stepsOpposite) > 3` | N = 10, current 4, target 5: it jumps back to 2 before scrolling to 5 | `&&`: jump only when the target is far both ways round | medium, not executed | Pager.SetCurrentItemAsWritten, Pager.RestorePendingStateAsWritten | Pager.SetCurrentItem, Pager.RestorePendingState |
| simplecarousel-pager/src/main/java/com/cheonjaeung/simplecarousel/android/pager/CarouselFragmentStateAdapter.kt:100-102 | throw when `savedStates.isEmpty() \|\| fragments.isEmpty()` | a fresh adapter (both maps empty) is refused | throw unless both are empty, as the message "not fresh" says | high, not executed | FragmentState.RestoreGuardAsWritten | FragmentState.RestoreGuard |
| simplecarousel/src/main/java/com/cheonjaeung/simplecarousel/android/CarouselLayoutManager.kt:467-538 | the fill loop runs while space remains and `hasNext`; circular `hasNext` is `itemCount > 0`, and space drops only by the measured size | a circular adapter whose items all measure 0: the space never drops and `hasNext` stays true, so the loop never ends | stop when no item can take up space | low, not executed | Fill.ZeroSizedCircularFillNeverStops | Fill.FillLoop |
