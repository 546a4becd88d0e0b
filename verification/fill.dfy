/**
 * The `fill` loop of CarouselLayoutManager.kt: measure and place items from
 * the cursor until the space runs out or (non-circular) the adapter ends.
 *
 * The measured decorated size of the item at adapter position `p` is
 * `sizes[p]`. The attached children are carried along: each placed child
 * is added on the side the layout grows toward, and while scrolling the
 * children behind the fill are recycled after every placement.
 */
module Fill {
  import opened Wrappers
  import opened LayoutHelper
  import Recycle

  /** Total extent of a run of placed children. */
  function Extent(placed: seq<Child>): int {
    if |placed| == 0 then 0 else Extent(placed[..|placed| - 1]) + Size(placed[|placed| - 1])
  }

  /** The child placed at the cursor's offset, extending away from it in the layout direction. */
  function Place(c: Cursor, position: int, size: int): (ch: Child)
    ensures Size(ch) == size && NearEdge(ch, c.layoutDirection) == c.offset
    ensures ch.position == position && !ch.removed
  {
    if c.layoutDirection == DIRECTION_LEFT_TOP then Child(position, c.offset - size, c.offset, false)
    else Child(position, c.offset, c.offset + size, false)
  }

  /** `p` advanced by `k` steps in direction `d`, without wrapping. */
  function Advance(p: int, k: int, d: Direction): int {
    if d == DIRECTION_TAIL then p + k else p - k
  }

  /** Placed children are contiguous: each starts where the previous one ended, in the layout direction. */
  ghost predicate Contiguous(placed: seq<Child>, d: Direction) {
    forall k :: 0 <= k < |placed| - 1 ==> NearEdge(placed[k + 1], d) == FarEdge(placed[k], d)
  }

  /** Successive positions in a run follow stepping through the adapter in direction `d`. */
  ghost predicate Stepping(placed: seq<Child>, d: Direction, circular: bool, itemCount: int) {
    forall k :: 0 <= k < |placed| - 1 ==>
      placed[k + 1].position == Step(placed[k].position, d, circular, itemCount)
  }

  /**
   * Some item takes up space. A circular fill over an adapter where every
   * item has size zero can never use up any space.
   */
  predicate CanCover(circular: bool, sizes: seq<nat>) {
    !circular || exists p :: 0 <= p < |sizes| && sizes[p] > 0
  }

  /** How many circular steps in direction `d` lead from position `p` to position `q`. */
  function Distance(p: int, q: int, d: Direction, itemCount: int): (r: int)
    ensures 0 <= p < itemCount && 0 <= q < itemCount ==> 0 <= r < itemCount && (r == 0 <==> p == q)
  {
    if d == DIRECTION_TAIL then (if p <= q then q - p else q - p + itemCount)
    else (if q <= p then p - q else p - q + itemCount)
  }

  /** A circular step from any position but `q` brings `q` one step closer. */
  lemma DistanceStep(p: int, q: int, d: Direction, itemCount: int)
    requires 0 <= p < itemCount && 0 <= q < itemCount && p != q
    ensures Distance(Step(p, d, true, itemCount), q, d, itemCount) == Distance(p, q, d, itemCount) - 1
  {
  }

  function Reverse(s: seq<Child>): (r: seq<Child>)
    ensures |r| == |s|
    ensures forall j :: 0 <= j < |s| ==> r[j] == s[|s| - 1 - j]
  {
    if |s| == 0 then [] else Reverse(s[1..]) + [s[0]]
  }

  lemma {:induction false} ReverseAppend(s: seq<Child>, ch: Child)
    ensures Reverse(s + [ch]) == [ch] + Reverse(s)
  {
    if |s| == 0 {
      assert Reverse([ch]) == Reverse([ch][1..]) + [ch];
    } else {
      assert (s + [ch])[1..] == s[1..] + [ch];
      ReverseAppend(s[1..], ch);
    }
  }

  /**
   * The attached children after adding `placed` in order: appended after the
   * last child when filling toward right/bottom, each one put before the
   * first child when filling toward left/top.
   */
  function Attach(attached: seq<Child>, placed: seq<Child>, d: Direction): seq<Child> {
    if d == DIRECTION_RIGHT_BOTTOM then attached + placed else Reverse(placed) + attached
  }

  lemma AttachOne(attached: seq<Child>, placed: seq<Child>, ch: Child, d: Direction)
    ensures Attach(attached, placed + [ch], d) ==
            if d == DIRECTION_RIGHT_BOTTOM then Attach(attached, placed, d) + [ch] else [ch] + Attach(attached, placed, d)
  {
    if d == DIRECTION_LEFT_TOP {
      ReverseAppend(placed, ch);
    }
  }

  lemma ExtentAppend(placed: seq<Child>, ch: Child)
    ensures Extent(placed + [ch]) == Extent(placed) + Size(ch)
  {
    assert (placed + [ch])[..|placed|] == placed;
  }

  /**
   * One iteration of the loop: fetch and place the item at the cursor, step
   * the position, move the offset past the item, and (while scrolling) grow
   * the scrolling budget by the item's size less any overdrawn space.
   */
  function FillStep(cur: Cursor, itemCount: int, sizes: seq<nat>): (Cursor, Child)
    requires |sizes| == itemCount && HasNext(cur, itemCount) && Fetchable(cur, itemCount)
  {
    var position := cur.currentPosition;
    var viewSize := sizes[position];
    var child := Place(cur, position, viewSize);
    var next := UpdateForFillingNext(MoveCurrentPosition(cur, itemCount), viewSize);
    if next.scrollingOffset.Some? then
      var adjusted := if next.availableSpace < 0 then next.scrollingOffset.value + next.availableSpace
                      else next.scrollingOffset.value;
      (next.(scrollingOffset := Some(adjusted + viewSize)), child)
    else
      (next, child)
  }

  /** Only the four moving fields of the cursor differ from the starting cursor. */
  predicate Frame(c: Cursor, cur: Cursor) {
    cur == c.(offset := cur.offset, availableSpace := cur.availableSpace,
              currentPosition := cur.currentPosition, scrollingOffset := cur.scrollingOffset)
  }

  /** The run placed so far is contiguous from the starting offset and accounts for the used space. */
  ghost predicate GeometryInv(c: Cursor, cur: Cursor, placed: seq<Child>) {
    && cur.availableSpace == c.availableSpace - Extent(placed)
    && cur.offset == Toward(c.offset, Extent(placed), c.layoutDirection)
    && (|placed| > 0 ==> NearEdge(placed[0], c.layoutDirection) == c.offset)
    && (|placed| > 0 ==> cur.offset == FarEdge(placed[|placed| - 1], c.layoutDirection))
    && Contiguous(placed, c.layoutDirection)
  }

  /** Every placed position is an adapter position reached by stepping from the start. */
  ghost predicate PositionInv(c: Cursor, cur: Cursor, placed: seq<Child>, itemCount: int, sizes: seq<nat>) {
    && |sizes| == itemCount
    && Fetchable(cur, itemCount)
    && (forall k :: 0 <= k < |placed| ==> 0 <= placed[k].position < itemCount)
    && (forall k :: 0 <= k < |placed| ==> Size(placed[k]) == sizes[placed[k].position] && !placed[k].removed)
    && (|placed| > 0 ==> placed[0].position == c.currentPosition)
    && Stepping(placed, c.itemDirection, c.circular, itemCount)
    && (!c.circular ==> forall k :: 0 <= k < |placed| ==> placed[k].position == Advance(c.currentPosition, k, c.itemDirection))
    && (!c.circular ==> cur.currentPosition == Advance(c.currentPosition, |placed|, c.itemDirection))
    && (|placed| > 0 ==> cur.currentPosition == Step(placed[|placed| - 1].position, c.itemDirection, c.circular, itemCount))
    && (|placed| == 0 ==> cur.currentPosition == c.currentPosition)
  }

  /** While the requested space is not overdrawn, the scrolling budget grew by exactly the placed extent. */
  ghost predicate BudgetInv(c: Cursor, cur: Cursor, placed: seq<Child>) {
    && (cur.scrollingOffset.Some? <==> c.scrollingOffset.Some?)
    && (c.scrollingOffset.Some? && cur.availableSpace >= 0 ==>
          cur.scrollingOffset.value == c.scrollingOffset.value + Extent(placed))
  }

  lemma StepKeepsGeometry(c: Cursor, cur: Cursor, placed: seq<Child>, itemCount: int, sizes: seq<nat>)
    requires |sizes| == itemCount && HasNext(cur, itemCount) && Fetchable(cur, itemCount)
    requires Frame(c, cur) && GeometryInv(c, cur, placed)
    ensures var (next, child) := FillStep(cur, itemCount, sizes);
            Frame(c, next) && GeometryInv(c, next, placed + [child])
  {
    var (next, child) := FillStep(cur, itemCount, sizes);
    ExtentAppend(placed, child);
    var placed' := placed + [child];
    assert placed'[..|placed|] == placed;
    assert forall k :: 0 <= k < |placed| ==> placed'[k] == placed[k];
  }

  lemma StepKeepsPositions(c: Cursor, cur: Cursor, placed: seq<Child>, itemCount: int, sizes: seq<nat>)
    requires |sizes| == itemCount && HasNext(cur, itemCount)
    requires Frame(c, cur) && PositionInv(c, cur, placed, itemCount, sizes)
    ensures var (next, child) := FillStep(cur, itemCount, sizes);
            PositionInv(c, next, placed + [child], itemCount, sizes)
  {
    var (next, child) := FillStep(cur, itemCount, sizes);
    var placed' := placed + [child];
    assert forall k :: 0 <= k < |placed| ==> placed'[k] == placed[k];
    assert !c.circular ==> next.currentPosition == cur.currentPosition + c.itemDirection;
  }

  lemma StepKeepsBudget(c: Cursor, cur: Cursor, placed: seq<Child>, itemCount: int, sizes: seq<nat>)
    requires |sizes| == itemCount && HasNext(cur, itemCount) && Fetchable(cur, itemCount)
    requires Frame(c, cur) && GeometryInv(c, cur, placed) && BudgetInv(c, cur, placed)
    ensures var (next, child) := FillStep(cur, itemCount, sizes);
            BudgetInv(c, next, placed + [child])
  {
    var (next, child) := FillStep(cur, itemCount, sizes);
    ExtentAppend(placed, child);
  }

  /** Everything the loop of `fill` keeps true about the run placed so far. */
  ghost predicate LoopInv(c: Cursor, start: Cursor, cur: Cursor, placed: seq<Child>, itemCount: int, sizes: seq<nat>) {
    && Frame(c, cur)
    && GeometryInv(c, cur, placed)
    && PositionInv(c, cur, placed, itemCount, sizes)
    && BudgetInv(c, cur, placed)
    && (|placed| > 0 ==> Extent(placed[..|placed| - 1]) < c.availableSpace + c.extraSpace)
    && (|placed| == 0 ==> cur == start)
  }

  lemma StepKeepsLoopInv(c: Cursor, start: Cursor, cur: Cursor, placed: seq<Child>, itemCount: int, sizes: seq<nat>)
    requires LoopInv(c, start, cur, placed, itemCount, sizes)
    requires HasNext(cur, itemCount) && cur.availableSpace + cur.extraSpace > 0
    ensures var (next, child) := FillStep(cur, itemCount, sizes);
            LoopInv(c, start, next, placed + [child], itemCount, sizes)
  {
    StepKeepsGeometry(c, cur, placed, itemCount, sizes);
    StepKeepsPositions(c, cur, placed, itemCount, sizes);
    StepKeepsBudget(c, cur, placed, itemCount, sizes);
    var (next, child) := FillStep(cur, itemCount, sizes);
    assert (placed + [child])[..|placed|] == placed;
    assert Extent(placed) == c.availableSpace - cur.availableSpace;
  }

  /** The first part of the loop's measure: the space left in circular mode. */
  function SpaceLeft(c: Cursor, cur: Cursor): int {
    if c.circular then cur.availableSpace + cur.extraSpace else 0
  }

  /**
   * The second part: in circular mode the steps to the sized item `q`,
   * otherwise the items left in the direction of travel.
   */
  function Rank(c: Cursor, cur: Cursor, itemCount: int, q: int): int {
    if c.circular then Distance(cur.currentPosition, q, c.itemDirection, itemCount)
    else if c.itemDirection == DIRECTION_TAIL then itemCount - cur.currentPosition
    else cur.currentPosition + 1
  }

  /**
   * Each step shrinks the loop's measure: in circular mode the space left or,
   * for an item of size zero, the distance to the sized item `q`; otherwise
   * the items left.
   */
  lemma StepDecreases(c: Cursor, start: Cursor, cur: Cursor, placed: seq<Child>, itemCount: int, sizes: seq<nat>, q: int)
    requires LoopInv(c, start, cur, placed, itemCount, sizes)
    requires HasNext(cur, itemCount)
    requires c.circular ==> 0 <= q < itemCount && sizes[q] > 0
    ensures var (next, child) := FillStep(cur, itemCount, sizes);
            0 <= Rank(c, cur, itemCount, q) &&
            (SpaceLeft(c, next) < SpaceLeft(c, cur) ||
             (SpaceLeft(c, next) == SpaceLeft(c, cur) && Rank(c, next, itemCount, q) < Rank(c, cur, itemCount, q))) &&
            next.availableSpace + next.extraSpace == cur.availableSpace + cur.extraSpace - Size(child)
  {
    var (next, child) := FillStep(cur, itemCount, sizes);
    assert 0 <= cur.currentPosition < itemCount;
    assert child.position == cur.currentPosition && Size(child) == sizes[cur.currentPosition];
    if c.circular && Size(child) == 0 {
      DistanceStep(cur.currentPosition, q, c.itemDirection, itemCount);
    }
  }

  /** What the attached children can be during the loop: without recycling, exactly the old ones plus the run. */
  ghost predicate AttachedInv(c: Cursor, attached0: seq<Child>, attached: seq<Child>, placed: seq<Child>) {
    && (!c.shouldRecycle ==> attached == Attach(attached0, placed, c.layoutDirection))
    && (forall x :: x in attached ==> x in attached0 || x in placed)
  }

  /** Attaching one placed child, then recycling with the moved cursor. */
  method AttachStep(c: Cursor, attached0: seq<Child>, attached: seq<Child>, placed: seq<Child>, child: Child,
                    next: Cursor, axis: Axis) returns (attached': seq<Child>)
    requires AttachedInv(c, attached0, attached, placed)
    requires next.shouldRecycle == c.shouldRecycle && next.layoutDirection == c.layoutDirection
    ensures AttachedInv(c, attached0, attached', placed + [child])
  {
    AttachOne(attached0, placed, child, c.layoutDirection);
    attached' := if c.layoutDirection == DIRECTION_RIGHT_BOTTOM then attached + [child] else [child] + attached;
    attached' := Recycle.RecycleChildren(next, attached', axis);
  }

  /** One pass of the loop body: place the next item, attach it, and recycle. */
  method FillIteration(c: Cursor, start: Cursor, cur: Cursor, placed: seq<Child>, attached0: seq<Child>, attached: seq<Child>,
                       itemCount: nat, sizes: seq<nat>, axis: Axis, ghost q: int)
    returns (next: Cursor, child: Child, attached': seq<Child>)
    requires LoopInv(c, start, cur, placed, itemCount, sizes)
    requires AttachedInv(c, attached0, attached, placed)
    requires HasNext(cur, itemCount) && cur.availableSpace + cur.extraSpace > 0
    requires c.circular ==> 0 <= q < itemCount && sizes[q] > 0
    ensures (next, child) == FillStep(cur, itemCount, sizes)
    ensures LoopInv(c, start, next, placed + [child], itemCount, sizes)
    ensures AttachedInv(c, attached0, attached', placed + [child])
    ensures 0 <= Rank(c, cur, itemCount, q)
    ensures SpaceLeft(c, next) < SpaceLeft(c, cur) ||
            (SpaceLeft(c, next) == SpaceLeft(c, cur) && Rank(c, next, itemCount, q) < Rank(c, cur, itemCount, q))
    ensures next.availableSpace + next.extraSpace == cur.availableSpace + cur.extraSpace - Size(child)
  {
    StepKeepsLoopInv(c, start, cur, placed, itemCount, sizes);
    StepDecreases(c, start, cur, placed, itemCount, sizes, q);
    next, child := FillStep(cur, itemCount, sizes).0, FillStep(cur, itemCount, sizes).1;
    attached' := AttachStep(c, attached0, attached, placed, child, next, axis);
  }

  /**
   * The loop of `fill`, from the (budget-adjusted) cursor `start`, with its
   * invariants. It also stops, before placing anything, on a circular
   * adapter whose items all have size zero: the loop as written never ends
   * there (see `ZeroSizedCircularFillNeverStops`).
   */
  method FillLoop(c: Cursor, start: Cursor, itemCount: nat, sizes: seq<nat>, attached0: seq<Child>, axis: Axis)
    returns (cur: Cursor, placed: seq<Child>, attached: seq<Child>)
    requires |sizes| == itemCount
    requires Fetchable(c, itemCount)
    requires start == c.(scrollingOffset := start.scrollingOffset)
    requires BudgetInv(c, start, [])
    ensures LoopInv(c, start, cur, placed, itemCount, sizes)
    ensures cur.availableSpace + cur.extraSpace <= 0 || !HasNext(cur, itemCount) || !CanCover(c.circular, sizes)
    ensures !CanCover(c.circular, sizes) ==> placed == [] && cur == start
    ensures AttachedInv(c, attached0, attached, placed)
  {
    cur := start;
    var remaining := cur.availableSpace + cur.extraSpace;
    placed := [];
    attached := attached0;
    var sized := CanCover(c.circular, sizes);
    ghost var q := 0;
    if c.circular && sized {
      q :| 0 <= q < |sizes| && sizes[q] > 0;
    }
    while remaining > 0 && HasNext(cur, itemCount) && sized
      invariant LoopInv(c, start, cur, placed, itemCount, sizes)
      invariant remaining == cur.availableSpace + cur.extraSpace
      invariant AttachedInv(c, attached0, attached, placed)
      invariant !sized ==> placed == []
      decreases SpaceLeft(c, cur), Rank(c, cur, itemCount, q)
    {
      var next, child;
      next, child, attached := FillIteration(c, start, cur, placed, attached0, attached, itemCount, sizes, axis, q);
      placed := placed + [child];
      remaining := remaining - Size(child);
      cur := next;
    }
  }

  /** The cursor after `k` runs of the loop body as written, exit test left out. */
  function StepTimes(cur: Cursor, itemCount: int, sizes: seq<nat>, k: nat): (r: Cursor)
    requires |sizes| == itemCount && cur.circular && itemCount > 0 && Fetchable(cur, itemCount)
    ensures r.circular && Fetchable(r, itemCount)
    decreases k
  {
    if k == 0 then cur
    else
      var next := FillStep(cur, itemCount, sizes).0;
      assert next.circular && Fetchable(next, itemCount);
      StepTimes(next, itemCount, sizes, k - 1)
  }

  /**
   * The loop as written on a circular adapter whose items all have size
   * zero: however many times the body runs, the space left never shrinks
   * and `hasNext` stays true, so the loop condition holds forever.
   */
  lemma {:induction false} ZeroSizedCircularFillNeverStops(cur: Cursor, itemCount: int, sizes: seq<nat>, k: nat)
    requires |sizes| == itemCount && cur.circular && itemCount > 0 && Fetchable(cur, itemCount)
    requires forall p :: 0 <= p < itemCount ==> sizes[p] == 0
    requires cur.availableSpace + cur.extraSpace > 0
    ensures var r := StepTimes(cur, itemCount, sizes, k);
            r.availableSpace + r.extraSpace == cur.availableSpace + cur.extraSpace && HasNext(r, itemCount)
    decreases k
  {
    if k > 0 {
      var next := FillStep(cur, itemCount, sizes).0;
      assert next.availableSpace + next.extraSpace == cur.availableSpace + cur.extraSpace;
      ZeroSizedCircularFillNeverStops(next, itemCount, sizes, k - 1);
    }
  }

  /**
   * `fill`: returns the moved cursor, the run it placed (in placement
   * order), the attached children afterwards, and the filled extent.
   */
  method Fill(c: Cursor, itemCount: nat, sizes: seq<nat>, attached0: seq<Child>, axis: Axis)
    returns (c': Cursor, placed: seq<Child>, attached: seq<Child>, filled: int)
    requires |sizes| == itemCount
    requires Fetchable(c, itemCount)
    // every fetched position is an adapter position, and each child has the measured size
    ensures forall k :: 0 <= k < |placed| ==> 0 <= placed[k].position < itemCount
    ensures forall k :: 0 <= k < |placed| ==> Size(placed[k]) == sizes[placed[k].position] && !placed[k].removed
    // the run starts at the cursor and is contiguous
    ensures |placed| > 0 ==> placed[0].position == c.currentPosition && NearEdge(placed[0], c.layoutDirection) == c.offset
    ensures Contiguous(placed, c.layoutDirection)
    ensures Stepping(placed, c.itemDirection, c.circular, itemCount)
    ensures !c.circular ==> forall k :: 0 <= k < |placed| ==> placed[k].position == Advance(c.currentPosition, k, c.itemDirection)
    // the cursor ends just past the run
    ensures |placed| > 0 ==> c'.offset == FarEdge(placed[|placed| - 1], c.layoutDirection)
    ensures |placed| > 0 ==> c'.currentPosition == Step(placed[|placed| - 1].position, c.itemDirection, c.circular, itemCount)
    ensures |placed| == 0 ==> c' == c.(scrollingOffset := c'.scrollingOffset)
    // the filled extent is the consumed space
    ensures filled == Extent(placed) == c.availableSpace - c'.availableSpace
    ensures c'.offset == Toward(c.offset, filled, c.layoutDirection)
    // it stops when the space is covered or the adapter has no next item, and not one item later
    ensures c'.availableSpace + c'.extraSpace <= 0 || !HasNext(c', itemCount) || !CanCover(c.circular, sizes)
    // a circular adapter of zero-size items gets nothing placed
    ensures !CanCover(c.circular, sizes) ==> placed == []
    ensures |placed| > 0 ==> Extent(placed[..|placed| - 1]) < c.availableSpace + c.extraSpace
    ensures Fetchable(c', itemCount)
    // scrolling bookkeeping
    ensures c'.scrollingOffset.Some? <==> c.scrollingOffset.Some?
    ensures c.scrollingOffset.Some? && c'.availableSpace >= 0 ==> c'.scrollingOffset.value == c.scrollingOffset.value + filled
    ensures Frame(c, c')
    // the children: all of them when recycling is off, otherwise no child appears from nowhere
    ensures !c.shouldRecycle ==> attached == Attach(attached0, placed, c.layoutDirection)
    ensures forall x :: x in attached ==> x in attached0 || x in placed
  {
    var start := c;
    if start.scrollingOffset.Some? && start.availableSpace < 0 {
      start := start.(scrollingOffset := Some(start.scrollingOffset.value + start.availableSpace));
    }
    var cur;
    cur, placed, attached := FillLoop(c, start, itemCount, sizes, attached0, axis);
    c' := cur;
    filled := c.availableSpace - cur.availableSpace;
  }
}
