/**
 * The visibility tests of ViewBoundsHelper.kt and the index scans built on
 * them. Children and the parent are reduced to their edges along the
 * layout axis; the parent's edges are taken after its padding.
 */
module ViewBounds {
  import opened Wrappers

  /** A child's edges within the parent. */
  datatype Bounds = Bounds(start: int, end: int)

  /** The parent's start after padding and end before padding. */
  datatype Parent = Parent(start: int, end: int)

  datatype Visibility = Partially | Completely

  /** `x` lies on the closed segment `[lo, hi]`. */
  predicate In(x: int, lo: int, hi: int) {
    lo <= x <= hi
  }

  /** `isPartiallyVisible`: the child reaches into the parent without covering all of it. */
  predicate IsPartiallyVisible(childStart: int, childEnd: int, parentStart: int, parentEnd: int) {
    if childEnd < parentStart || childStart > parentEnd then false
    else childStart > parentStart || childEnd < parentEnd
  }

  /** `isCompletelyVisible`: the child lies within the parent. */
  predicate IsCompletelyVisible(childStart: int, childEnd: int, parentStart: int, parentEnd: int) {
    childStart >= parentStart && childEnd <= parentEnd
  }

  /**
   * Completely visible means every point of the child is a point of the
   * parent.
   */
  lemma CompletelyVisibleMeansContained(cs: int, ce: int, ps: int, pe: int)
    requires cs <= ce
    ensures IsCompletelyVisible(cs, ce, ps, pe) <==> (forall x :: In(x, cs, ce) ==> In(x, ps, pe))
  {
    if !IsCompletelyVisible(cs, ce, ps, pe) {
      if cs < ps {
        assert In(cs, cs, ce) && !In(cs, ps, pe);
      } else {
        assert In(ce, cs, ce) && !In(ce, ps, pe);
      }
    }
  }

  /**
   * Partially visible means the child shares a point with the parent and
   * misses some point of it; a child covering the whole parent is not
   * partially visible.
   */
  lemma PartiallyVisibleMeansOverlapWithoutCover(cs: int, ce: int, ps: int, pe: int)
    requires cs <= ce && ps <= pe
    ensures IsPartiallyVisible(cs, ce, ps, pe) <==>
            (exists x :: In(x, cs, ce) && In(x, ps, pe)) && (exists y :: In(y, ps, pe) && !In(y, cs, ce))
  {
    if IsPartiallyVisible(cs, ce, ps, pe) {
      var x := if cs < ps then ps else cs;
      assert In(x, cs, ce) && In(x, ps, pe);
      if cs > ps {
        assert In(ps, ps, pe) && !In(ps, cs, ce);
      } else {
        assert In(pe, ps, pe) && !In(pe, cs, ce);
      }
    } else if ce < ps || cs > pe {
      forall x | In(x, cs, ce) ensures !In(x, ps, pe) {}
    } else {
      forall y | In(y, ps, pe) ensures In(y, cs, ce) {}
    }
  }

  /** A completely visible child is partially visible exactly when it is not the whole parent. */
  lemma CompletelyVisibleIsPartialUnlessFilling(cs: int, ce: int, ps: int, pe: int)
    requires cs <= ce
    requires IsCompletelyVisible(cs, ce, ps, pe)
    ensures IsPartiallyVisible(cs, ce, ps, pe) <==> !(cs == ps && ce == pe)
  {
  }

  /** `getChildAt`: no child outside the index range, or where the callback has none. */
  function ChildAt(children: seq<Option<Bounds>>, i: int): (r: Option<Bounds>)
    ensures r.Some? ==> 0 <= i < |children| && children[i] == r
  {
    if 0 <= i < |children| then children[i] else None
  }

  predicate Matches(children: seq<Option<Bounds>>, i: int, kind: Visibility, parent: Parent) {
    match ChildAt(children, i)
    case None => false
    case Some(b) =>
      if kind == Partially then IsPartiallyVisible(b.start, b.end, parent.start, parent.end)
      else IsCompletelyVisible(b.start, b.end, parent.start, parent.end)
  }

  /**
   * The indices a scan visits: `from` up to `to - 1` when `from < to`,
   * otherwise `from` down to `to + 1`; `to` is never visited.
   */
  predicate Visited(from: int, to: int, i: int) {
    if from < to then from <= i < to else to < i <= from
  }

  /** `j` is visited before `i`. */
  predicate VisitedBefore(from: int, to: int, j: int, i: int) {
    if from < to then from <= j < i else i < j <= from
  }

  /**
   * `findPartiallyVisibleView` and `findCompletelyVisibleView`: the index of
   * the first visited child with the wanted visibility, or `None`.
   */
  method FindVisibleView(children: seq<Option<Bounds>>, from: int, to: int, kind: Visibility, parent: Parent)
    returns (r: Option<int>)
    ensures r.Some? ==> Visited(from, to, r.value) && Matches(children, r.value, kind, parent)
    ensures r.Some? ==> forall j :: VisitedBefore(from, to, j, r.value) ==> !Matches(children, j, kind, parent)
    ensures r.None? ==> forall j :: Visited(from, to, j) ==> !Matches(children, j, kind, parent)
    ensures from == to ==> r.None?
  {
    if from < to {
      var i := from;
      while i < to
        invariant from <= i <= to
        invariant forall j :: from <= j < i ==> !Matches(children, j, kind, parent)
      {
        if Matches(children, i, kind, parent) {
          return Some(i);
        }
        i := i + 1;
      }
    } else {
      var i := from;
      while i > to
        invariant to <= i <= from
        invariant forall j :: i < j <= from ==> !Matches(children, j, kind, parent)
      {
        if Matches(children, i, kind, parent) {
          return Some(i);
        }
        i := i - 1;
      }
    }
    return None;
  }
}
