/**
 * The `viewHolderIdsByItemId` sparse array of CarouselFragmentStateAdapter.kt:
 * which view holder shows which item, kept one-to-one as holders are bound
 * and recycled. The array is a sequence of entries walked by index, as
 * `keyAt`/`valueAt` walk it; its keys are distinct.
 */
module FragmentBindings {
  import opened Wrappers

  /** One slot of the array: an item id and the id of the view holder showing it. */
  datatype Entry = Entry(itemId: int, viewHolderId: int)

  type Bindings = seq<Entry>

  /** No item id occurs twice, as in any sparse array. */
  predicate DistinctItems(b: Bindings) {
    forall i, j :: 0 <= i < j < |b| ==> b[i].itemId != b[j].itemId
  }

  /** The slot holding `itemId`, or -1: the first slot with that key. */
  function IndexOf(b: Bindings, itemId: int): (r: int)
    ensures -1 <= r < |b|
    ensures r == -1 <==> forall i :: 0 <= i < |b| ==> b[i].itemId != itemId
    ensures r >= 0 ==> b[r].itemId == itemId && forall i :: 0 <= i < r ==> b[i].itemId != itemId
  {
    if |b| == 0 then -1
    else if b[0].itemId == itemId then 0
    else
      var rest := IndexOf(b[1..], itemId);
      if rest == -1 then -1 else rest + 1
  }

  /** `get`: the view holder recorded for an item. */
  function Holder(b: Bindings, itemId: int): (r: Option<int>)
    ensures r.None? <==> forall i :: 0 <= i < |b| ==> b[i].itemId != itemId
    ensures r.Some? ==> exists i :: 0 <= i < |b| && b[i] == Entry(itemId, r.value)
  {
    var i := IndexOf(b, itemId);
    if i == -1 then None else Some(b[i].viewHolderId)
  }

  /** The first slot holding a key is where `IndexOf` finds it. */
  lemma IndexOfIs(b: Bindings, itemId: int, k: int)
    requires 0 <= k < |b| && b[k].itemId == itemId
    requires forall j :: 0 <= j < k ==> b[j].itemId != itemId
    ensures IndexOf(b, itemId) == k
  {
  }

  /** In an array with distinct keys, each slot is where its key is found. */
  lemma SlotOfItem(b: Bindings, i: int)
    requires DistinctItems(b) && 0 <= i < |b|
    ensures IndexOf(b, b[i].itemId) == i
    ensures Holder(b, b[i].itemId) == Some(b[i].viewHolderId)
  {
  }

  /** `put`: overwrite the slot of `itemId`, or add one at the end. */
  function Put(b: Bindings, itemId: int, viewHolderId: int): (r: Bindings)
  {
    var i := IndexOf(b, itemId);
    if i == -1 then b + [Entry(itemId, viewHolderId)] else b[i := Entry(itemId, viewHolderId)]
  }

  /** `remove`: drop the slot of `itemId`, if there is one. */
  function Remove(b: Bindings, itemId: int): (r: Bindings)
  {
    var i := IndexOf(b, itemId);
    if i == -1 then b else b[..i] + b[i + 1..]
  }

  /** After `put`, the item maps to the new holder and every other item keeps its holder. */
  lemma PutHolder(b: Bindings, itemId: int, viewHolderId: int, other: int)
    ensures DistinctItems(b) ==> DistinctItems(Put(b, itemId, viewHolderId))
    ensures Holder(Put(b, itemId, viewHolderId), other) ==
            if other == itemId then Some(viewHolderId) else Holder(b, other)
  {
    var r := Put(b, itemId, viewHolderId);
    var i := IndexOf(b, itemId);
    if other != itemId {
      var k := IndexOf(b, other);
      if k == -1 {
        assert forall j :: 0 <= j < |r| ==> r[j].itemId != other;
      } else {
        assert r[k] == b[k];
        IndexOfIs(r, other, k);
      }
    } else if i != -1 {
      IndexOfIs(r, itemId, i);
    } else {
      IndexOfIs(r, itemId, |b|);
    }
  }

  /** Dropping slot `i` shifts every later slot down by one. */
  lemma DropSlot(b: Bindings, i: int)
    requires 0 <= i < |b|
    ensures var r := b[..i] + b[i + 1..];
            |r| == |b| - 1 &&
            (forall j :: 0 <= j < i ==> r[j] == b[j]) &&
            (forall j :: i <= j < |r| ==> r[j] == b[j + 1])
  {
  }

  /** After `remove` on an array with distinct keys, the item has no holder and every other item keeps its own. */
  lemma RemoveHolder(b: Bindings, itemId: int, other: int)
    requires DistinctItems(b)
    ensures DistinctItems(Remove(b, itemId))
    ensures Holder(Remove(b, itemId), other) == if other == itemId then None else Holder(b, other)
  {
    var i := IndexOf(b, itemId);
    if i != -1 {
      DropSlot(b, i);
      if other == itemId {
        RemovedItemGone(b, i);
      } else {
        RemoveKeepsOther(b, i, other);
      }
    }
  }

  /** The dropped slot's key is gone from an array with distinct keys. */
  lemma RemovedItemGone(b: Bindings, i: int)
    requires DistinctItems(b) && 0 <= i < |b|
    ensures var r := b[..i] + b[i + 1..];
            DistinctItems(r) && Holder(r, b[i].itemId) == None
  {
    var r := b[..i] + b[i + 1..];
    DropSlot(b, i);
    assert forall j :: 0 <= j < |r| ==> r[j].itemId != b[i].itemId;
  }

  /** Dropping one slot leaves every other key's holder where it was. */
  lemma RemoveKeepsOther(b: Bindings, i: int, other: int)
    requires DistinctItems(b) && 0 <= i < |b| && b[i].itemId != other
    ensures Holder(b[..i] + b[i + 1..], other) == Holder(b, other)
  {
    var r := b[..i] + b[i + 1..];
    DropSlot(b, i);
    var k := IndexOf(b, other);
    if k == -1 {
      assert forall j :: 0 <= j < |r| ==> r[j].itemId != other;
    } else if k < i {
      IndexOfIs(r, other, k);
    } else {
      assert r[k - 1] == b[k];
      IndexOfIs(r, other, k - 1);
    }
  }

  /** Two slots hold the same view holder. */
  ghost predicate Shared(b: Bindings, viewHolderId: int) {
    exists i, j :: 0 <= i < j < |b| && b[i].viewHolderId == viewHolderId && b[j].viewHolderId == viewHolderId
  }

  /** Each view holder shows at most one item. */
  ghost predicate Injective(b: Bindings) {
    forall x, y :: Holder(b, x).Some? && Holder(b, x) == Holder(b, y) ==> x == y
  }

  /** With distinct keys, a shared holder is exactly a failure of injectivity. */
  lemma SharedBreaksInjective(b: Bindings, viewHolderId: int)
    requires DistinctItems(b) && Shared(b, viewHolderId)
    ensures !Injective(b)
  {
    var i, j :| 0 <= i < j < |b| && b[i].viewHolderId == viewHolderId && b[j].viewHolderId == viewHolderId;
    SlotOfItem(b, i);
    SlotOfItem(b, j);
  }

  /**
   * `findBoundItemIdByViewHolderId`: walks the slots in order and returns
   * the item of the one slot holding `viewHolderId`; a second such slot
   * throws.
   */
  method FindBoundItemIdByViewHolderId(b: Bindings, viewHolderId: int) returns (r: Result<Option<int>, string>)
    ensures r.Err? <==> Shared(b, viewHolderId)
    ensures r == Ok(None) <==> forall i :: 0 <= i < |b| ==> b[i].viewHolderId != viewHolderId
    ensures r.Ok? && r.value.Some? ==>
              forall i :: 0 <= i < |b| && b[i].viewHolderId == viewHolderId ==> b[i].itemId == r.value.value
    ensures r.Ok? && r.value.Some? ==> exists i :: 0 <= i < |b| && b[i] == Entry(r.value.value, viewHolderId)
  {
    var key: Option<int> := None;
    ghost var at := -1;
    var i := 0;
    while i < |b|
      invariant 0 <= i <= |b|
      invariant key.None? ==> forall j :: 0 <= j < i ==> b[j].viewHolderId != viewHolderId
      invariant key.Some? ==>
                  0 <= at < i && b[at] == Entry(key.value, viewHolderId) &&
                  forall j :: 0 <= j < i && b[j].viewHolderId == viewHolderId ==> j == at
    {
      if b[i].viewHolderId == viewHolderId {
        if key.Some? {
          assert b[at].viewHolderId == viewHolderId && b[i].viewHolderId == viewHolderId;
          return Err("A ViewHolder can be bound to one item");
        }
        key := Some(b[i].itemId);
        at := i;
      }
      i := i + 1;
    }
    if key.Some? {
      assert b[at].viewHolderId == viewHolderId;
    }
    return Ok(key);
  }

  /** What `findBoundItemIdByViewHolderId` finds, read through `Holder`. */
  lemma FoundHolder(b: Bindings, viewHolderId: int, found: Option<int>)
    requires DistinctItems(b)
    requires found.None? ==> forall i :: 0 <= i < |b| ==> b[i].viewHolderId != viewHolderId
    requires found.Some? ==> exists i :: 0 <= i < |b| && b[i] == Entry(found.value, viewHolderId)
    requires found.Some? ==> forall i :: 0 <= i < |b| && b[i].viewHolderId == viewHolderId ==> b[i].itemId == found.value
    ensures found.None? ==> forall x :: Holder(b, x) != Some(viewHolderId)
    ensures found.Some? ==> Holder(b, found.value) == Some(viewHolderId)
    ensures found.Some? ==> forall x :: Holder(b, x) == Some(viewHolderId) ==> x == found.value
  {
    if found.Some? {
      var i :| 0 <= i < |b| && b[i] == Entry(found.value, viewHolderId);
      SlotOfItem(b, i);
    }
  }

  /** The bindings after a holder's previous item `bound` is unbound (when it is not `itemId`) and `itemId` is bound to it. */
  function Rebind(b: Bindings, bound: Option<int>, itemId: int, viewHolderId: int): Bindings {
    var cleared := if bound.Some? && bound.value != itemId then Remove(b, bound.value) else b;
    Put(cleared, itemId, viewHolderId)
  }

  /** The bindings after a holder's item `bound`, if any, is unbound. */
  function Unbind(b: Bindings, bound: Option<int>): Bindings {
    if bound.Some? then Remove(b, bound.value) else b
  }

  /** The holder of every item after `Rebind` with the holder's only item as `bound`. */
  lemma RebindHolder(b: Bindings, bound: Option<int>, itemId: int, viewHolderId: int, x: int)
    requires DistinctItems(b)
    requires bound.None? ==> forall y :: Holder(b, y) != Some(viewHolderId)
    requires bound.Some? ==> forall y :: Holder(b, y) == Some(viewHolderId) <==> y == bound.value
    ensures DistinctItems(Rebind(b, bound, itemId, viewHolderId))
    ensures Holder(Rebind(b, bound, itemId, viewHolderId), x) ==
            if x == itemId then Some(viewHolderId)
            else if Holder(b, x) == Some(viewHolderId) then None
            else Holder(b, x)
  {
    var cleared := if bound.Some? && bound.value != itemId then Remove(b, bound.value) else b;
    if bound.Some? && bound.value != itemId {
      RemoveHolder(b, bound.value, x);
    }
    PutHolder(cleared, itemId, viewHolderId, x);
  }

  /** The holder of every item after `Unbind` with the holder's only item as `bound`. */
  lemma UnbindHolder(b: Bindings, bound: Option<int>, viewHolderId: int, x: int)
    requires DistinctItems(b)
    requires bound.None? ==> forall y :: Holder(b, y) != Some(viewHolderId)
    requires bound.Some? ==> forall y :: Holder(b, y) == Some(viewHolderId) <==> y == bound.value
    ensures DistinctItems(Unbind(b, bound))
    ensures Holder(Unbind(b, bound), x) == if Holder(b, x) == Some(viewHolderId) then None else Holder(b, x)
  {
    if bound.Some? {
      RemoveHolder(b, bound.value, x);
    }
  }

  /** `Rebind` keeps a one-to-one binding one-to-one. */
  lemma RebindInjective(b: Bindings, bound: Option<int>, itemId: int, viewHolderId: int)
    requires DistinctItems(b) && Injective(b)
    requires bound.None? ==> forall y :: Holder(b, y) != Some(viewHolderId)
    requires bound.Some? ==> forall y :: Holder(b, y) == Some(viewHolderId) <==> y == bound.value
    ensures Injective(Rebind(b, bound, itemId, viewHolderId))
  {
    var r := Rebind(b, bound, itemId, viewHolderId);
    forall x, y | Holder(r, x).Some? && Holder(r, x) == Holder(r, y)
      ensures x == y
    {
      RebindHolder(b, bound, itemId, viewHolderId, x);
      RebindHolder(b, bound, itemId, viewHolderId, y);
      if x != itemId && y != itemId {
        assert Holder(b, x).Some? && Holder(b, x) == Holder(b, y);
      }
    }
  }

  /** `Unbind` keeps a one-to-one binding one-to-one. */
  lemma UnbindInjective(b: Bindings, bound: Option<int>, viewHolderId: int)
    requires DistinctItems(b) && Injective(b)
    requires bound.None? ==> forall y :: Holder(b, y) != Some(viewHolderId)
    requires bound.Some? ==> forall y :: Holder(b, y) == Some(viewHolderId) <==> y == bound.value
    ensures Injective(Unbind(b, bound))
  {
    forall x ensures Holder(Unbind(b, bound), x) == if Holder(b, x) == Some(viewHolderId) then None else Holder(b, x) {
      UnbindHolder(b, bound, viewHolderId, x);
    }
  }

  /**
   * The binding part of `onBindViewHolder`: the holder's previous item, if
   * another, loses its binding, and the item is bound to the holder.
   */
  method OnBindViewHolder(b: Bindings, itemId: int, viewHolderId: int) returns (r: Result<Bindings, string>)
    requires DistinctItems(b)
    ensures r.Err? <==> Shared(b, viewHolderId)
    ensures r.Ok? ==> DistinctItems(r.value) && Holder(r.value, itemId) == Some(viewHolderId)
    ensures r.Ok? ==> forall x :: x != itemId ==>
              Holder(r.value, x) == if Holder(b, x) == Some(viewHolderId) then None else Holder(b, x)
    ensures Injective(b) ==> r.Ok? && Injective(r.value)
  {
    var bound := FindBoundItemIdByViewHolderId(b, viewHolderId);
    if bound.Err? {
      if Injective(b) {
        SharedBreaksInjective(b, viewHolderId);
      }
      return Err(bound.error);
    }
    FoundHolder(b, viewHolderId, bound.value);
    r := Ok(Rebind(b, bound.value, itemId, viewHolderId));
    forall x ensures DistinctItems(r.value) && Holder(r.value, x) ==
                     if x == itemId then Some(viewHolderId)
                     else if Holder(b, x) == Some(viewHolderId) then None
                     else Holder(b, x) {
      RebindHolder(b, bound.value, itemId, viewHolderId, x);
    }
    if Injective(b) {
      RebindInjective(b, bound.value, itemId, viewHolderId);
    }
  }

  /** The binding part of `onViewRecycled`: the holder's item, if any, loses its binding. */
  method OnViewRecycled(b: Bindings, viewHolderId: int) returns (r: Result<Bindings, string>)
    requires DistinctItems(b)
    ensures r.Err? <==> Shared(b, viewHolderId)
    ensures r.Ok? ==> DistinctItems(r.value)
    ensures r.Ok? ==> forall x :: Holder(r.value, x) == if Holder(b, x) == Some(viewHolderId) then None else Holder(b, x)
    ensures Injective(b) ==> r.Ok? && Injective(r.value)
  {
    var bound := FindBoundItemIdByViewHolderId(b, viewHolderId);
    if bound.Err? {
      if Injective(b) {
        SharedBreaksInjective(b, viewHolderId);
      }
      return Err(bound.error);
    }
    FoundHolder(b, viewHolderId, bound.value);
    r := Ok(Unbind(b, bound.value));
    forall x ensures DistinctItems(r.value) && Holder(r.value, x) == if Holder(b, x) == Some(viewHolderId) then None else Holder(b, x) {
      UnbindHolder(b, bound.value, viewHolderId, x);
    }
    if Injective(b) {
      UnbindInjective(b, bound.value, viewHolderId);
    }
  }
}
