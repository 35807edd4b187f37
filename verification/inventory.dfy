/** A player's inventory: an ordered sequence of items and the operations on it. */
module Inventory {
  import opened Wrappers
  import opened Errors
  import Seqs
  import opened Clamp

  datatype Item = Item(id: string, name: string, qty: int)

  /** Position of the first item with id `itemId`, if any. */
  function ItemIndex(inv: seq<Item>, itemId: string): (r: Option<nat>)
    ensures r.Some? ==> r.value < |inv| && inv[r.value].id == itemId
    ensures r.Some? ==> forall j :: 0 <= j < r.value ==> inv[j].id != itemId
    ensures r.None? <==> forall j :: 0 <= j < |inv| ==> inv[j].id != itemId
  {
    var p := (it: Item) => it.id == itemId;
    assert forall j :: 0 <= j < |inv| ==> (p(inv[j]) <==> inv[j].id == itemId);
    Seqs.FirstIndex(inv, p)
  }

  predicate QtysNonNegative(inv: seq<Item>)
  {
    forall i :: 0 <= i < |inv| ==> inv[i].qty >= 0
  }

  predicate UniqueIds(inv: seq<Item>)
  {
    forall i, j :: 0 <= i < j < |inv| ==> inv[i].id != inv[j].id
  }

  /** Append a new item with quantity 1; a missing or blank name is refused. */
  function AddItem(inv: seq<Item>, itemId: string, itemName: Option<string>, upper: string -> string)
    : (r: Result<seq<Item>, Error>)
    ensures r.Err? <==> itemName.None? || itemName.value == ""
    ensures r.Err? ==> r.error == EmptyItemName
    ensures r.Ok? ==> |r.value| == |inv| + 1 && r.value[..|inv|] == inv
    ensures r.Ok? ==> r.value[|inv|] == Item(itemId, upper(itemName.value), 1)
  {
    if itemName.None? || itemName.value == "" then Err(EmptyItemName)
    else Ok(inv + [Item(itemId, upper(itemName.value), 1)])
  }

  /** The quantity after one `inc`/`dec`; `dec` never goes below zero. */
  function AdjustQty(qty: int, action: string): int
  {
    if action == "inc" then qty + 1
    else if action == "dec" then Max(0, qty - 1)
    else qty
  }

  /** Adjust the quantity of the first item with id `itemId`; nothing else changes. */
  function UpdateQty(inv: seq<Item>, itemId: string, action: string): (r: seq<Item>)
    ensures |r| == |inv|
    ensures forall j :: 0 <= j < |inv| ==> r[j].id == inv[j].id && r[j].name == inv[j].name
    ensures ItemIndex(inv, itemId).None? ==> r == inv
    ensures ItemIndex(inv, itemId).Some? ==>
      var i := ItemIndex(inv, itemId).value;
      && (forall j :: 0 <= j < |inv| && j != i ==> r[j] == inv[j])
      && (action == "inc" ==> r[i].qty == inv[i].qty + 1)
      && (action == "dec" ==> r[i].qty == (if inv[i].qty > 0 then inv[i].qty - 1 else 0))
    ensures action != "inc" && action != "dec" ==> r == inv
    ensures QtysNonNegative(inv) ==> QtysNonNegative(r)
  {
    match ItemIndex(inv, itemId)
    case None => inv
    case Some(i) => inv[i := inv[i].(qty := AdjustQty(inv[i].qty, action))]
  }

  /** Remove every item with id `itemId`, keeping the others in order. */
  function DeleteItem(inv: seq<Item>, itemId: string): (r: seq<Item>)
    ensures |r| <= |inv|
    ensures forall j :: 0 <= j < |r| ==> r[j] in inv && r[j].id != itemId
    ensures forall j :: 0 <= j < |inv| && inv[j].id != itemId ==> inv[j] in r
  {
    Seqs.Filter(inv, (it: Item) => it.id != itemId)
  }

  /** Deleting an item twice is deleting it once. */
  lemma DeleteItemIdempotent(inv: seq<Item>, itemId: string)
    ensures DeleteItem(DeleteItem(inv, itemId), itemId) == DeleteItem(inv, itemId)
  {
    Seqs.FilterIdempotent(inv, (it: Item) => it.id != itemId);
  }

  /** Deleting an absent id is a no-op. */
  lemma DeleteAbsentItem(inv: seq<Item>, itemId: string)
    requires forall j :: 0 <= j < |inv| ==> inv[j].id != itemId
    ensures DeleteItem(inv, itemId) == inv
  {
    Seqs.FilterKeepsAll(inv, (it: Item) => it.id != itemId);
  }

  /** Deletion works piecewise, so the surviving items keep their relative order. */
  lemma DeleteItemConcat(a: seq<Item>, b: seq<Item>, itemId: string)
    ensures DeleteItem(a + b, itemId) == DeleteItem(a, itemId) + DeleteItem(b, itemId)
  {
    Seqs.FilterConcat(a, b, (it: Item) => it.id != itemId);
  }

  /** Move the first item with id `itemId` one place `up` or `down`; at the ends, or for an absent id, nothing moves. */
  function Reorder(inv: seq<Item>, itemId: string, direction: string): (r: seq<Item>)
    ensures |r| == |inv| && multiset(r) == multiset(inv)
    ensures ItemIndex(inv, itemId).None? ==> r == inv
    ensures ItemIndex(inv, itemId).Some? ==>
      var i := ItemIndex(inv, itemId).value;
      && (direction == "up" && i > 0 ==> r == Seqs.Swap(inv, i, i - 1))
      && (direction == "down" && i < |inv| - 1 ==> r == Seqs.Swap(inv, i, i + 1))
      && (direction == "up" && i == 0 ==> r == inv)
      && (direction == "down" && i == |inv| - 1 ==> r == inv)
    ensures direction != "up" && direction != "down" ==> r == inv
  {
    match ItemIndex(inv, itemId)
    case None => inv
    case Some(i) =>
      if direction == "up" && i > 0 then Seqs.Swap(inv, i, i - 1)
      else if direction == "down" && i < |inv| - 1 then Seqs.Swap(inv, i, i + 1)
      else inv
  }

  /** Moving an item up and then down again restores the inventory. */
  lemma ReorderUpThenDown(inv: seq<Item>, itemId: string)
    requires ItemIndex(inv, itemId).Some? && ItemIndex(inv, itemId).value > 0
    ensures Reorder(Reorder(inv, itemId, "up"), itemId, "down") == inv
  {
    var i := ItemIndex(inv, itemId).value;
    var up := Reorder(inv, itemId, "up");
    assert up == Seqs.Swap(inv, i, i - 1);
    assert up[i - 1].id == itemId;
    assert ItemIndex(up, itemId) == Some(i - 1);
    assert Seqs.Swap(up, i - 1, i) == inv;
  }

  /** With unique ids, moving an item down and then up again restores the inventory. */
  lemma ReorderDownThenUp(inv: seq<Item>, itemId: string)
    requires UniqueIds(inv)
    requires ItemIndex(inv, itemId).Some? && ItemIndex(inv, itemId).value < |inv| - 1
    ensures Reorder(Reorder(inv, itemId, "down"), itemId, "up") == inv
  {
    var i := ItemIndex(inv, itemId).value;
    var down := Reorder(inv, itemId, "down");
    assert down == Seqs.Swap(inv, i, i + 1);
    assert down[i].id != itemId;
    assert ItemIndex(down, itemId) == Some(i + 1);
    assert Seqs.Swap(down, i + 1, i) == inv;
  }

  /** A sequence whose items are all drawn from `inv` has non-negative quantities when `inv` has. */
  lemma DrawnFromKeepsQtys(inv: seq<Item>, r: seq<Item>)
    requires QtysNonNegative(inv)
    requires forall j :: 0 <= j < |r| ==> r[j] in inv
    ensures QtysNonNegative(r)
  {
    forall j | 0 <= j < |r|
      ensures r[j].qty >= 0
    {
      var k :| 0 <= k < |inv| && inv[k] == r[j];
    }
  }

  /** No inventory operation makes a quantity negative. */
  lemma OperationsKeepQtysNonNegative(inv: seq<Item>, itemId: string, name: Option<string>, action: string,
                                      upper: string -> string)
    requires QtysNonNegative(inv)
    ensures AddItem(inv, itemId, name, upper).Ok? ==> QtysNonNegative(AddItem(inv, itemId, name, upper).value)
    ensures QtysNonNegative(UpdateQty(inv, itemId, action))
    ensures QtysNonNegative(DeleteItem(inv, itemId))
    ensures QtysNonNegative(Reorder(inv, itemId, action))
  {
    DrawnFromKeepsQtys(inv, DeleteItem(inv, itemId));
    var r := Reorder(inv, itemId, action);
    forall j | 0 <= j < |r|
      ensures r[j] in inv
    {
      assert r[j] in multiset(inv);
    }
    DrawnFromKeepsQtys(inv, r);
  }
}
