/** The inventory service: adding, removing and equipping item instances
    in the persistent item table. Each public operation is one atomic
    transaction: when it fails, the table is as it was. */
module Inventory {
  import opened Wrappers
  import opened EquipmentModel
  import opened ItemModel
  import opened StaticData
  import opened ItemRepository

  /** The whole table: its rows and the next key the database will hand out. */
  datatype Table = Table(rows: seq<ItemRow>, nextId: nat)

  /** What every operation keeps: keys are distinct and already handed
      out, every row holds at least one item, and an owner has at most one
      row in each equipment slot. */
  ghost predicate TableInvariant(t: Table) {
    && (forall i :: 0 <= i < |t.rows| ==> t.rows[i].id < t.nextId && t.rows[i].quantity > 0)
    && (forall i, j :: 0 <= i < j < |t.rows| ==> t.rows[i].id != t.rows[j].id)
    && SlotExclusive(t.rows)
  }

  /** At most one row per (owner, equipment slot). */
  ghost predicate SlotExclusive(rows: seq<ItemRow>) {
    forall i, j ::
      0 <= i < j < |rows| && rows[i].ownerId == rows[j].ownerId && rows[i].slot == rows[j].slot
      ==> rows[i].slot == INVENTORY
  }

  /** The durability a picked instance of a blueprint starts with. */
  function InitialDurability(item: Item): (d: Option<real>)
    ensures d.Some? <==> item.IsEquipable()
    ensures d.Some? ==> d.value == item.equipmentDetails.value.durabilityMax as real
  {
    if item.IsEquipable() then Some(item.equipmentDetails.value.durabilityMax as real) else None
  }

  /** Whether `addItem` grows the first matching row instead of creating one. */
  predicate Stacks(t: Table, item: Item, ownerId: string, itemId: string) {
    var k := FirstMatch(t.rows, ownerId, itemId);
    k.Some? && t.rows[k.value].slot == INVENTORY && item.stackable
  }

  /** `addItem`: the new table and the row created or updated. */
  function AddItemSpec(t: Table, items: map<string, Item>, ownerId: string, itemId: string, q: int): (r: Result<(Table, ItemRow)>)
    ensures q <= 0 ==> r == Err(IllegalArgument("Quantity must be positive"))
    ensures q > 0 && itemId !in items ==> r == Err(IllegalArgument("Item not found: " + itemId))
    ensures r.Ok? <==> q > 0 && itemId in items
    ensures r.Ok? && Stacks(t, items[itemId], ownerId, itemId) ==>
              |r.value.0.rows| == |t.rows| && r.value.0.nextId == t.nextId
    ensures r.Ok? && !Stacks(t, items[itemId], ownerId, itemId) ==>
              |r.value.0.rows| == |t.rows| + 1 && r.value.0.rows[..|t.rows|] == t.rows
    ensures r.Ok? && Stacks(t, items[itemId], ownerId, itemId) ==>
              var k := FirstMatch(t.rows, ownerId, itemId).value;
              && r.value.1 == t.rows[k].(quantity := t.rows[k].quantity + q)
              && r.value.0.rows == t.rows[k := r.value.1]
    ensures r.Ok? && !Stacks(t, items[itemId], ownerId, itemId) ==>
              && r.value.1 == ItemRow(t.nextId, ownerId, itemId, q, INVENTORY, InitialDurability(items[itemId]))
              && r.value.0 == Table(t.rows + [r.value.1], t.nextId + 1)
  {
    if q <= 0 then Err(IllegalArgument("Quantity must be positive"))
    else
      match Lookup("Item not found: ", items, itemId)
      case Err(e) => Err(e)
      case Ok(item) =>
        if Stacks(t, item, ownerId, itemId) then
          var k := FirstMatch(t.rows, ownerId, itemId).value;
          var row := t.rows[k].(quantity := t.rows[k].quantity + q);
          Ok((t.(rows := t.rows[k := row]), row))
        else
          var row := ItemRow(t.nextId, ownerId, itemId, q, INVENTORY, InitialDurability(item));
          assert (t.rows + [row])[..|t.rows|] == t.rows;
          Ok((Table(t.rows + [row], t.nextId + 1), row))
  }

  /** `removeItem`: the new table, or None when the method answers false
      (and so changes nothing). */
  function RemoveItemSpec(t: Table, ownerId: string, itemId: string, q: int): (r: Option<Table>)
    ensures FirstMatch(t.rows, ownerId, itemId).None? ==> r.None?
    ensures r.Some? ==> r.value.nextId == t.nextId
    ensures r.Some? ==> |r.value.rows| == |t.rows| || |r.value.rows| == |t.rows| - 1
    ensures r.Some? <==> FirstMatch(t.rows, ownerId, itemId).Some?
                         && t.rows[FirstMatch(t.rows, ownerId, itemId).value].quantity >= q
    ensures r.Some? ==>
              var k := FirstMatch(t.rows, ownerId, itemId).value;
              var left := t.rows[k].quantity - q;
              && (left <= 0 ==> r.value.rows == t.rows[..k] + t.rows[k + 1..])
              && (left > 0 ==> r.value.rows == t.rows[k := t.rows[k].(quantity := left)])
  {
    match FirstMatch(t.rows, ownerId, itemId)
    case None => None
    case Some(k) =>
      if t.rows[k].quantity < q then None
      else
        var left := t.rows[k].quantity - q;
        if left <= 0 then Some(t.(rows := t.rows[..k] + t.rows[k + 1..]))
        else Some(t.(rows := t.rows[k := t.rows[k].(quantity := left)]))
  }

  /** `hasItem`: the row found for (owner, item) holds at least `required`. */
  predicate HasItem(t: Table, ownerId: string, itemId: string, required: int) {
    var row := FindByOwnerIdAndItemId(t.rows, ownerId, itemId);
    row.Some? && row.value.quantity >= required
  }

  /** The rows after the unequip loop: every row of the owner in `slot`
      goes back to INVENTORY. */
  function Unequipped(rows: seq<ItemRow>, ownerId: string, slot: string): (out: seq<ItemRow>)
    ensures |out| == |rows|
    ensures forall i :: 0 <= i < |rows| && rows[i].ownerId == ownerId && rows[i].slot == slot ==>
              out[i] == rows[i].(slot := INVENTORY)
    ensures forall i :: 0 <= i < |rows| && !(rows[i].ownerId == ownerId && rows[i].slot == slot) ==>
              out[i] == rows[i]
  {
    seq(|rows|, i requires 0 <= i < |rows| =>
      if rows[i].ownerId == ownerId && rows[i].slot == slot then rows[i].(slot := INVENTORY) else rows[i])
  }

  /** `equipItem`: the new table and the equipped row. */
  function EquipItemSpec(t: Table, items: map<string, Item>, ownerId: string, rowId: nat, slot: string): (r: Result<(Table, ItemRow)>)
    ensures r.Ok? ==> r.value.0.nextId == t.nextId && |r.value.0.rows| == |t.rows|
    ensures r.Ok? ==> r.value.1.slot == slot && r.value.1.id == rowId && r.value.1.ownerId == ownerId
  {
    match FindById(t.rows, rowId)
    case None => Err(IllegalArgument("Item not found or not owned by player"))
    case Some(k) =>
      var row := t.rows[k];
      if row.ownerId != ownerId then Err(IllegalArgument("Item not found or not owned by player"))
      else if row.slot != INVENTORY then Err(IllegalArgument("Item is already equipped in slot: " + row.slot))
      else
        match Lookup("Item not found: ", items, row.itemId)
        case Err(e) => Err(e)
        case Ok(blueprint) =>
          if !blueprint.IsEquipable() then Err(IllegalArgument("Item is not equipable: " + row.itemId))
          else
            var itemSlot := blueprint.equipmentDetails.value.slot.Name();
            if itemSlot != slot then
              Err(IllegalArgument("Item slot mismatch: item is " + itemSlot + ", requested " + slot))
            else
              var equipped := row.(slot := slot);
              Ok((t.(rows := Unequipped(t.rows, ownerId, slot)[k := equipped]), equipped))
  }

  /** The persistent item table. */
  class ItemTable {
    var rows: seq<ItemRow>
    var nextId: nat

    function State(): Table
      reads this
    {
      Table(rows, nextId)
    }

    ghost predicate Valid()
      reads this
    {
      TableInvariant(State())
    }

    /** An empty table; generated keys start at 1. */
    constructor ()
      ensures Valid() && rows == [] && nextId == 1
    {
      rows := [];
      nextId := 1;
    }

    /** `addItem`: stacks onto the first matching row when that row is
        unequipped and the blueprint stacks; otherwise creates a row. */
    method AddItem(items: map<string, Item>, ownerId: string, itemId: string, q: int) returns (r: Result<ItemRow>)
      requires Valid()
      modifies this
      ensures Valid()
      ensures match AddItemSpec(old(State()), items, ownerId, itemId, q)
              case Ok(res) => State() == res.0 && r == Ok(res.1)
              case Err(e) => State() == old(State()) && r == Err(e)
    {
      AddPreservesInvariant(State(), items, ownerId, itemId, q);
      if q <= 0 {
        return Err(IllegalArgument("Quantity must be positive"));
      }
      var item :- Lookup("Item not found: ", items, itemId);
      var k := FirstMatch(rows, ownerId, itemId);
      if k.Some? && rows[k.value].slot == INVENTORY && item.stackable {
        var row := rows[k.value].(quantity := rows[k.value].quantity + q);
        rows := rows[k.value := row];
        return Ok(row);
      }
      var row := ItemRow(nextId, ownerId, itemId, q, INVENTORY, InitialDurability(item));
      rows := rows + [row];
      nextId := nextId + 1;
      r := Ok(row);
    }

    /** `removeItem`: false, with nothing changed, when no row matches or
        the first match holds too few; otherwise decrements that row and
        deletes it when it reaches zero. */
    method RemoveItem(ownerId: string, itemId: string, q: int) returns (removed: bool)
      requires Valid()
      modifies this
      ensures Valid()
      ensures removed <==> RemoveItemSpec(old(State()), ownerId, itemId, q).Some?
      ensures removed ==> State() == RemoveItemSpec(old(State()), ownerId, itemId, q).value
      ensures !removed ==> State() == old(State())
    {
      RemovePreservesInvariant(State(), ownerId, itemId, q);
      var k := FirstMatch(rows, ownerId, itemId);
      if k.None? {
        return false;
      }
      var i := k.value;
      if rows[i].quantity < q {
        return false;
      }
      var left := rows[i].quantity - q;
      if left <= 0 {
        rows := rows[..i] + rows[i + 1..];
      } else {
        rows := rows[i := rows[i].(quantity := left)];
      }
      removed := true;
    }

    /** `hasItem`. */
    function HasItemNow(ownerId: string, itemId: string, required: int): (b: bool)
      reads this
      ensures b <==> RemoveItemSpec(State(), ownerId, itemId, required).Some?
    {
      HasItemIffRemovable(State(), ownerId, itemId, required);
      HasItem(State(), ownerId, itemId, required)
    }

    /** `getInventory`: every row of the owner. */
    function GetInventory(ownerId: string): (found: seq<ItemRow>)
      reads this
      ensures forall r :: r in found <==> r in rows && r.ownerId == ownerId
    {
      FindByOwnerId(rows, ownerId)
    }

    /** `getEquippedItems`: the owner's rows outside INVENTORY. */
    function GetEquippedItems(ownerId: string): (found: seq<ItemRow>)
      reads this
      ensures forall r :: r in found <==> r in rows && r.ownerId == ownerId && r.slot != INVENTORY
    {
      FindEquippedByOwnerId(rows, ownerId)
    }

    /** `equipItem`: validates the row and the blueprint, moves every row
        of the owner in that slot back to INVENTORY, then equips the row. */
    method EquipItem(items: map<string, Item>, ownerId: string, rowId: nat, slot: string) returns (r: Result<ItemRow>)
      requires Valid()
      modifies this
      ensures Valid()
      ensures match EquipItemSpec(old(State()), items, ownerId, rowId, slot)
              case Ok(res) => State() == res.0 && r == Ok(res.1)
              case Err(e) => State() == old(State()) && r == Err(e)
    {
      EquipPreservesInvariant(State(), items, ownerId, rowId, slot);
      var k := FindById(rows, rowId);
      if k.None? || rows[k.value].ownerId != ownerId {
        return Err(IllegalArgument("Item not found or not owned by player"));
      }
      var row := rows[k.value];
      if row.slot != INVENTORY {
        return Err(IllegalArgument("Item is already equipped in slot: " + row.slot));
      }
      var blueprint :- Lookup("Item not found: ", items, row.itemId);
      if !blueprint.IsEquipable() {
        return Err(IllegalArgument("Item is not equipable: " + row.itemId));
      }
      var itemSlot := blueprint.equipmentDetails.value.slot.Name();
      if itemSlot != slot {
        return Err(IllegalArgument("Item slot mismatch: item is " + itemSlot + ", requested " + slot));
      }
      ghost var before := rows;
      ghost var target := Unequipped(before, ownerId, slot);
      var i := 0;
      while i < |rows|
        invariant 0 <= i <= |rows| == |before|
        invariant forall j :: 0 <= j < i ==> rows[j] == target[j]
        invariant forall j :: i <= j < |rows| ==> rows[j] == before[j]
        invariant nextId == old(nextId)
      {
        if rows[i].ownerId == ownerId && rows[i].slot == slot {
          rows := rows[i := rows[i].(slot := INVENTORY)];
        }
        i := i + 1;
      }
      assert rows == target;
      rows := rows[k.value := row.(slot := slot)];
      r := Ok(row.(slot := slot));
    }
  }

  /** No equipment slot is called INVENTORY. */
  lemma SlotNameNotInventory(s: EquipmentSlot)
    ensures s.Name() != INVENTORY
  {
  }

  /** Raising the key counter keeps the invariant. */
  lemma InvariantRaiseNextId(rows: seq<ItemRow>, n: nat, m: nat)
    requires TableInvariant(Table(rows, n)) && n <= m
    ensures TableInvariant(Table(rows, m))
  {
  }

  lemma AddPreservesInvariant(t: Table, items: map<string, Item>, ownerId: string, itemId: string, q: int)
    requires TableInvariant(t)
    ensures AddItemSpec(t, items, ownerId, itemId, q).Ok? ==> TableInvariant(AddItemSpec(t, items, ownerId, itemId, q).value.0)
  {
  }

  lemma RemovePreservesInvariant(t: Table, ownerId: string, itemId: string, q: int)
    requires TableInvariant(t)
    ensures RemoveItemSpec(t, ownerId, itemId, q).Some? ==> TableInvariant(RemoveItemSpec(t, ownerId, itemId, q).value)
  {
    match FirstMatch(t.rows, ownerId, itemId)
    case None =>
    case Some(k) =>
      if t.rows[k].quantity >= q && t.rows[k].quantity - q <= 0 {
        DeleteKeepsInvariant(t, k);
      }
  }

  /** Deleting one row keeps the invariant. */
  lemma DeleteKeepsInvariant(t: Table, k: nat)
    requires TableInvariant(t) && k < |t.rows|
    ensures TableInvariant(t.(rows := t.rows[..k] + t.rows[k + 1..]))
  {
    var rows' := t.rows[..k] + t.rows[k + 1..];
    assert forall i :: 0 <= i < |rows'| ==> rows'[i] == t.rows[if i < k then i else i + 1];
    forall i, j | 0 <= i < j < |rows'|
      ensures rows'[i].id != rows'[j].id
      ensures rows'[i].ownerId == rows'[j].ownerId && rows'[i].slot == rows'[j].slot ==> rows'[i].slot == INVENTORY
    {
      var i0 := if i < k then i else i + 1;
      var j0 := if j < k then j else j + 1;
      assert rows'[i] == t.rows[i0] && rows'[j] == t.rows[j0] && i0 < j0;
    }
  }

  lemma EquipPreservesInvariant(t: Table, items: map<string, Item>, ownerId: string, rowId: nat, slot: string)
    requires TableInvariant(t)
    ensures EquipItemSpec(t, items, ownerId, rowId, slot).Ok? ==> TableInvariant(EquipItemSpec(t, items, ownerId, rowId, slot).value.0)
  {
  }

  /** `hasItem` answers true exactly when `removeItem` with the same
      quantity would succeed. */
  lemma HasItemIffRemovable(t: Table, ownerId: string, itemId: string, q: int)
    ensures HasItem(t, ownerId, itemId, q) <==> RemoveItemSpec(t, ownerId, itemId, q).Some?
  {
  }

  /** Changing the row found first, but not its owner or item, keeps it
      the first match. */
  lemma FirstMatchAfterUpdate(rows: seq<ItemRow>, ownerId: string, itemId: string, k: nat, row: ItemRow)
    requires FirstMatch(rows, ownerId, itemId) == Some(k)
    requires row.ownerId == ownerId && row.itemId == itemId
    ensures FirstMatch(rows[k := row], ownerId, itemId) == Some(k)
  {
    var rows' := rows[k := row];
    assert rows'[k].ownerId == ownerId && rows'[k].itemId == itemId;
    assert forall j :: 0 <= j < k ==> rows'[j] == rows[j];
  }

  /** With no match yet, a row appended for (owner, item) is the first match. */
  lemma FirstMatchAfterAppend(rows: seq<ItemRow>, ownerId: string, itemId: string, row: ItemRow)
    requires FirstMatch(rows, ownerId, itemId).None?
    requires row.ownerId == ownerId && row.itemId == itemId
    ensures FirstMatch(rows + [row], ownerId, itemId) == Some(|rows|)
  {
    var rows' := rows + [row];
    assert rows'[|rows|] == row;
    assert forall j :: 0 <= j < |rows| ==> rows'[j] == rows[j];
  }

  /** A row that comes first among the rows of (owner, item) is the one
      found for them. */
  lemma FirstMatchIs(rows: seq<ItemRow>, ownerId: string, itemId: string, j: nat)
    requires j < |rows| && rows[j].ownerId == ownerId && rows[j].itemId == itemId
    requires forall i :: 0 <= i < j ==> !(rows[i].ownerId == ownerId && rows[i].itemId == itemId)
    ensures FirstMatch(rows, ownerId, itemId) == Some(j)
  {
  }

  /** Deleting a row of another (owner, item) leaves the row found for
      (owner, item) as it was. */
  lemma FindAfterDelete(rows: seq<ItemRow>, ownerId: string, itemId: string, k: nat)
    requires k < |rows| && !(rows[k].ownerId == ownerId && rows[k].itemId == itemId)
    ensures FindByOwnerIdAndItemId(rows[..k] + rows[k + 1..], ownerId, itemId) == FindByOwnerIdAndItemId(rows, ownerId, itemId)
  {
    var rows' := rows[..k] + rows[k + 1..];
    assert forall i :: 0 <= i < |rows'| ==> rows'[i] == rows[if i < k then i else i + 1];
    if FirstMatch(rows, ownerId, itemId).Some? {
      var j := FirstMatch(rows, ownerId, itemId).value;
      var j' := if j < k then j else j - 1;
      assert rows'[j'] == rows[j];
      FirstMatchIs(rows', ownerId, itemId, j');
    }
  }

  /** Rewriting a row of another (owner, item), keeping it of another one,
      leaves the row found for (owner, item) as it was. */
  lemma FindAfterOtherUpdate(rows: seq<ItemRow>, ownerId: string, itemId: string, k: nat, row: ItemRow)
    requires k < |rows| && !(rows[k].ownerId == ownerId && rows[k].itemId == itemId)
    requires !(row.ownerId == ownerId && row.itemId == itemId)
    ensures FindByOwnerIdAndItemId(rows[k := row], ownerId, itemId) == FindByOwnerIdAndItemId(rows, ownerId, itemId)
  {
    var rows' := rows[k := row];
    assert forall i :: 0 <= i < |rows| && i != k ==> rows'[i] == rows[i];
    if FirstMatch(rows, ownerId, itemId).Some? {
      FirstMatchIs(rows', ownerId, itemId, FirstMatch(rows, ownerId, itemId).value);
    }
  }

  /** Removing one item leaves the answer of `hasItem` for every other
      item of the owner as it was. */
  lemma RemovalKeepsOtherHoldings(t: Table, ownerId: string, a: string, q: int, b: string, q2: int)
    requires a != b && RemoveItemSpec(t, ownerId, a, q).Some?
    ensures HasItem(RemoveItemSpec(t, ownerId, a, q).value, ownerId, b, q2) <==> HasItem(t, ownerId, b, q2)
  {
    var k := FirstMatch(t.rows, ownerId, a).value;
    var left := t.rows[k].quantity - q;
    var t' := RemoveItemSpec(t, ownerId, a, q).value;
    if left <= 0 {
      assert t'.rows == t.rows[..k] + t.rows[k + 1..];
      FindAfterDelete(t.rows, ownerId, b, k);
    } else {
      assert t'.rows == t.rows[k := t.rows[k].(quantity := left)];
      FindAfterOtherUpdate(t.rows, ownerId, b, k, t.rows[k].(quantity := left));
    }
    assert FindByOwnerIdAndItemId(t'.rows, ownerId, b) == FindByOwnerIdAndItemId(t.rows, ownerId, b);
  }

  /** Round trip on a stack: when the row found for (owner, item) is
      unequipped and the blueprint stacks, adding q and then removing q
      gives back the very same table. */
  lemma AddThenRemoveStacked(t: Table, items: map<string, Item>, ownerId: string, itemId: string, q: int)
    requires TableInvariant(t)
    requires q > 0 && itemId in items && Stacks(t, items[itemId], ownerId, itemId)
    ensures AddItemSpec(t, items, ownerId, itemId, q).Ok?
    ensures RemoveItemSpec(AddItemSpec(t, items, ownerId, itemId, q).value.0, ownerId, itemId, q) == Some(t)
  {
    var k := FirstMatch(t.rows, ownerId, itemId).value;
    var row := t.rows[k].(quantity := t.rows[k].quantity + q);
    var added := t.(rows := t.rows[k := row]);
    assert AddItemSpec(t, items, ownerId, itemId, q) == Ok((added, row));
    FirstMatchAfterUpdate(t.rows, ownerId, itemId, k, row);
    assert t.rows[k].quantity > 0;
    assert RemoveItemSpec(added, ownerId, itemId, q)
           == Some(added.(rows := added.rows[k := row.(quantity := t.rows[k].quantity)]));
    assert t.rows[k := row][k := row.(quantity := t.rows[k].quantity)] == t.rows;
  }

  /** Round trip on a picked row: with no row yet for (owner, item), adding
      q and removing q deletes the row just created; only the key counter
      has moved on. */
  lemma AddThenRemoveFresh(t: Table, items: map<string, Item>, ownerId: string, itemId: string, q: int)
    requires q > 0 && itemId in items && FirstMatch(t.rows, ownerId, itemId).None?
    ensures AddItemSpec(t, items, ownerId, itemId, q).Ok?
    ensures RemoveItemSpec(AddItemSpec(t, items, ownerId, itemId, q).value.0, ownerId, itemId, q)
            == Some(t.(nextId := t.nextId + 1))
  {
    var row := ItemRow(t.nextId, ownerId, itemId, q, INVENTORY, InitialDurability(items[itemId]));
    FirstMatchAfterAppend(t.rows, ownerId, itemId, row);
    var rows' := t.rows + [row];
    assert AddItemSpec(t, items, ownerId, itemId, q).value.0 == Table(rows', t.nextId + 1);
    assert rows'[..|t.rows|] + rows'[|t.rows| + 1..] == t.rows;
  }

  /** Because the finder does not look at the slot, removing an item the
      player has just picked up can take away the equipped instance: with
      a bronze sword equipped, adding a second one and removing one
      deletes the equipped sword and keeps the picked-up one. */
  lemma RemoveCanTakeEquippedRow()
    ensures var equipped := ItemRow(1, "p1", "bronze_sword", 1, "WEAPON", Some(100.0));
            var picked := ItemRow(2, "p1", "bronze_sword", 1, INVENTORY, Some(100.0));
            var t := Table([equipped], 2);
            && AddItemSpec(t, ShippedItems(), "p1", "bronze_sword", 1) == Ok((Table([equipped, picked], 3), picked))
            && RemoveItemSpec(Table([equipped, picked], 3), "p1", "bronze_sword", 1) == Some(Table([picked], 3))
  {
    var equipped := ItemRow(1, "p1", "bronze_sword", 1, "WEAPON", Some(100.0));
    var picked := ItemRow(2, "p1", "bronze_sword", 1, INVENTORY, Some(100.0));
    assert ShippedItems()["bronze_sword"] == BronzeSword && BronzeSword.IsEquipable();
    assert InitialDurability(BronzeSword) == Some(100.0);
    assert FirstMatch([equipped], "p1", "bronze_sword") == Some(0);
    assert !Stacks(Table([equipped], 2), BronzeSword, "p1", "bronze_sword");
    assert [equipped] + [picked] == [equipped, picked];
    assert Lookup("Item not found: ", ShippedItems(), "bronze_sword") == Ok(BronzeSword);
    assert FirstMatch([equipped, picked], "p1", "bronze_sword") == Some(0);
    assert [equipped, picked][..0] + [equipped, picked][1..] == [picked];
  }

  /** `removeItem` of more than the first matching row holds fails. */
  lemma RemoveMoreThanHeldFails(t: Table, ownerId: string, itemId: string)
    requires FirstMatch(t.rows, ownerId, itemId).Some?
    ensures var k := FirstMatch(t.rows, ownerId, itemId).value;
            RemoveItemSpec(t, ownerId, itemId, t.rows[k].quantity + 1).None?
  {
  }

  /** `equipItem` succeeds exactly when the row exists, belongs to the
      player, is unequipped, and its blueprint is equipment for the
      requested slot. */
  lemma EquipSucceedsIff(t: Table, items: map<string, Item>, ownerId: string, rowId: nat, slot: string)
    ensures EquipItemSpec(t, items, ownerId, rowId, slot).Ok? <==>
      && FindById(t.rows, rowId).Some?
      && var row := t.rows[FindById(t.rows, rowId).value];
         && row.ownerId == ownerId
         && row.slot == INVENTORY
         && row.itemId in items
         && items[row.itemId].IsEquipable()
         && items[row.itemId].equipmentDetails.value.slot.Name() == slot
  {
  }

  /** After a successful equip, the row holds the slot and is the owner's
      only row there: the owner's row that held the slot before goes back
      to INVENTORY. Every row keeps its key, owner, item, quantity and
      durability; rows in other slots and other players' rows are untouched. */
  lemma EquipEffect(t: Table, items: map<string, Item>, ownerId: string, rowId: nat, slot: string)
    requires TableInvariant(t)
    requires EquipItemSpec(t, items, ownerId, rowId, slot).Ok?
    ensures var t' := EquipItemSpec(t, items, ownerId, rowId, slot).value.0;
            var k := FindById(t.rows, rowId).value;
            && t'.rows[k] == t.rows[k].(slot := slot)
            && (forall i :: 0 <= i < |t.rows| ==>
                  && t'.rows[i].id == t.rows[i].id && t'.rows[i].ownerId == t.rows[i].ownerId
                  && t'.rows[i].itemId == t.rows[i].itemId && t'.rows[i].quantity == t.rows[i].quantity
                  && t'.rows[i].currentDurability == t.rows[i].currentDurability)
            && (forall i :: 0 <= i < |t.rows| && t.rows[i].ownerId != ownerId ==> t'.rows[i] == t.rows[i])
            && (forall i :: 0 <= i < |t.rows| && t'.rows[i].ownerId == ownerId && t'.rows[i].slot == slot ==> i == k)
            && (forall i :: 0 <= i < |t.rows| && i != k && t.rows[i].ownerId == ownerId && t.rows[i].slot == slot ==>
                  t'.rows[i].slot == INVENTORY)
            && (forall i :: 0 <= i < |t.rows| && i != k && t.rows[i].slot != slot ==> t'.rows[i] == t.rows[i])
  {
    var k := FindById(t.rows, rowId).value;
    var blueprint := items[t.rows[k].itemId];
    SlotNameNotInventory(blueprint.equipmentDetails.value.slot);
  }
}
