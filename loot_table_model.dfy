/** Loot tables: reusable lists of independent drops. */
module LootTableModel {
  import opened Wrappers
  import opened Text
  import opened ItemModel

  datatype LootDrop = LootDrop(itemId: string, chance: real, minQuantity: int, maxQuantity: int) {
    /** The ranges both constructors enforce. */
    predicate InRange() {
      0.0 <= chance <= 1.0 && 0 <= minQuantity <= maxQuantity
    }
  }

  datatype LootTable = LootTable(id: string, drops: seq<LootDrop>)

  /** The `LootDrop` constructor. */
  function NewLootDrop(itemId: Option<string>, chance: real, minQuantity: int, maxQuantity: int): (r: Result<LootDrop>)
    ensures r.Ok? <==> !NullOrBlank(itemId) && 0.0 <= chance <= 1.0 && 0 <= minQuantity <= maxQuantity
    ensures r.Ok? ==> r.value.InRange() && r.value == LootDrop(itemId.value, chance, minQuantity, maxQuantity)
  {
    if NullOrBlank(itemId) then Err(IllegalArgument("LootDrop itemId cannot be null or blank"))
    else if chance < 0.0 || chance > 1.0 then Err(IllegalArgument("LootDrop chance must be between 0.0 and 1.0"))
    else if minQuantity < 0 then Err(IllegalArgument("LootDrop minQuantity cannot be negative"))
    else if maxQuantity < minQuantity then Err(IllegalArgument("LootDrop maxQuantity must be >= minQuantity"))
    else Ok(LootDrop(itemId.value, chance, minQuantity, maxQuantity))
  }

  /** The checks the `LootTable` constructor applies to one drop, in order. */
  function DropError(tableId: string, d: LootDrop, items: map<string, Item>): Option<Exception> {
    if IsBlank(d.itemId) then Some(IllegalArgument("LootDrop itemId cannot be null or blank"))
    else if d.itemId !in items then
      Some(IllegalArgument("LootDrop references non-existent item: " + d.itemId + " in LootTable: " + tableId))
    else if d.chance < 0.0 || d.chance > 1.0 then
      Some(IllegalArgument("LootDrop chance must be between 0.0 and 1.0, got: "))
    else if d.minQuantity < 0 then Some(IllegalArgument("LootDrop minQuantity cannot be negative"))
    else if d.maxQuantity < d.minQuantity then Some(IllegalArgument("LootDrop maxQuantity must be >= minQuantity"))
    else None
  }

  /** A drop passes the table's checks exactly when its item is known and
      its ranges are those the `LootDrop` constructor enforces. */
  lemma DropErrorIffOutOfRange(tableId: string, d: LootDrop, items: map<string, Item>)
    ensures DropError(tableId, d, items).None? <==> !IsBlank(d.itemId) && d.itemId in items && d.InRange()
  {
  }

  /** The error of the first drop, in list order, that fails a check. */
  function FirstDropError(tableId: string, drops: seq<LootDrop>, items: map<string, Item>): (e: Option<Exception>)
    ensures e.None? <==> forall i :: 0 <= i < |drops| ==> DropError(tableId, drops[i], items).None?
    ensures e.Some? ==> exists i :: 0 <= i < |drops| && DropError(tableId, drops[i], items) == e
                                   && forall j :: 0 <= j < i ==> DropError(tableId, drops[j], items).None?
    decreases |drops|
  {
    if drops == [] then None
    else
      match DropError(tableId, drops[0], items)
      case Some(x) => Some(x)
      case None =>
        var rest := FirstDropError(tableId, drops[1..], items);
        assert forall i :: 1 <= i < |drops| ==> drops[i] == drops[1..][i - 1];
        rest
  }

  /** The `LootTable` constructor: `items` is the item catalogue it
      cross-checks every drop against. */
  function NewLootTable(id: Option<string>, drops: Option<seq<LootDrop>>, items: map<string, Item>): (r: Result<LootTable>)
    ensures NullOrBlank(id) ==> r == Err(IllegalArgument("LootTable id cannot be null or blank"))
    ensures !NullOrBlank(id) && drops.None? ==> r == Err(IllegalArgument("Drops list cannot be null"))
    ensures r.Ok? ==> r.value == LootTable(id.value, drops.value)
  {
    if NullOrBlank(id) then Err(IllegalArgument("LootTable id cannot be null or blank"))
    else if drops.None? then Err(IllegalArgument("Drops list cannot be null"))
    else
      match FirstDropError(id.value, drops.value, items)
      case Some(e) => Err(e)
      case None => Ok(LootTable(id.value, drops.value))
  }

  /** What the table constructor guarantees of every drop. */
  predicate ValidTable(t: LootTable, items: map<string, Item>) {
    && !IsBlank(t.id)
    && forall i :: 0 <= i < |t.drops| ==>
         !IsBlank(t.drops[i].itemId) && t.drops[i].itemId in items && t.drops[i].InRange()
  }

  /** A table is accepted exactly when its id is present and every drop is
      valid; accepted drops have a non-empty quantity range. */
  lemma NewLootTableValid(id: Option<string>, drops: Option<seq<LootDrop>>, items: map<string, Item>)
    ensures NewLootTable(id, drops, items).Ok? <==>
            !NullOrBlank(id) && drops.Some? && ValidTable(LootTable(id.value, drops.value), items)
    ensures NewLootTable(id, drops, items).Ok? ==>
            forall d :: d in drops.value ==> d.maxQuantity - d.minQuantity + 1 >= 1
  {
    if !NullOrBlank(id) && drops.Some? {
      forall i | 0 <= i < |drops.value|
        ensures DropError(id.value, drops.value[i], items).None? <==>
                !IsBlank(drops.value[i].itemId) && drops.value[i].itemId in items && drops.value[i].InRange()
      {
        DropErrorIffOutOfRange(id.value, drops.value[i], items);
      }
    }
  }
}
