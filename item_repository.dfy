/** The persistent table of item instances and its three finders. The
    table is the sequence of its rows in insertion order; a finder that
    returns one row returns the first match in that order. */
module ItemRepository {
  import opened Wrappers

  /** The slot value of a row that is not equipped. */
  const INVENTORY: string := "INVENTORY"

  /** One item instance. `id` is the generated key; `currentDurability` is
      absent for non-equipment. */
  datatype ItemRow = ItemRow(
    id: nat,
    ownerId: string,
    itemId: string,
    quantity: int,
    slot: string,
    currentDurability: Option<real>)

  /** `findByOwnerId`: the owner's rows, equipped ones included, in table
      order. */
  function FindByOwnerId(rows: seq<ItemRow>, ownerId: string): (found: seq<ItemRow>)
    ensures forall r :: r in found <==> r in rows && r.ownerId == ownerId
    ensures |found| <= |rows|
    decreases |rows|
  {
    if rows == [] then []
    else
      var rest := FindByOwnerId(rows[1..], ownerId);
      assert forall r :: r in rows <==> r == rows[0] || r in rows[1..];
      if rows[0].ownerId == ownerId then [rows[0]] + rest else rest
  }

  /** The position of the first row of `ownerId` holding `itemId`. */
  function FirstMatch(rows: seq<ItemRow>, ownerId: string, itemId: string): (k: Option<nat>)
    ensures k.Some? ==> k.value < |rows| && rows[k.value].ownerId == ownerId && rows[k.value].itemId == itemId
    ensures k.Some? ==> forall j :: 0 <= j < k.value ==> !(rows[j].ownerId == ownerId && rows[j].itemId == itemId)
    ensures k.None? <==> forall j :: 0 <= j < |rows| ==> !(rows[j].ownerId == ownerId && rows[j].itemId == itemId)
    decreases |rows|
  {
    if rows == [] then None
    else if rows[0].ownerId == ownerId && rows[0].itemId == itemId then Some(0)
    else
      match FirstMatch(rows[1..], ownerId, itemId)
      case None => None
      case Some(k) => Some(k + 1)
  }

  /** `findByOwnerIdAndItemId`: a row of the owner holding the item,
      whatever its slot, or none exactly when there is no such row. */
  function FindByOwnerIdAndItemId(rows: seq<ItemRow>, ownerId: string, itemId: string): (r: Option<ItemRow>)
    ensures r.Some? ==> r.value in rows && r.value.ownerId == ownerId && r.value.itemId == itemId
    ensures r.None? <==> forall x :: x in rows ==> !(x.ownerId == ownerId && x.itemId == itemId)
  {
    match FirstMatch(rows, ownerId, itemId)
    case None => None
    case Some(k) => Some(rows[k])
  }

  /** `findEquippedByOwnerId`: the owner's rows whose slot is not
      INVENTORY, in table order. */
  function FindEquippedByOwnerId(rows: seq<ItemRow>, ownerId: string): (found: seq<ItemRow>)
    ensures forall r :: r in found <==> r in rows && r.ownerId == ownerId && r.slot != INVENTORY
    decreases |rows|
  {
    if rows == [] then []
    else
      var rest := FindEquippedByOwnerId(rows[1..], ownerId);
      assert forall r :: r in rows <==> r == rows[0] || r in rows[1..];
      if rows[0].ownerId == ownerId && rows[0].slot != INVENTORY then [rows[0]] + rest else rest
  }

  /** `findById`: the position of the row with the given key. */
  function FindById(rows: seq<ItemRow>, id: nat): (k: Option<nat>)
    ensures k.Some? ==> k.value < |rows| && rows[k.value].id == id
    ensures k.None? <==> forall j :: 0 <= j < |rows| ==> rows[j].id != id
    decreases |rows|
  {
    if rows == [] then None
    else if rows[0].id == id then Some(0)
    else
      match FindById(rows[1..], id)
      case None => None
      case Some(k) => Some(k + 1)
  }

  /** The equipped rows of an owner are among that owner's rows. */
  lemma {:induction false} EquippedAreOwned(rows: seq<ItemRow>, ownerId: string)
    ensures forall r :: r in FindEquippedByOwnerId(rows, ownerId) ==> r in FindByOwnerId(rows, ownerId)
    ensures |FindEquippedByOwnerId(rows, ownerId)| <= |FindByOwnerId(rows, ownerId)|
    decreases |rows|
  {
    if rows != [] {
      EquippedAreOwned(rows[1..], ownerId);
    }
  }
}
