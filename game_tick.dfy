/** The state syncer: after each tick of a player's action, the signed
    per-item change between the inventory remembered from the previous
    tick and the inventory now, after which the remembered inventory is
    overwritten. The map of remembered inventories lives in memory and is
    never rolled back. */
module GameTick {
  import opened Wrappers
  import opened ItemRepository
  import opened Inventory
  import opened Players
  import opened ActionEngine

  /** `getOrDefault(key, 0)`. */
  function GetOrZero(m: map<string, int>, key: string): int {
    if key in m then m[key] else 0
  }

  /** Some row holds the item: the `anyMatch` of the removal check. */
  predicate Holds(rows: seq<ItemRow>, itemId: string) {
    exists i :: 0 <= i < |rows| && rows[i].itemId == itemId
  }

  /** No item occurs in two rows. */
  predicate UniqueItems(rows: seq<ItemRow>) {
    forall i, j :: 0 <= i < j < |rows| ==> rows[i].itemId != rows[j].itemId
  }

  /** The delta after the first loop: each row in turn, when its quantity
      differs from the remembered one, writes the difference under its
      item, overwriting what an earlier row wrote. */
  function ChangedEntries(rows: seq<ItemRow>, last: map<string, int>): (delta: map<string, int>)
    ensures forall k :: k in delta ==> delta[k] != 0
    ensures forall k :: k in delta ==> Holds(rows, k)
    decreases |rows|
  {
    if rows == [] then map[]
    else
      var init := rows[..|rows| - 1];
      var row := rows[|rows| - 1];
      var before := ChangedEntries(init, last);
      assert forall k :: Holds(init, k) ==> Holds(rows, k);
      var change := row.quantity - GetOrZero(last, row.itemId);
      if change != 0 then before[row.itemId := change] else before
  }

  /** What the second loop adds for the remembered items in `keys`: minus
      the remembered quantity of every item no row holds any more and the
      first loop did not mention. */
  function RemovedEntries(rows: seq<ItemRow>, last: map<string, int>, changed: map<string, int>, keys: set<string>)
    : (removed: map<string, int>)
    ensures forall k :: k in removed <==> k in keys && k in last && k !in changed && !Holds(rows, k)
  {
    map k | k in keys && k in last && k !in changed && !Holds(rows, k) :: -last[k]
  }

  /** `calculateInventoryDelta` for the owner's rows and the remembered
      inventory. */
  function Delta(rows: seq<ItemRow>, last: map<string, int>): map<string, int> {
    var changed := ChangedEntries(rows, last);
    changed + RemovedEntries(rows, last, changed, last.Keys)
  }

  /** The map `updateLastState` remembers: each row in turn writes its
      quantity under its item, so the last row of an item wins. */
  function Snapshot(rows: seq<ItemRow>): (state: map<string, int>)
    ensures forall k :: k in state <==> Holds(rows, k)
    decreases |rows|
  {
    if rows == [] then map[]
    else
      var init := rows[..|rows| - 1];
      var row := rows[|rows| - 1];
      assert forall k :: Holds(rows, k) <==> Holds(init, k) || row.itemId == k;
      Snapshot(init)[row.itemId := row.quantity]
  }

  /** The arguments of the delta frame a tick sends. */
  datatype DeltaUpdate = DeltaUpdate(playerId: string, xpDelta: map<string, int>, inventoryDelta: map<string, int>, health: int)

  /** Removing the last row keeps the items unique. */
  lemma UniqueInit(rows: seq<ItemRow>)
    requires UniqueItems(rows) && rows != []
    ensures UniqueItems(rows[..|rows| - 1])
    ensures !Holds(rows[..|rows| - 1], rows[|rows| - 1].itemId)
  {
  }

  /** With unique items, the first loop writes, for each item present,
      exactly the difference between its row and the remembered quantity,
      and writes nothing when they agree. */
  lemma {:induction false} ChangedEntriesUnique(rows: seq<ItemRow>, last: map<string, int>, k: string)
    requires UniqueItems(rows)
    ensures k in ChangedEntries(rows, last) ==> ChangedEntries(rows, last)[k] == Snapshot(rows)[k] - GetOrZero(last, k)
    ensures k !in ChangedEntries(rows, last) && Holds(rows, k) ==> Snapshot(rows)[k] == GetOrZero(last, k)
    decreases |rows|
  {
    if rows != [] {
      var init := rows[..|rows| - 1];
      UniqueInit(rows);
      ChangedEntriesUnique(init, last, k);
    }
  }

  /** With unique items, the remembered inventory plus the delta is the
      inventory now, item by item (a missing entry counting as 0). */
  lemma DeltaReconstructs(rows: seq<ItemRow>, last: map<string, int>)
    requires UniqueItems(rows)
    ensures forall k :: GetOrZero(last, k) + GetOrZero(Delta(rows, last), k) == GetOrZero(Snapshot(rows), k)
  {
    forall k
      ensures GetOrZero(last, k) + GetOrZero(Delta(rows, last), k) == GetOrZero(Snapshot(rows), k)
    {
      ChangedEntriesUnique(rows, last, k);
    }
  }

  /** No entry of a delta is 0 when no remembered quantity is 0. */
  lemma DeltaHasNoZeros(rows: seq<ItemRow>, last: map<string, int>)
    requires forall k :: k in last ==> last[k] != 0
    ensures forall k :: k in Delta(rows, last) ==> Delta(rows, last)[k] != 0
  {
  }

  /** Rows in the table hold at least one item, so a remembered inventory
      has no zero. */
  lemma SnapshotPositive(rows: seq<ItemRow>)
    requires forall i :: 0 <= i < |rows| ==> rows[i].quantity > 0
    ensures forall k :: k in Snapshot(rows) ==> Snapshot(rows)[k] > 0
    decreases |rows|
  {
    if rows != [] {
      SnapshotPositive(rows[..|rows| - 1]);
    }
  }

  /** With unique items, a second diff right after the snapshot, with
      nothing changed, is empty. */
  lemma SecondDiffEmpty(rows: seq<ItemRow>)
    requires UniqueItems(rows)
    ensures Delta(rows, Snapshot(rows)) == map[]
  {
    var d := Delta(rows, Snapshot(rows));
    forall k
      ensures k !in d
    {
      ChangedEntriesUnique(rows, Snapshot(rows), k);
    }
  }

  /** With two rows of one item, only the last is remembered, so an
      unchanged inventory reports the same non-zero change on every tick:
      bronze swords in rows of 3 and 1 report +2 forever. */
  lemma DuplicateRowsReportForever()
    ensures var rows := [ItemRow(1, "p1", "bronze_sword", 3, INVENTORY, Some(100.0)),
                         ItemRow(2, "p1", "bronze_sword", 1, INVENTORY, Some(100.0))];
            && Snapshot(rows) == map["bronze_sword" := 1]
            && Delta(rows, Snapshot(rows)) == map["bronze_sword" := 2]
  {
    var a := ItemRow(1, "p1", "bronze_sword", 3, INVENTORY, Some(100.0));
    var b := ItemRow(2, "p1", "bronze_sword", 1, INVENTORY, Some(100.0));
    var rows := [a, b];
    assert rows[..1] == [a] && [a][..0] == [];
    assert Snapshot(rows) == map["bronze_sword" := 1];
    assert ChangedEntries([a], map["bronze_sword" := 1]) == map["bronze_sword" := 2];
    assert ChangedEntries(rows, map["bronze_sword" := 1]) == map["bronze_sword" := 2];
    assert RemovedEntries(rows, map["bronze_sword" := 1], map["bronze_sword" := 2], {"bronze_sword"}) == map[];
  }

  /** The second loop, one remembered item further. */
  lemma RemovedStep(rows: seq<ItemRow>, last: map<string, int>, changed: map<string, int>, done: set<string>, key: string)
    requires key in last && key !in done
    ensures key in changed + RemovedEntries(rows, last, changed, done) <==> key in changed
    ensures changed + RemovedEntries(rows, last, changed, done + {key})
            == if key !in changed && !Holds(rows, key) then (changed + RemovedEntries(rows, last, changed, done))[key := -last[key]]
               else changed + RemovedEntries(rows, last, changed, done)
  {
  }

  /** The first loop of `calculateInventoryDelta`: every row whose quantity
      differs from the remembered one puts the difference. */
  method CollectChanges(rows: seq<ItemRow>, last: map<string, int>) returns (delta: map<string, int>)
    ensures delta == ChangedEntries(rows, last)
  {
    delta := map[];
    var i := 0;
    while i < |rows|
      invariant 0 <= i <= |rows|
      invariant delta == ChangedEntries(rows[..i], last)
    {
      assert rows[..i + 1][..i] == rows[..i];
      var change := rows[i].quantity - GetOrZero(last, rows[i].itemId);
      if change != 0 {
        delta := delta[rows[i].itemId := change];
      }
      i := i + 1;
    }
    assert rows[..i] == rows;
  }

  /** The second loop of `calculateInventoryDelta`: every remembered item
      the first loop did not mention and no row holds any more is put with
      minus its remembered quantity. */
  method CollectRemovals(rows: seq<ItemRow>, last: map<string, int>, changed: map<string, int>)
    returns (delta: map<string, int>)
    ensures delta == changed + RemovedEntries(rows, last, changed, last.Keys)
  {
    delta := changed;
    var pending := last.Keys;
    assert last.Keys - pending == {};
    while pending != {}
      invariant pending <= last.Keys
      invariant delta == changed + RemovedEntries(rows, last, changed, last.Keys - pending)
      decreases |pending|
    {
      var key :| key in pending;
      ghost var done := last.Keys - pending;
      assert last.Keys - (pending - {key}) == done + {key};
      RemovedStep(rows, last, changed, done, key);
      if key !in delta {
        var stillExists := Holds(rows, key);
        if !stillExists {
          delta := delta[key := -last[key]];
        }
      }
      pending := pending - {key};
    }
    assert last.Keys - pending == last.Keys;
  }

  /** The tick service, with the action service whose tables it reads. */
  class GameTickService {
    const actions: ActionService
    /** playerId -> itemId -> quantity at the previous tick. */
    var lastInventoryState: map<string, map<string, int>>

    ghost predicate Valid()
      reads this, actions, actions.inventory, actions.players
    {
      actions.Valid()
    }

    constructor (actions: ActionService)
      requires actions.Valid()
      ensures Valid() && this.actions == actions && lastInventoryState == map[]
    {
      this.actions := actions;
      lastInventoryState := map[];
    }

    /** The remembered inventory of a player, empty when there is none. */
    function Last(playerId: string): map<string, int>
      reads this
    {
      if playerId in lastInventoryState then lastInventoryState[playerId] else map[]
    }

    /** `calculateXpDelta`: experience changes are not tracked yet. */
    function CalculateXpDelta(playerId: string): (delta: map<string, int>)
      ensures |delta| == 0
    {
      map[]
    }

    /** `calculateInventoryDelta`: the changed items of the owner's rows,
        then the remembered items that are gone. */
    method CalculateInventoryDelta(playerId: string) returns (delta: map<string, int>)
      ensures delta == Delta(FindByOwnerId(actions.inventory.rows, playerId), Last(playerId))
    {
      var current := actions.inventory.GetInventory(playerId);
      var last := Last(playerId);
      var changed := CollectChanges(current, last);
      delta := CollectRemovals(current, last, changed);
    }

    /** `updateLastState`: remembers the owner's current item quantities. */
    method UpdateLastState(playerId: string)
      modifies this
      ensures lastInventoryState == old(lastInventoryState)[playerId := Snapshot(FindByOwnerId(actions.inventory.rows, playerId))]
    {
      var current := actions.inventory.GetInventory(playerId);
      var inventoryState: map<string, int> := map[];
      var i := 0;
      while i < |current|
        invariant 0 <= i <= |current|
        invariant inventoryState == Snapshot(current[..i])
      {
        assert current[..i + 1][..i] == current[..i];
        inventoryState := inventoryState[current[i].itemId := current[i].quantity];
        i := i + 1;
      }
      assert current[..i] == current;
      lastInventoryState := lastInventoryState[playerId := inventoryState];
    }

    /** `processPlayerTick`: nothing without an active action; otherwise
        one tick of the action, then the delta to send and the new
        snapshot. A failing tick propagates before either. */
    method ProcessPlayerTick(playerId: string, elapsed: real) returns (r: Result<Option<DeltaUpdate>>)
      requires Valid()
      modifies this, actions, actions.inventory, actions.players
      ensures Valid()
      ensures actions.activeActions == old(actions.activeActions)
      ensures playerId !in old(actions.activeActions) ==>
                && r == Ok(None) && lastInventoryState == old(lastInventoryState)
                && actions.inventory.State() == old(actions.inventory.State())
                && actions.players.players == old(actions.players.players) && actions.cursor == old(actions.cursor)
      ensures playerId in old(actions.activeActions) ==>
                match TickSpec(old(actions.activeActions), actions.registry, old(actions.inventory.State()),
                               old(actions.players.players), playerId, old(actions.activeActions)[playerId].actionId,
                               elapsed, actions.random, old(actions.cursor))
                case Err(e) =>
                  && r == Err(e) && lastInventoryState == old(lastInventoryState)
                  && actions.inventory.rows == old(actions.inventory.rows)
                  && actions.players.players == old(actions.players.players)
                case Ok(res) =>
                  var owned := FindByOwnerId(res.0.rows, playerId);
                  && actions.inventory.State() == res.0 && actions.players.players == res.1 && actions.cursor == res.2
                  && r == Ok(Some(DeltaUpdate(playerId, map[], Delta(owned, old(Last(playerId))), 100)))
                  && lastInventoryState == old(lastInventoryState)[playerId := Snapshot(owned)]
    {
      var actionState := actions.GetActiveAction(playerId);
      if actionState.None? {
        return Ok(None);
      }
      var _ :- actions.ProcessActionTick(playerId, actionState.value.actionId, elapsed);
      var xpDelta := CalculateXpDelta(playerId);
      var inventoryDelta := CalculateInventoryDelta(playerId);
      var health := 100;
      UpdateLastState(playerId);
      r := Ok(Some(DeltaUpdate(playerId, xpDelta, inventoryDelta, health)));
    }
  }
}
