# Idle-game server core, modelled in Dafny

This project models the player-state logic of a small idle-game server and
proves properties of it. The server keeps these tables and services:

- **Item table.** Each row is an item instance: owner, blueprint id,
  quantity, slot and durability.
- **Player table.** It holds each player's experience and level.
- **Agent-state table.** It records where each agent stands.
- **Action service.** An in-memory map from each player to the action that
  player is performing.
- **Tick service.** It remembers the last inventory snapshot sent to each
  player.
- **Real-time gateway.** It routes the client's commands to the services.
- **Content catalogues.** Immutable blueprints of items, skills, loot
  tables, actions and locations.

## How the model is organised

There is one Dafny module per source component:

| module | file | models |
|---|---|---|
| `Wrappers` | wrappers.dfy | Java's nullable references as `Option`. Thrown exceptions as `Result` with the exception's message. |
| `Text` | text.dfy | `isBlank`, `startsWith`, `contains`, and splitting at a separator. |
| `EquipmentModel`, `ItemModel`, `LootTableModel`, `SkillModel`, `ActionModel`, `LocationModel` | *_model.dfy | The content blueprints as datatypes. Each validating constructor is a function returning `Result`. |
| `StaticData` | static_data.dfy | The lazily initialised catalogues, as one generic class `Catalogue<T>`, and the shipped content. |
| `ItemRepository` | item_repository.dfy | The item rows and the three finders over the table. The table is kept in insertion order. |
| `Inventory` | inventory.dfy | The inventory service over the item table (class `ItemTable`). |
| `Loot` | loot.dfy | Loot-table rolls. |
| `Players` | players.dfy | The player service (class `PlayerStore`) and the level formula. |
| `ActionEngine` | action_engine.dfy | The action service (class `ActionService`): start, stop, tick, mining and crafting. |
| `GameTick` | game_tick.dfy | The per-player tick and the inventory delta sent to the client (class `GameTickService`). |
| `LocationService` | location_service.dfy | The location service over the agent-state table (class `AgentStateStore`). |
| `Combat` | combat.dfy | Equipment bonuses, durability scaling and damage (class `CombatService`). |
| `Gateway` | gateway.dfy | The WebSocket endpoint: sessions, message routing, handlers and outgoing frames (class `GameGateway`). |

### Modelling conventions

**Imperative code stays imperative.** Each class method is proved against a
pure specification function on values. For example, `ItemTable.AddItem`
ensures that the new `State()` is the table `AddItemSpec` computes. The
lemmas about the specification functions carry the properties.

**Failed transactions roll back.** When a transactional method fails, its
persistent tables are left unchanged: item rows, players and agent states.

- The in-memory maps are not rolled back. These are the active actions, the
  sessions and the tick snapshots.
- The item table's key counter is not rolled back either.

**Randomness is an oracle.** The random generator is a function `random`
from a draw number to a draw. Each drop of a loot table consumes one draw.
A draw's `chance` stands for `nextDouble()` and its `pick` for the value of
`nextInt`.

**Numbers.** Doubles are `real` and integers are unbounded.

### Behaviours the proofs make explicit

**Removal can take the equipped row.** `findByOwnerIdAndItemId` returns the
first row of the item whether or not it is equipped. So removing an item
just picked up can delete the equipped instance
(`Inventory.RemoveCanTakeEquippedRow`).

**Duplicate rows distort the delta.** If a player holds two rows of one item
(non-stackable items), the tick snapshot records only the last row. The
delta then reports the same difference on every tick
(`GameTick.DuplicateRowsReportForever`).

**A stale close unregisters a reconnect.** Suppose a player reconnects on a
second session and the first session then closes. The player's registration
is removed, so later frames to them are dropped
(`Gateway.StaleCloseUnregistersReconnect`).

**The shipped catalogues are mostly empty.** No loot table, action or
location exists. So every start of an action and every move fails
(`ActionEngine.StartAlwaysFailsWhenShipped`, `Gateway.MoveAlwaysStops`).

### Where the code and its callers disagree

`ActionService.startAction` (ActionService.java:44) takes a player and an
action and stores the action id. Its callers (GameWebSocket.java:312,
GameTickService.java:67) pass an instance id and read back a record with a
start time.

- The model follows the checks of `ActionService`.
- It stores `ActionState(actionId, instanceId, startTime)`.
- The start time is the caller's `now` parameter.

## Model

Source paths are relative to the repository root.

| member | source | states |
|---|---|---|
| EquipmentModel.SlotNamesDistinct | src/main/java/com/framework/data/model/EquipmentSlot.java:1-16 | Two slots with the same name are the same slot, so a slot is identified by its name |
| EquipmentModel.NewEquipmentDetails | src/main/java/com/framework/data/model/EquipmentDetails.java:16-32 | Accepted iff the slot and the map are present and durabilityMax > 0; each failure carries its own message, checked in source order; an accepted value keeps its arguments |
| ItemModel.NewItem | src/main/java/com/framework/data/model/Item.java:19-42 | Accepted iff id and name are non-blank, the type is present and the type is EQUIPMENT exactly when details are given; blank id and blank name carry their messages; accepted items are equipable iff EQUIPMENT |
| ItemModel.NewPlainItem | src/main/java/com/framework/data/model/Item.java:15-17 | The five-argument constructor rejects EQUIPMENT and never builds an equipable item |
| ItemModel.NewItemWellFormed | src/main/java/com/framework/data/model/Item.java:21-41 | Every well-formed blueprint is accepted back from its own fields |
| LootTableModel.NewLootDrop | src/main/java/com/framework/data/model/LootTable.java:78-95 | Accepted iff the item id is non-blank, 0 <= chance <= 1 and 0 <= min <= max |
| LootTableModel.DropErrorIffOutOfRange | src/main/java/com/framework/data/model/LootTable.java:29-54 | A drop passes the table's check iff its item id is non-blank and catalogued and its ranges hold |
| LootTableModel.FirstDropError | src/main/java/com/framework/data/model/LootTable.java:29-55 | No error iff every drop passes; otherwise the error of the first failing drop in list order, all drops before it passing |
| LootTableModel.NewLootTable | src/main/java/com/framework/data/model/LootTable.java:20-59 | A blank id and a null list fail with their messages; an accepted table keeps its id and drops |
| LootTableModel.NewLootTableValid | src/main/java/com/framework/data/model/LootTable.java:20-59 | Accepted iff the id is present and every drop is valid against the catalogue; every accepted drop has a roll range of at least 1 |
| SkillModel.Skill.ExperienceForLevel | src/main/java/com/framework/data/model/Skill.java:46-51 | curve[n-1] for 1 <= n <= length, -1 otherwise |
| SkillModel.NewSkill | src/main/java/com/framework/data/model/Skill.java:14-27 | Accepted iff id and name are non-blank and the curve is present and non-empty |
| SkillModel.SentinelUnambiguous | src/main/java/com/framework/data/model/Skill.java:46-51 | With a non-negative curve, -1 is returned exactly for levels outside the curve |
| ActionModel.NewAction | src/main/java/com/framework/data/model/Action.java:15-29 | Accepted iff id and name are non-blank; skill and loot table are unchecked; the action is continuous iff durationSeconds <= 0 |
| LocationModel.NewLocation | src/main/java/com/framework/data/model/Location.java:15-26 | Accepted iff id and name are non-blank; an absent action list becomes empty; fields are kept |
| StaticData.Lookup | src/main/java/com/framework/data/staticdata/StaticItemData.java:43-52 | Succeeds iff the id is catalogued, returns the stored entry, and fails with "<Kind> not found: <id>" |
| StaticData.Catalogue.Initialize | src/main/java/com/framework/data/staticdata/StaticItemData.java:23-35 | Afterwards the catalogue holds the shipped content; a second call changes nothing |
| StaticData.Catalogue.Get | src/main/java/com/framework/data/staticdata/StaticItemData.java:43-52 | Initialises first, then answers as Lookup on the shipped content |
| StaticData.Catalogue.Has | src/main/java/com/framework/data/staticdata/StaticItemData.java:70-75 | True iff Get would succeed |
| StaticData.Catalogue.GetAll | src/main/java/com/framework/data/staticdata/StaticItemData.java:58-63 | Exactly the shipped entries, each one retrievable |
| StaticData.ShippedItemsConstructed | src/main/java/com/framework/data/staticdata/StaticItemData.java:29-32 | The shipped copper ore and bronze sword are what their constructors build |
| StaticData.ShippedItemFacts | src/main/java/com/framework/data/staticdata/StaticItemData.java:29-32 | Exactly copper_ore (stackable resource) and bronze_sword (non-stackable weapon, durability 100); the shipped registry is valid |
| StaticData.MiningCurveFacts | src/main/java/com/framework/data/staticdata/StaticSkillData.java:29-30 | The only skill is mining; level 1 needs 0, level 6 needs 1600, level 7 gives -1 |
| StaticData.EmptyCataloguesAlwaysFail | src/main/java/com/framework/data/staticdata/StaticLootTableData.java:42-51 | Every loot-table, action and location lookup fails with its not-found message |
| ItemRepository.FindByOwnerId | src/main/java/com/framework/service/repos/PlayerItemRepository.java:20-22 | Exactly the owner's rows, equipped ones included |
| ItemRepository.FirstMatch | src/main/java/com/framework/service/repos/PlayerItemRepository.java:30-32 | The position of the first row of that owner and item, whatever its slot; none iff no row matches |
| ItemRepository.FindByOwnerIdAndItemId | src/main/java/com/framework/service/repos/PlayerItemRepository.java:30-32 | A row of that owner and item, or none iff no row matches |
| ItemRepository.FindEquippedByOwnerId | src/main/java/com/framework/service/repos/PlayerItemRepository.java:39-41 | Exactly the owner's rows whose slot is not INVENTORY |
| ItemRepository.FindById | src/main/java/com/framework/service/logic/InventoryService.java:120 | The position of the row with that key, none iff there is no such row |
| ItemRepository.EquippedAreOwned | src/main/java/com/framework/service/repos/PlayerItemRepository.java:20-41 | The equipped rows are among the owner's rows |
| Inventory.InitialDurability | src/main/java/com/framework/service/logic/InventoryService.java:53-56 | A new row has a durability iff its blueprint is equipable, and then it is the blueprint's maximum durability |
| Inventory.AddItemSpec | src/main/java/com/framework/service/logic/InventoryService.java:31-61 | q <= 0 fails first, then an unknown item; otherwise the first matching row, when unequipped and stackable, grows by exactly q and no other row changes; else the row (next key, owner, item, q, INVENTORY, initial durability) is appended and the key counter advances |
| Inventory.RemoveItemSpec | src/main/java/com/framework/service/logic/InventoryService.java:70-88 | Succeeds iff a row matches and the first match holds at least q; that row loses q and is deleted iff nothing is left, no other row changes, and the key counter is kept |
| Inventory.Unequipped | src/main/java/com/framework/service/logic/InventoryService.java:141-146 | Every row of the owner in the slot goes back to INVENTORY; no other row changes |
| Inventory.EquipItemSpec | src/main/java/com/framework/service/logic/InventoryService.java:118-153 | A successful equip keeps the row count and key counter and returns the row in the requested slot |
| Inventory.ItemTable.AddItem | src/main/java/com/framework/service/logic/InventoryService.java:31-61 | The new table is AddItemSpec's, or unchanged on failure; the table invariant is kept |
| Inventory.ItemTable.RemoveItem | src/main/java/com/framework/service/logic/InventoryService.java:70-88 | Answers true iff RemoveItemSpec succeeds, and the new table is its result; false changes nothing |
| Inventory.ItemTable.HasItemNow | src/main/java/com/framework/service/logic/InventoryService.java:106-109 | True iff the same removal would succeed |
| Inventory.ItemTable.GetInventory | src/main/java/com/framework/service/logic/InventoryService.java:95-97 | Exactly the owner's rows |
| Inventory.ItemTable.GetEquippedItems | src/main/java/com/framework/service/logic/InventoryService.java:160-162 | Exactly the owner's rows outside INVENTORY |
| Inventory.ItemTable.EquipItem | src/main/java/com/framework/service/logic/InventoryService.java:118-153 | The new table is EquipItemSpec's, or unchanged on failure; the table invariant is kept |
| Inventory.AddPreservesInvariant | src/main/java/com/framework/service/logic/InventoryService.java:31-61 | Adding keeps keys unique and below the counter, and at most one row per owner and slot |
| Inventory.RemovePreservesInvariant | src/main/java/com/framework/service/logic/InventoryService.java:70-88 | Removing keeps the table invariant |
| Inventory.EquipPreservesInvariant | src/main/java/com/framework/service/logic/InventoryService.java:118-153 | Equipping keeps the table invariant, in particular one row per owner and equipment slot |
| Inventory.HasItemIffRemovable | src/main/java/com/framework/service/logic/InventoryService.java:72-108 | hasItem(q) holds exactly when removeItem(q) would succeed |
| Inventory.RemovalKeepsOtherHoldings | src/main/java/com/framework/service/logic/InventoryService.java:70-88 | Removing one item never changes whether the player holds another item |
| Inventory.AddThenRemoveStacked | src/main/java/com/framework/service/logic/InventoryService.java:44-48 | When the first matching row stacks, adding q then removing q gives back the original table |
| Inventory.AddThenRemoveFresh | src/main/java/com/framework/service/logic/InventoryService.java:50-59 | When no row matches, adding q then removing q deletes the new row; only the key counter has moved on |
| Inventory.RemoveCanTakeEquippedRow | src/main/java/com/framework/service/logic/InventoryService.java:72-83 | With a sword equipped, picking up a second and removing one deletes the equipped sword |
| Inventory.RemoveMoreThanHeldFails | src/main/java/com/framework/service/logic/InventoryService.java:77-79 | Removing more than the first matching row holds fails |
| Inventory.EquipSucceedsIff | src/main/java/com/framework/service/logic/InventoryService.java:120-138 | Equip succeeds iff the row exists, is the player's, is unequipped, and its blueprint is equipment for that slot |
| Inventory.EquipEffect | src/main/java/com/framework/service/logic/InventoryService.java:140-150 | The row takes the slot and is the owner's only row there; the owner's row that held the slot returns to INVENTORY; rows in other slots and other players' rows are untouched; keys, owners, items, quantities and durabilities are unchanged |
| Loot.NextInt | src/main/java/com/framework/service/logic/ActionService.java:122 | A value below a positive bound; a bound that is not positive fails |
| Loot.DropQuantity | src/main/java/com/framework/service/logic/ActionService.java:121-122 | Succeeds iff min <= max, and then lies in [min, max] |
| Loot.GrantedDrops | src/main/java/com/framework/service/logic/ActionService.java:118-119 | The drops whose draw is below their chance, in table order, drop k judged by draw cursor + k; never more than the table has |
| Loot.RollDropsYield | src/main/java/com/framework/service/logic/ActionService.java:118-131 | A successful roll returns exactly the blueprints of the granted drops, one per granted drop and in table order, each from the catalogue |
| Loot.DropOutcomeCases | src/main/java/com/framework/service/logic/ActionService.java:119-128 | A drop not granted changes nothing; a granted one succeeds iff min <= max, the drawn quantity is positive and the item is catalogued, and then yields that item |
| Loot.RoundsConsumeDraws | src/main/java/com/framework/service/logic/ActionService.java:83-86 | n rounds that succeed consume exactly n times the table's number of drops in draws |
| Loot.ChanceBounds | src/main/java/com/framework/service/logic/ActionService.java:119-122 | Chance 1 is always granted, chance 0 never; a valid range always gives a quantity |
| Loot.ZeroQuantityFails | src/main/java/com/framework/service/logic/ActionService.java:121-125 | A granted drop with minimum 0 that picks 0 makes addItem fail the whole roll |
| Loot.GrantedDropIsAdded | src/main/java/com/framework/service/logic/ActionService.java:119-125 | A granted drop of a catalogued item with minimum >= 1 always lands in the inventory |
| Loot.NothingGrantedNoChange | src/main/java/com/framework/service/logic/ActionService.java:118-133 | If no draw is below its drop's chance, the table is unchanged and nothing drops |
| Players.NewPlayer | src/main/java/com/framework/data/entity/PlayerEntity.java:30-35 | A new player has level 1 and experience 0 |
| Players.ISqrt | src/main/java/com/framework/service/logic/PlayerService.java:111 | The integer square root: s*s <= n < (s+1)*(s+1) |
| Players.CalculateLevel | src/main/java/com/framework/service/logic/PlayerService.java:108-112 | Between 1 and 100 for non-negative experience; 0 for negative experience |
| Players.LevelCharacterisation | src/main/java/com/framework/service/logic/PlayerService.java:108-112 | Below the cap the level is l with 100(l-1)^2 <= xp < 100 l^2; the cap of 100 is reached iff xp >= 100*99*99 |
| Players.LevelMonotone | src/main/java/com/framework/service/logic/PlayerService.java:108-112 | More experience never gives a lower level |
| Players.ExperienceAdded | src/main/java/com/framework/service/logic/PlayerService.java:97-102 | Experience grows by exactly the gain; id and name are kept |
| Players.GainNeverLowersLevel | src/main/java/com/framework/service/logic/PlayerService.java:97-102 | A non-negative gain never lowers the level, and the level stays the formula's |
| Players.PlayerStore.GetPlayer | src/main/java/com/framework/service/logic/PlayerService.java:70-72 | The row, or none iff the id is unknown |
| Players.PlayerStore.GetOrCreatePlayer | src/main/java/com/framework/service/logic/PlayerService.java:30-39 | An existing row is returned unchanged; otherwise "Player_<id>" at level 1 is stored |
| Players.PlayerStore.CreatePlayer | src/main/java/com/framework/service/logic/PlayerService.java:58-63 | Stores a new level-1 row; an existing key is refused and nothing changes |
| Players.PlayerStore.GetPlayerByName | src/main/java/com/framework/service/logic/PlayerService.java:79-81 | A player with that name, or none iff no player has it |
| Players.PlayerStore.AddExperience | src/main/java/com/framework/service/logic/PlayerService.java:90-106 | An unknown player fails with "Player not found: <id>" and nothing changes; otherwise experience grows by the gain and the level is recomputed |
| ActionEngine.StartActionSpec | src/main/java/com/framework/service/logic/ActionService.java:43-55 | Unknown action fails first; a busy player fails with the current action in the message; success adds the player's entry and changes no other |
| ActionEngine.TickAction | src/main/java/com/framework/service/logic/ActionService.java:64-72 | A tick fails unless the player's active action is the given one; otherwise it is the catalogued action |
| ActionEngine.LootRollCount | src/main/java/com/framework/service/logic/ActionService.java:83 | floor(elapsed) rolls; none below one second |
| ActionEngine.ActionService.StartAction | src/main/java/com/framework/service/logic/ActionService.java:43-55 | The new map is StartActionSpec's, unchanged on failure |
| ActionEngine.ActionService.StopAction | src/main/java/com/framework/service/logic/ActionService.java:94-96 | Removes the player's entry only; never fails |
| ActionEngine.ActionService.GetActiveAction | src/main/java/com/framework/service/logic/ActionService.java:103-105 | The player's entry, or none iff there is none |
| ActionEngine.ActionService.ExecuteLootTable | src/main/java/com/framework/service/logic/ActionService.java:113-134 | The table and items are LootRound's; on failure the item table is unchanged |
| ActionEngine.ActionService.RollOneDrop | src/main/java/com/framework/service/logic/ActionService.java:119-128 | One drop consumes one draw; its outcome and the new table are DropOutcome's |
| ActionEngine.ActionService.ProcessActionTick | src/main/java/com/framework/service/logic/ActionService.java:63-88 | Item table, players and draw cursor are TickSpec's; on failure both tables are unchanged |
| ActionEngine.ActionService.RollRounds | src/main/java/com/framework/service/logic/ActionService.java:81-87 | The loop's outcome is LootRounds over max(0, rounds) rounds |
| ActionEngine.ActionService.PlayRound | src/main/java/com/framework/service/logic/ActionService.java:84-86 | A round that fails makes the remaining rounds fail with its error; one that succeeds leaves the remaining rounds one fewer |
| ActionEngine.ActionService.ExecuteMiningAction | src/main/java/com/framework/service/logic/ActionService.java:143-152 | One loot round, then 10 mining experience, as MineSpec states; rolled back on failure |
| ActionEngine.ActionService.HoldsAll | src/main/java/com/framework/service/logic/ActionService.java:168-172 | True iff the player has every input in the required quantity |
| ActionEngine.ActionService.RemoveInputs | src/main/java/com/framework/service/logic/ActionService.java:175-177 | The table after removing every input in order |
| ActionEngine.ActionService.ExecuteCraftingAction | src/main/java/com/framework/service/logic/ActionService.java:163-186 | As CraftSpec: false with nothing changed when an input is missing; otherwise inputs removed, output added, 15 crafting experience, true |
| ActionEngine.RemoveAllKeepsNextId | src/main/java/com/framework/service/logic/ActionService.java:175-177 | Removals never move the key counter |
| ActionEngine.HeldInputsAllRemoved | src/main/java/com/framework/service/logic/ActionService.java:168-177 | With distinct input ids, inputs that are all held are all removed successfully |
| ActionEngine.StartAlwaysFailsWhenShipped | src/main/java/com/framework/service/logic/ActionService.java:46 | With the shipped catalogue every start fails with "Action not found: <id>" |
| ActionEngine.SecondStartConflicts | src/main/java/com/framework/service/logic/ActionService.java:49-54 | A second start fails naming the first action; after a stop it succeeds |
| ActionEngine.ShortTickNoLoot | src/main/java/com/framework/service/logic/ActionService.java:81-87 | A tick under one second, or of an action without a loot table, leaves the item table and the draws untouched |
| ActionEngine.TickExperience | src/main/java/com/framework/service/logic/ActionService.java:75-78 | A tick adds floor(xpPerSecond*elapsed) experience when positive, nothing otherwise |
| GameTick.ChangedEntries | src/main/java/com/framework/service/logic/GameTickService.java:111-118 | Every recorded change is non-zero and concerns an item the player holds |
| GameTick.RemovedEntries | src/main/java/com/framework/service/logic/GameTickService.java:121-129 | Exactly the remembered items no longer held and not already changed |
| GameTick.Snapshot | src/main/java/com/framework/service/logic/GameTickService.java:136-141 | Records exactly the items the player holds |
| GameTick.ChangedEntriesUnique | src/main/java/com/framework/service/logic/GameTickService.java:111-118 | With one row per item, a change is the current quantity minus the remembered one |
| GameTick.DeltaReconstructs | src/main/java/com/framework/service/logic/GameTickService.java:104-141 | With one row per item, last + delta equals the new snapshot for every item |
| GameTick.DeltaHasNoZeros | src/main/java/com/framework/service/logic/GameTickService.java:111-129 | A delta never reports a zero change when the snapshot holds none |
| GameTick.SnapshotPositive | src/main/java/com/framework/service/logic/GameTickService.java:136-141 | A snapshot of positive rows holds positive quantities |
| GameTick.SecondDiffEmpty | src/main/java/com/framework/service/logic/GameTickService.java:104-141 | Diffing against the snapshot just taken gives an empty delta |
| GameTick.DuplicateRowsReportForever | src/main/java/com/framework/service/logic/GameTickService.java:111-139 | Two rows of one item: the snapshot keeps the last, and the delta keeps reporting the difference |
| GameTick.GameTickService.CalculateXpDelta | src/main/java/com/framework/service/logic/GameTickService.java:90-102 | Always empty |
| GameTick.GameTickService.CalculateInventoryDelta | src/main/java/com/framework/service/logic/GameTickService.java:104-132 | Equals Delta of the player's rows against the remembered snapshot |
| GameTick.CollectChanges | src/main/java/com/framework/service/logic/GameTickService.java:111-118 | The first loop computes ChangedEntries |
| GameTick.CollectRemovals | src/main/java/com/framework/service/logic/GameTickService.java:121-129 | The second loop adds RemovedEntries to the changes |
| GameTick.GameTickService.UpdateLastState | src/main/java/com/framework/service/logic/GameTickService.java:134-142 | Only the player's snapshot is replaced, by the Snapshot of their rows |
| GameTick.GameTickService.ProcessPlayerTick | src/main/java/com/framework/service/logic/GameTickService.java:66-88 | No active action: nothing happens; a failed tick changes no snapshot; otherwise empty xp delta, the inventory delta, health 100, and the snapshot is updated |
| LocationService.NewAgentState | src/main/java/com/framework/data/entity/AgentStateEntity.java:37-46 | Health and max health 100, mana 0, the given location, no state data |
| LocationService.CurrentLocation | src/main/java/com/framework/service/logic/LocationService.java:25-35 | A location iff the row exists, has a location and the catalogue knows it, and it is that location |
| LocationService.MoveSpec | src/main/java/com/framework/service/logic/LocationService.java:43-59 | Succeeds iff the target is catalogued |
| LocationService.GetOrCreateSpec | src/main/java/com/framework/service/logic/LocationService.java:66-74 | An existing row is kept; otherwise a "player" row at starting_location is added |
| LocationService.MoveEffect | src/main/java/com/framework/service/logic/LocationService.java:46-56 | After a move the player stands at the target; a new row is a fresh player, an existing one changes only its location; no other row changes |
| LocationService.GetOrCreateIdempotent | src/main/java/com/framework/service/logic/LocationService.java:67-74 | A second call creates nothing and returns the same row |
| LocationService.ShippedLocationsUnknown | src/main/java/com/framework/service/logic/LocationService.java:46 | With the shipped catalogue every move fails with "Location not found: <id>", and a fresh agent stands nowhere known |
| LocationService.AgentStateStore.GetCurrentLocation | src/main/java/com/framework/service/logic/LocationService.java:25-35 | As CurrentLocation on the table |
| LocationService.AgentStateStore.MoveToLocation | src/main/java/com/framework/service/logic/LocationService.java:43-59 | The new table is MoveSpec's; on failure nothing is written |
| LocationService.AgentStateStore.GetOrCreateAgentState | src/main/java/com/framework/service/logic/LocationService.java:66-74 | The table and row are GetOrCreateSpec's |
| Combat.ReductionAboveAll | src/main/java/com/framework/service/logic/CombatService.java:89-97 | The base stat when the ratio exceeds every key |
| Combat.ReductionUsesFirstCover | src/main/java/com/framework/service/logic/CombatService.java:91-94 | Otherwise the first key covering the ratio scales the stat, truncated toward zero |
| Combat.RowBonus | src/main/java/com/framework/service/logic/CombatService.java:42-48 | A row without durability contributes its bonus unscaled |
| Combat.RowContribution | src/main/java/com/framework/service/logic/CombatService.java:38-48 | A row contributes iff its item is catalogued; an item that is not equipable contributes 0 |
| Combat.BonusTotalDefined | src/main/java/com/framework/service/logic/CombatService.java:33-53 | The sum succeeds iff every equipped row's item is catalogued; otherwise it fails with the lookup error of a missing one |
| Combat.BonusErrorSticks | src/main/java/com/framework/service/logic/CombatService.java:38-39 | Once a lookup fails, the whole sum fails with that error |
| Combat.BonusAdditive | src/main/java/com/framework/service/logic/CombatService.java:38-51 | The bonus of two row lists together is the sum of their bonuses |
| Combat.BonusIsSum | src/main/java/com/framework/service/logic/CombatService.java:36-51 | The total is the rows' contributions added up in order, the first failed lookup ending the sum |
| Combat.SumResultsAdditive | src/main/java/com/framework/service/logic/CombatService.java:36-51 | Adding up two successful lists of contributions together gives the sum of their sums |
| Combat.Damage | src/main/java/com/framework/service/logic/CombatService.java:118-119 | At least 1 and at least 10 + level + attack - defence, and equal to one of them |
| Combat.DamageMonotone | src/main/java/com/framework/service/logic/CombatService.java:118-119 | Higher level or attack, or lower defence, never lowers the damage |
| Combat.BronzeSwordNeverWeakens | src/main/java/com/framework/service/logic/CombatService.java:42-48 | The shipped sword gives bonus 10 at any durability |
| Combat.BronzeSwordBonusTotal | src/main/java/com/framework/service/logic/CombatService.java:33-53 | An equipped bronze sword alone gives a total of 10 |
| Combat.TruncTowardZero | src/main/java/com/framework/service/logic/CombatService.java:93 | The int cast truncates toward zero on both signs |
| Combat.CombatService.ApplyDurabilityReduction | src/main/java/com/framework/service/logic/CombatService.java:89-97 | The loop with early return computes Reduction |
| Combat.CombatService.CalculateBonus | src/main/java/com/framework/service/logic/CombatService.java:33-80 | The accumulated bonus is BonusTotal over the player's equipped rows |
| Combat.CombatService.SumBonuses | src/main/java/com/framework/service/logic/CombatService.java:36-51 | The loop over the equipped rows computes BonusTotal, stopping at the first failed lookup |
| Combat.CombatService.RowBonusOf | src/main/java/com/framework/service/logic/CombatService.java:38-48 | One loop step computes RowContribution |
| Combat.CombatService.EquippedBonus | src/main/java/com/framework/service/logic/CombatService.java:40-47 | The bonus of an equipable row, reduced when it records durability, is RowBonus |
| Combat.CombatService.ProcessCombat | src/main/java/com/framework/service/logic/CombatService.java:105-124 | Fails with "Attacker or defender not found" when one is missing; otherwise the damage, which is at least 1 |
| Gateway.PlayerIdParam | src/main/java/com/framework/api/GameWebSocket.java:451-455 | The first parameter starting with "playerId=", without the prefix; none iff no parameter starts with it |
| Gateway.PlayerIdFromQuery | src/main/java/com/framework/api/GameWebSocket.java:446-459 | An id only if the query mentions "playerId="; the id contains no '&' |
| Gateway.QueryRoundTrip | src/main/java/com/framework/api/GameWebSocket.java:446-459 | Parameters joined with '&', the first naming the player being "playerId=" + id, give back id |
| Gateway.QueryWithoutPlayerId | src/main/java/com/framework/api/GameWebSocket.java:449 | A query without "playerId=" names nobody; a bare "playerId=" names the empty id |
| Gateway.Register | src/main/java/com/framework/api/GameWebSocket.java:58-60 | The player's session becomes the new one, replacing any earlier; others are untouched |
| Gateway.Unregister | src/main/java/com/framework/api/GameWebSocket.java:86-88 | The closing session's player is removed, whatever session is now registered for them |
| Gateway.Deliver | src/main/java/com/framework/api/GameWebSocket.java:209-212 | A frame goes out iff the player's registered session is open, and only to it |
| Gateway.OpenThenDeliver | src/main/java/com/framework/api/GameWebSocket.java:54-60 | After connecting on an open session, frames for the player reach that session |
| Gateway.StaleCloseUnregistersReconnect | src/main/java/com/framework/api/GameWebSocket.java:84-93 | Reconnect, then close of the first session: frames to the player are dropped |
| Gateway.View | src/main/java/com/framework/api/GameWebSocket.java:172-178 | Progress is zero at the start time; a missing instance id shows as "" |
| Gateway.InitFrame | src/main/java/com/framework/api/GameWebSocket.java:152-201 | "Player not found" iff the player is unknown; otherwise the player, their rows, their equipped rows, their action iff active, and their location |
| Gateway.FirstInInventory | src/main/java/com/framework/api/GameWebSocket.java:380-384 | The first unequipped row of the item; none iff there is none |
| Gateway.KindOfMessage | src/main/java/com/framework/api/GameWebSocket.java:112-118 | A kind iff the message was readable and has a type, and its name is that type |
| Gateway.KindOf | src/main/java/com/framework/api/GameWebSocket.java:121-138 | The kind is named by the type; it is unknown iff no known kind has that name |
| Gateway.StartCommand | src/main/java/com/framework/api/GameWebSocket.java:302-319 | Only the active actions change, only by adding the sender; one reply to the sender; a missing actionId is an error that changes nothing |
| Gateway.MoveCommand | src/main/java/com/framework/api/GameWebSocket.java:324-344 | Only active actions and agent states change; with a target the sender's action is stopped; one reply; a missing target is an error that changes nothing |
| Gateway.AttackCommand | src/main/java/com/framework/api/GameWebSocket.java:349-364 | Nothing changes; at most one frame, to the sender or an alert to the player's session; a missing target is an error to the sender |
| Gateway.EquipCommand | src/main/java/com/framework/api/GameWebSocket.java:369-398 | Only the item table changes; one reply to the sender; a missing itemId or slot is an error that changes nothing |
| Gateway.SellCommand | src/main/java/com/framework/api/GameWebSocket.java:403-421 | Nothing changes; at most one frame, to the sender or an alert to the player's session; a missing itemId or storeId is an error to the sender |
| Gateway.RejectedMessagesChangeNothing | src/main/java/com/framework/api/GameWebSocket.java:102-421 | No player, unreadable message, no type, unknown type or a missing required field: nothing changes and the sender gets one error |
| Gateway.OneFrameToTheSender | src/main/java/com/framework/api/GameWebSocket.java:102-421 | Every message answers with at most one frame, to the sender or, for an alert, to the player's session |
| Gateway.MessageTableFootprint | src/main/java/com/framework/api/GameWebSocket.java:121-139 | Players never change; only MOVE_LOCATION changes agent states and only EQUIP_ITEM changes the item table |
| Gateway.MessageActiveFootprint | src/main/java/com/framework/api/GameWebSocket.java:121-139 | Only START_ACTION and MOVE_LOCATION change the active actions; START_ACTION only adds the sender's entry and keeps every other |
| Gateway.MoveAlwaysStops | src/main/java/com/framework/api/GameWebSocket.java:324-344 | MOVE_LOCATION stops the action even when the move fails; with the shipped catalogue it always fails |
| Gateway.StartShowsNewAction | src/main/java/com/framework/api/GameWebSocket.java:302-319 | A successful START_ACTION answers with the new state showing the action at zero progress |
| Gateway.GameGateway.GetPlayerIdFromSession | src/main/java/com/framework/api/GameWebSocket.java:446-459 | The scanning loop computes PlayerIdFromQuery |
| Gateway.GameGateway.OnOpen | src/main/java/com/framework/api/GameWebSocket.java:54-82 | No id: closed, nothing registered; otherwise registered, player created if missing, STATE_INIT sent |
| Gateway.GameGateway.OnClose | src/main/java/com/framework/api/GameWebSocket.java:84-93 | Unregisters the session's player and stops their action |
| Gateway.GameGateway.SendStateDelta | src/main/java/com/framework/api/GameWebSocket.java:206-229 | Dropped unless the player's session is open; otherwise the delta frame to it |
| Gateway.GameGateway.SendCombatStart | src/main/java/com/framework/api/GameWebSocket.java:234-251 | Dropped unless the player's session is open |
| Gateway.GameGateway.SendCombatEnd | src/main/java/com/framework/api/GameWebSocket.java:256-274 | Dropped unless the player's session is open |
| Gateway.GameGateway.SendAlert | src/main/java/com/framework/api/GameWebSocket.java:279-295 | Dropped unless the player's session is open |
| Gateway.GameGateway.OnMessage | src/main/java/com/framework/api/GameWebSocket.java:102-145 | Tables and frames are MessageSpec's |
| Gateway.GameGateway.HandleStartAction | src/main/java/com/framework/api/GameWebSocket.java:302-319 | As StartCommand: missing id or refused start is an error with nothing started |
| Gateway.GameGateway.HandleMoveLocation | src/main/java/com/framework/api/GameWebSocket.java:324-344 | As MoveCommand: stop first, then move |
| Gateway.GameGateway.HandleEquipItem | src/main/java/com/framework/api/GameWebSocket.java:369-398 | As EquipCommand: first unequipped row of the item, then equip |
| Text.JoinSplit | src/main/java/com/framework/api/GameWebSocket.java:450 | Splitting loses nothing: joining the pieces gives the query back |
| Text.SplitJoin | src/main/java/com/framework/api/GameWebSocket.java:450 | Joining '&'-free pieces and splitting gives the pieces back |

## Left out

- JSON parsing and writing, the WebSocket transport, `onError` and logging. Messages are parsed field maps and frames are datatypes. A message that is not a JSON object is `Unparseable`, with the parser's message as a parameter.
- The clock. Action start times and STATE_INIT progress take `now` as a parameter.
- The tick scheduler and the empty `processGameTick`. These are timer and concurrency code.
- Concurrent maps and per-player locking. Every method is one atomic step.
- The persistence framework. Tables are in-memory values, and a failed transactional method restores them.
- The database can also fail on its own. Only the duplicate-key refusal of `createPlayer` is modelled (`EntityExists`).
- `savePlayer`. It persists a row unchanged and states nothing.
- `getOrCreatePlayer`'s own failure in `onOpen` ("Failed to initialize player") is not modelled. In the model, creating a player cannot fail.
- The "Failed to send initial state" branch of `sendStateInit` is not modelled. Nothing in the model makes building the state fail.
- `equipItem` with a null row key is not modelled. Row keys are naturals.
- `java.util.Random` is the oracle described above. The distribution of draws is not modelled.
- IEEE float and double rounding, NaN and infinities are not modelled; numbers are reals.
- `Combat.CombatService.CalculateBonus`: does not model 32-bit wrap-around of the int sums, or saturation of the float-to-int cast; the sums are unbounded integers.
- `GameTick.GameTickService.CalculateInventoryDelta`: does not model 32-bit wrap-around of the per-item differences.
- `Players.CalculateLevel`: negative experience gives level 0, as Java's cast of NaN does. `long` overflow of experience is not modelled.
- `ActionEngine.ActionService.ProcessActionTick`: the experience cast `(long)` is modelled as floor on the positive gain; `long` saturation is not.
- Map iteration order is modelled as a sequence, in the order the map yields its entries. This covers the durability multipliers and the crafting inputs. The order the real maps yield is unspecified.
- `findByOwnerIdAndItemId` returns "a" matching row. The model takes the first in insertion order.
- `List.copyOf` and `Map.copyOf` reject null elements. Blueprint lists and maps are modelled without nulls.
- The copies the blueprint constructors make are not modelled. Datatypes are immutable values, so later changes to an argument cannot show.
- `Combat.RowContribution`: its contract does not state the error of an unknown item; `Combat.BonusTotalDefined` states the lookup error the sum fails with.
- `LootTableModel.DropError`: the chance-range message of the table constructor ends with the offending chance in the source; the model's message stops before the number, since formatting a double is not modelled. The `LootDrop` constructor already rejects such chances, so no table reaches that branch.
- `LocationService.MoveSpec`: its contract states only when the move succeeds; the "Location not found" message is stated by `LocationService.ShippedLocationsUnknown`.
- The "Failed to attack target" and "Failed to sell item" branches are not modelled. Their handlers call nothing that can fail.
- The unused `quantity` field of SELL_ITEM is not modelled.
- A null `warningMessage` passed to `sendAlert` or `sendCombatStart` is an absent value.
- The COMBAT_START target is opaque JSON, modelled as a string.
- Java's `split` drops trailing empty pieces; `Text.Split` keeps them. An empty piece never starts with "playerId=", so the player id found is the same.
- `GameTick.GameTickService.ProcessPlayerTick`: returns the arguments of the STATE_DELTA frame instead of calling the gateway; `Gateway.GameGateway.SendStateDelta` models how that frame is delivered. The player row the tick reads and never uses is not modelled.
- `lastXpState` is never written, so the xp delta is always empty. It is modelled as the empty map.
- `PlayerRepository` (both copies), `AgentStateRepository` and `StaticDataService` delegate to the tables and catalogues. They are not part of this model.
- The bootstrapping class, the test resources and the test suite are not part of this model.
