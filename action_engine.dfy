/** The action service: which action each player is busy with, the tick
    that pays out experience and loot for it, and the one-shot mining and
    crafting actions. Every transactional method is one atomic step: when
    it fails, the item and player tables are as they were, while the map
    of active actions and the random generator are not rolled back. */
module ActionEngine {
  import opened Wrappers
  import opened Text
  import opened ItemModel
  import opened ActionModel
  import opened LootTableModel
  import opened StaticData
  import opened ItemRepository
  import opened Inventory
  import opened Players
  import opened Loot

  /** What is remembered about a running action; `startTime` is the clock
      reading passed in when it started. */
  datatype ActionState = ActionState(actionId: string, instanceId: Option<string>, startTime: int)

  /** `startAction`: the new map of active actions. The action must exist,
      and the player must not be busy already. */
  function StartActionSpec(active: map<string, ActionState>, registry: Registry, playerId: string,
                           actionId: string, instanceId: Option<string>, now: int): (r: Result<map<string, ActionState>>)
    ensures actionId !in registry.actions ==> r == Err(IllegalArgument("Action not found: " + actionId))
    ensures actionId in registry.actions && playerId in active ==>
              r == Err(IllegalState("Player is already performing an action: " + active[playerId].actionId))
    ensures r.Ok? <==> actionId in registry.actions && playerId !in active
    ensures r.Ok? ==> playerId in r.value && r.value[playerId].actionId == actionId
    ensures r.Ok? ==> forall p :: p != playerId ==> (p in r.value <==> p in active) && (p in active ==> r.value[p] == active[p])
  {
    match registry.GetAction(actionId)
    case Err(e) => Err(e)
    case Ok(_) =>
      if playerId in active then
        Err(IllegalState("Player is already performing an action: " + active[playerId].actionId))
      else Ok(active[playerId := ActionState(actionId, instanceId, now)])
  }

  /** The action a tick is for: it must be the one the player is running,
      and it must exist. */
  function TickAction(active: map<string, ActionState>, registry: Registry, playerId: string, actionId: string): (r: Result<Action>)
    ensures !(playerId in active && active[playerId].actionId == actionId) ==>
              r == Err(IllegalState("Action is not active for player: " + playerId))
    ensures r.Ok? ==> r == registry.GetAction(actionId)
  {
    if playerId !in active || active[playerId].actionId != actionId then
      Err(IllegalState("Action is not active for player: " + playerId))
    else registry.GetAction(actionId)
  }

  /** Whether a tick rolls loot for the action. */
  predicate HasLootTable(action: Action) {
    action.lootTableId.Some? && !IsBlank(action.lootTableId.value)
  }

  /** The number of loot rounds for an elapsed time: `(int) floor(elapsed)`
      iterations of a loop that does not run for a negative count. */
  function LootRollCount(elapsed: real): (n: nat)
    ensures elapsed < 1.0 ==> n == 0
    ensures elapsed >= 0.0 ==> n as real <= elapsed < n as real + 1.0
  {
    if elapsed.Floor < 0 then 0 else elapsed.Floor
  }

  /** `experiencePerSecond * elapsedSeconds`, the experience a tick pays
      before the `(long)` cast. */
  function ExperienceGain(action: Action, elapsed: real): real {
    action.experiencePerSecond * elapsed
  }

  /** The players after `addExperience` succeeded. */
  function WithExperience(players: map<string, Player>, playerId: string, gain: int): map<string, Player>
    requires playerId in players
  {
    players[playerId := ExperienceAdded(players[playerId], gain)]
  }

  /** The service, with the tables it writes through the inventory and
      player services and the catalogues it reads. */
  class ActionService {
    var activeActions: map<string, ActionState>
    const registry: Registry
    const inventory: ItemTable
    const players: PlayerStore
    /** The random generator: the draws it will make and how many it has
        made. */
    const random: Oracle
    var cursor: nat

    ghost predicate Valid()
      reads this, inventory, players
    {
      inventory.Valid() && players.Valid()
    }

    constructor (registry: Registry, inventory: ItemTable, players: PlayerStore, random: Oracle)
      requires inventory.Valid() && players.Valid()
      ensures Valid() && activeActions == map[] && cursor == 0
      ensures this.registry == registry && this.inventory == inventory && this.players == players && this.random == random
    {
      activeActions := map[];
      this.registry := registry;
      this.inventory := inventory;
      this.players := players;
      this.random := random;
      cursor := 0;
    }

    /** `startAction`, taking the instance and the start time the callers
        record. */
    method StartAction(playerId: string, actionId: string, instanceId: Option<string>, now: int) returns (r: Result<()>)
      modifies this
      ensures cursor == old(cursor)
      ensures match StartActionSpec(old(activeActions), registry, playerId, actionId, instanceId, now)
              case Ok(m) => activeActions == m && r == Ok(())
              case Err(e) => activeActions == old(activeActions) && r == Err(e)
    {
      var _ :- registry.GetAction(actionId);
      if playerId in activeActions {
        return Err(IllegalState("Player is already performing an action: " + activeActions[playerId].actionId));
      }
      activeActions := activeActions[playerId := ActionState(actionId, instanceId, now)];
      r := Ok(());
    }

    /** `stopAction`: forgets the player's action; never fails. */
    method StopAction(playerId: string)
      modifies this
      ensures activeActions == old(activeActions) - {playerId}
      ensures cursor == old(cursor)
    {
      activeActions := activeActions - {playerId};
    }

    /** `getActiveAction`. */
    function GetActiveAction(playerId: string): (s: Option<ActionState>)
      reads this
      ensures s.Some? <==> playerId in activeActions
      ensures s.Some? ==> s.value == activeActions[playerId]
    {
      if playerId in activeActions then Some(activeActions[playerId]) else None
    }

    /** `executeLootTable`: every drop of the table, in order, is granted
        when its draw is below its chance; a granted drop is added to the
        inventory and its blueprint reported. */
    /** One drop of `executeLootTable`'s loop: one draw, and when it grants
        the drop, a quantity in range added to the inventory. A failure
        leaves the rollback to the caller. */
    method RollOneDrop(playerId: string, d: LootDrop) returns (r: Result<seq<Item>>)
      requires Valid()
      modifies this, inventory
      ensures Valid()
      ensures activeActions == old(activeActions) && cursor == old(cursor) + 1
      ensures inventory.nextId >= old(inventory.nextId)
      ensures match DropOutcome(old(inventory.State()), registry.items, playerId, d, random(old(cursor)))
              case Ok(res) => inventory.State() == res.0 && r == Ok(res.1)
              case Err(e) => r == Err(e)
    {
      var roll := random(cursor);
      cursor := cursor + 1;
      if !Granted(d, roll) {
        return Ok([]);
      }
      var quantity :- DropQuantity(d, roll);
      var added := inventory.AddItem(registry.items, playerId, d.itemId, quantity);
      if added.Err? {
        return Err(added.error);
      }
      r := Ok([registry.items[d.itemId]]);
    }

    method ExecuteLootTable(playerId: string, lootTableId: string) returns (r: Result<seq<Item>>)
      requires Valid()
      modifies this, inventory
      ensures Valid()
      ensures activeActions == old(activeActions)
      ensures match LootRound(old(inventory.State()), registry, playerId, lootTableId, random, old(cursor))
              case Ok(res) => inventory.State() == res.0 && r == Ok(res.1)
                              && cursor == old(cursor) + Draws(registry, lootTableId)
                              && inventory.nextId >= old(inventory.nextId)
              case Err(e) => r == Err(e) && inventory.rows == old(inventory.rows)
                             && inventory.nextId >= old(inventory.nextId)
    {
      var table :- registry.GetLootTable(lootTableId);
      ghost var t0 := inventory.State();
      var saved := inventory.rows;
      var dropped: seq<Item> := [];
      var i := 0;
      assert table.drops[0..] == table.drops;
      PrependNothing(RollDrops(t0, registry.items, playerId, table.drops, random, cursor));
      while i < |table.drops|
        invariant 0 <= i <= |table.drops|
        invariant inventory.Valid() && players.Valid()
        invariant cursor == old(cursor) + i
        invariant inventory.nextId >= t0.nextId
        invariant activeActions == old(activeActions)
        invariant RollDrops(t0, registry.items, playerId, table.drops, random, old(cursor))
                  == Prepend(dropped, RollDrops(inventory.State(), registry.items, playerId, table.drops[i..], random, cursor))
      {
        var d := table.drops[i];
        assert table.drops[i..][0] == d && table.drops[i..][1..] == table.drops[i + 1..];
        var got := RollOneDrop(playerId, d);
        if got.Err? {
          InvariantRaiseNextId(saved, t0.nextId, inventory.nextId);
          inventory.rows := saved;
          return Err(got.error);
        }
        PrependAssoc(dropped, got.value,
                     RollDrops(inventory.State(), registry.items, playerId, table.drops[i + 1..], random, cursor));
        dropped := dropped + got.value;
        i := i + 1;
      }
      assert table.drops[i..] == [];
      assert dropped + [] == dropped;
      r := Ok(dropped);
    }
  
    /** `processActionTick`: checks the action is the player's current
        one, pays `(long)(xpPerSecond * elapsed)` experience when the
        product is positive, then rolls the loot table once per whole
        elapsed second when the action has one. */
    method ProcessActionTick(playerId: string, actionId: string, elapsed: real) returns (r: Result<()>)
      requires Valid()
      modifies this, inventory, players
      ensures Valid()
      ensures activeActions == old(activeActions)
      ensures match TickSpec(old(activeActions), registry, old(inventory.State()), old(players.players),
                             playerId, actionId, elapsed, random, old(cursor))
              case Ok(res) => r == Ok(()) && inventory.State() == res.0 && players.players == res.1 && cursor == res.2
              case Err(e) => r == Err(e) && inventory.rows == old(inventory.rows) && players.players == old(players.players)
    {
      if playerId !in activeActions || activeActions[playerId].actionId != actionId {
        return Err(IllegalState("Action is not active for player: " + playerId));
      }
      var action :- registry.GetAction(actionId);
      assert TickAction(activeActions, registry, playerId, actionId) == Ok(action);
      ghost var t0 := inventory.State();
      var savedPlayers := players.players;
      var gain := ExperienceGain(action, elapsed);
      if gain > 0.0 {
        var _ :- players.AddExperience(playerId, action.skillId.GetOr(""), gain.Floor);
      }
      assert players.players == if gain > 0.0 then WithExperience(savedPlayers, playerId, gain.Floor) else savedPlayers;
      assert inventory.State() == t0 && cursor == old(cursor);
      if HasLootTable(action) {
        var looted := RollRounds(playerId, action.lootTableId.value, elapsed.Floor);
        if looted.Err? {
          players.players := savedPlayers;
          return Err(looted.error);
        }
      }
      r := Ok(());
    }

    /** One round of a multi-round roll, seen against the rounds still to go. */
    method PlayRound(playerId: string, lootTableId: string, ghost left: nat) returns (r: Result<()>)
      requires Valid() && left > 0
      modifies this, inventory
      ensures Valid()
      ensures activeActions == old(activeActions) && inventory.nextId >= old(inventory.nextId)
      ensures r.Err? ==> LootRounds(old(inventory.State()), registry, playerId, lootTableId, left, random, old(cursor))
                         == Err(r.error)
      ensures r.Ok? ==> LootRounds(old(inventory.State()), registry, playerId, lootTableId, left, random, old(cursor))
                        == LootRounds(inventory.State(), registry, playerId, lootTableId, left - 1, random, cursor)
    {
      var res := ExecuteLootTable(playerId, lootTableId);
      if res.Err? {
        return Err(res.error);
      }
      LootRoundsStep(old(inventory.State()), registry, playerId, lootTableId, left, random, old(cursor), inventory.State());
      r := Ok(());
    }

    /** The loot loop of a tick: `rounds` calls of `executeLootTable`,
        stopping at the first failure, which undoes them all. */
    method RollRounds(playerId: string, lootTableId: string, rounds: int) returns (r: Result<()>)
      requires Valid()
      modifies this, inventory
      ensures Valid()
      ensures activeActions == old(activeActions)
      ensures match LootRounds(old(inventory.State()), registry, playerId, lootTableId, if rounds < 0 then 0 else rounds,
                               random, old(cursor))
              case Ok(res) => r == Ok(()) && inventory.State() == res.0 && cursor == res.1
              case Err(e) => r == Err(e) && inventory.rows == old(inventory.rows)
    {
      ghost var n: nat := if rounds < 0 then 0 else rounds;
      ghost var t0 := inventory.State();
      var saved := inventory.rows;
      var i := 0;
      while i < rounds
        invariant 0 <= i <= n
        invariant inventory.Valid() && players.Valid()
        invariant inventory.nextId >= t0.nextId
        invariant activeActions == old(activeActions)
        invariant LootRounds(t0, registry, playerId, lootTableId, n, random, old(cursor))
                  == LootRounds(inventory.State(), registry, playerId, lootTableId, n - i, random, cursor)
      {
        var res := PlayRound(playerId, lootTableId, n - i);
        if res.Err? {
          InvariantRaiseNextId(saved, t0.nextId, inventory.nextId);
          inventory.rows := saved;
          return Err(res.error);
        }
        i := i + 1;
      }
      r := Ok(());
    }

    /** `executeMiningAction`: one loot round, then 10 experience. */
    method ExecuteMiningAction(playerId: string, locationId: string, lootTableId: string) returns (r: Result<seq<Item>>)
      requires Valid()
      modifies this, inventory, players
      ensures Valid()
      ensures activeActions == old(activeActions)
      ensures match MineSpec(registry, old(inventory.State()), old(players.players), playerId, lootTableId, random, old(cursor))
              case Ok(res) => r == Ok(res.0) && inventory.State() == res.1 && players.players == res.2
              case Err(e) => r == Err(e) && inventory.rows == old(inventory.rows) && players.players == old(players.players)
    {
      var savedRows := inventory.rows;
      ghost var t0 := inventory.State();
      var items :- ExecuteLootTable(playerId, lootTableId);
      var rewarded := players.AddExperience(playerId, "mining", 10);
      if rewarded.Err? {
        InvariantRaiseNextId(savedRows, t0.nextId, inventory.nextId);
        inventory.rows := savedRows;
        return Err(rewarded.error);
      }
      r := Ok(items);
    }

    /** The check loop of crafting: whether every input passes `hasItem`;
        changes nothing. */
    method HoldsAll(playerId: string, inputs: seq<(string, int)>) returns (b: bool)
      ensures b <==> AllHeld(inventory.State(), playerId, inputs)
    {
      var i := 0;
      while i < |inputs|
        invariant 0 <= i <= |inputs|
        invariant forall k :: 0 <= k < i ==> HasItem(inventory.State(), playerId, inputs[k].0, inputs[k].1)
      {
        if !HasItem(inventory.State(), playerId, inputs[i].0, inputs[i].1) {
          return false;
        }
        i := i + 1;
      }
      b := true;
    }

    /** The removal loop of crafting: `removeItem` of every input, its
        answer ignored. */
    method RemoveInputs(playerId: string, inputs: seq<(string, int)>)
      requires Valid()
      modifies inventory
      ensures Valid()
      ensures inventory.State() == RemoveAll(old(inventory.State()), playerId, inputs)
    {
      var i := 0;
      assert inputs[0..] == inputs;
      while i < |inputs|
        invariant 0 <= i <= |inputs|
        invariant inventory.Valid()
        invariant RemoveAll(old(inventory.State()), playerId, inputs) == RemoveAll(inventory.State(), playerId, inputs[i..])
      {
        assert inputs[i..][0] == inputs[i] && inputs[i..][1..] == inputs[i + 1..];
        var _ := inventory.RemoveItem(playerId, inputs[i].0, inputs[i].1);
        i := i + 1;
      }
    }

    /** `executeCraftingAction`: answers false, changing nothing, unless
        every input is held; otherwise removes the inputs, adds the output
        and grants 15 experience. */
    method ExecuteCraftingAction(playerId: string, recipeId: string, inputs: seq<(string, int)>,
                                 outputItemId: string, outputQuantity: int) returns (r: Result<bool>)
      requires Valid()
      modifies this, inventory, players
      ensures Valid()
      ensures activeActions == old(activeActions) && cursor == old(cursor)
      ensures match CraftSpec(registry, old(inventory.State()), old(players.players), playerId, inputs, outputItemId, outputQuantity)
              case Ok(res) => r == Ok(res.0) && inventory.State() == res.1 && players.players == res.2
              case Err(e) => r == Err(e) && inventory.rows == old(inventory.rows) && players.players == old(players.players)
    {
      var held := HoldsAll(playerId, inputs);
      if !held {
        return Ok(false);
      }
      var savedRows := inventory.rows;
      ghost var t0 := inventory.State();
      RemoveInputs(playerId, inputs);
      RemoveAllKeepsNextId(t0, playerId, inputs);
      var added := inventory.AddItem(registry.items, playerId, outputItemId, outputQuantity);
      if added.Err? {
        InvariantRaiseNextId(savedRows, t0.nextId, inventory.nextId);
        inventory.rows := savedRows;
        return Err(added.error);
      }
      var rewarded := players.AddExperience(playerId, "crafting", 15);
      if rewarded.Err? {
        InvariantRaiseNextId(savedRows, t0.nextId, inventory.nextId);
        inventory.rows := savedRows;
        return Err(rewarded.error);
      }
      r := Ok(true);
    }
  }

  /** One tick of an action: the item table, the players and the draw
      cursor afterwards. */
  function TickSpec(active: map<string, ActionState>, registry: Registry, t: Table, players: map<string, Player>,
                    playerId: string, actionId: string, elapsed: real, random: Oracle, cursor: nat)
    : Result<(Table, map<string, Player>, nat)>
  {
    match TickAction(active, registry, playerId, actionId)
    case Err(e) => Err(e)
    case Ok(action) =>
      var gain := ExperienceGain(action, elapsed);
      if gain > 0.0 && playerId !in players then Err(IllegalArgument("Player not found: " + playerId))
      else
        var rewarded := if gain > 0.0 then WithExperience(players, playerId, gain.Floor) else players;
        var rounds := if HasLootTable(action) then LootRollCount(elapsed) else 0;
        match LootRounds(t, registry, playerId, action.lootTableId.GetOr(""), rounds, random, cursor)
        case Err(e) => Err(e)
        case Ok(res) => Ok((res.0, rewarded, res.1))
  }

  /** One mining action: the items dropped, the item table and the
      players afterwards. */
  function MineSpec(registry: Registry, t: Table, players: map<string, Player>, playerId: string,
                    lootTableId: string, random: Oracle, cursor: nat): Result<(seq<Item>, Table, map<string, Player>)>
  {
    match LootRound(t, registry, playerId, lootTableId, random, cursor)
    case Err(e) => Err(e)
    case Ok(res) =>
      if playerId !in players then Err(IllegalArgument("Player not found: " + playerId))
      else Ok((res.1, res.0, WithExperience(players, playerId, 10)))
  }

  /** One crafting action: whether it crafted, the item table and the
      players afterwards. */
  function CraftSpec(registry: Registry, t: Table, players: map<string, Player>, playerId: string,
                     inputs: seq<(string, int)>, outputItemId: string, outputQuantity: int)
    : Result<(bool, Table, map<string, Player>)>
  {
    if !AllHeld(t, playerId, inputs) then Ok((false, t, players))
    else
      match AddItemSpec(RemoveAll(t, playerId, inputs), registry.items, playerId, outputItemId, outputQuantity)
      case Err(e) => Err(e)
      case Ok(res) =>
        if playerId !in players then Err(IllegalArgument("Player not found: " + playerId))
        else Ok((true, res.0, WithExperience(players, playerId, 15)))
  }

  /** Every input of a recipe passes `hasItem`. */
  predicate AllHeld(t: Table, playerId: string, inputs: seq<(string, int)>) {
    forall k :: 0 <= k < |inputs| ==> HasItem(t, playerId, inputs[k].0, inputs[k].1)
  }

  /** The table after `removeItem` of every input in turn; a removal that
      answers false changes nothing. */
  function RemoveAll(t: Table, playerId: string, inputs: seq<(string, int)>): Table
    decreases |inputs|
  {
    if inputs == [] then t
    else
      var next := match RemoveItemSpec(t, playerId, inputs[0].0, inputs[0].1)
                  case Some(t1) => t1
                  case None => t;
      RemoveAll(next, playerId, inputs[1..])
  }

  /** Removals hand out no keys. */
  lemma {:induction false} RemoveAllKeepsNextId(t: Table, playerId: string, inputs: seq<(string, int)>)
    ensures RemoveAll(t, playerId, inputs).nextId == t.nextId
    decreases |inputs|
  {
    if inputs != [] {
      var next := match RemoveItemSpec(t, playerId, inputs[0].0, inputs[0].1)
                  case Some(t1) => t1
                  case None => t;
      RemoveAllKeepsNextId(next, playerId, inputs[1..]);
    }
  }

  /** Every removal in the sequence answers true. */
  predicate EveryRemovalSucceeds(t: Table, playerId: string, inputs: seq<(string, int)>)
    decreases |inputs|
  {
    inputs == [] ||
    (RemoveItemSpec(t, playerId, inputs[0].0, inputs[0].1).Some? &&
     EveryRemovalSucceeds(RemoveItemSpec(t, playerId, inputs[0].0, inputs[0].1).value, playerId, inputs[1..]))
  }

  /** The inputs of a recipe name distinct items, as the keys of a map do. */
  predicate DistinctKeys(inputs: seq<(string, int)>) {
    forall j, k :: 0 <= j < k < |inputs| ==> inputs[j].0 != inputs[k].0
  }

  /** With distinct input items that are all held, `removeItem` succeeds
      for every input, so crafting consumes all of them. */
  lemma {:induction false} HeldInputsAllRemoved(t: Table, playerId: string, inputs: seq<(string, int)>)
    requires DistinctKeys(inputs) && AllHeld(t, playerId, inputs)
    ensures EveryRemovalSucceeds(t, playerId, inputs)
    decreases |inputs|
  {
    if inputs != [] {
      HasItemIffRemovable(t, playerId, inputs[0].0, inputs[0].1);
      var t1 := RemoveItemSpec(t, playerId, inputs[0].0, inputs[0].1).value;
      forall k | 0 <= k < |inputs[1..]|
        ensures HasItem(t1, playerId, inputs[1..][k].0, inputs[1..][k].1)
      {
        assert inputs[1..][k] == inputs[k + 1];
        RemovalKeepsOtherHoldings(t, playerId, inputs[0].0, inputs[0].1, inputs[k + 1].0, inputs[k + 1].1);
      }
      HeldInputsAllRemoved(t1, playerId, inputs[1..]);
    }
  }

  /** With the shipped, empty action catalogue every start fails. */
  lemma StartAlwaysFailsWhenShipped(active: map<string, ActionState>, playerId: string, actionId: string,
                                    instanceId: Option<string>, now: int)
    ensures StartActionSpec(active, Shipped(), playerId, actionId, instanceId, now)
            == Err(IllegalArgument("Action not found: " + actionId))
  {
  }

  /** A player who has started an action cannot start another one until
      it is stopped; after stopping, a start succeeds again. */
  lemma SecondStartConflicts(active: map<string, ActionState>, registry: Registry, playerId: string,
                             a: string, b: string, i: Option<string>, j: Option<string>, now: int, later: int)
    requires StartActionSpec(active, registry, playerId, a, i, now).Ok?
    requires b in registry.actions
    ensures var started := StartActionSpec(active, registry, playerId, a, i, now).value;
            && StartActionSpec(started, registry, playerId, b, j, later)
               == Err(IllegalState("Player is already performing an action: " + a))
            && StartActionSpec(started - {playerId}, registry, playerId, b, j, later).Ok?
  {
  }

  /** A tick shorter than a second, or of an action without a loot table,
      leaves the item table and the draw cursor alone. */
  lemma ShortTickNoLoot(active: map<string, ActionState>, registry: Registry, t: Table, players: map<string, Player>,
                        playerId: string, actionId: string, elapsed: real, random: Oracle, cursor: nat)
    requires TickSpec(active, registry, t, players, playerId, actionId, elapsed, random, cursor).Ok?
    requires elapsed < 1.0 || !HasLootTable(registry.actions[actionId])
    ensures var res := TickSpec(active, registry, t, players, playerId, actionId, elapsed, random, cursor).value;
            res.0 == t && res.2 == cursor
  {
  }

  /** A tick that pays no experience leaves the players alone, and a tick
      that pays some adds exactly that to the player's total. */
  lemma TickExperience(active: map<string, ActionState>, registry: Registry, t: Table, players: map<string, Player>,
                       playerId: string, actionId: string, elapsed: real, random: Oracle, cursor: nat)
    requires TickSpec(active, registry, t, players, playerId, actionId, elapsed, random, cursor).Ok?
    ensures var gain := ExperienceGain(registry.actions[actionId], elapsed);
            var after := TickSpec(active, registry, t, players, playerId, actionId, elapsed, random, cursor).value.1;
            && (gain <= 0.0 ==> after == players)
            && (gain > 0.0 ==> playerId in players && after.Keys == players.Keys
                               && after[playerId].experience == players[playerId].experience + gain.Floor)
  {
  }
}
