/** Loot resolution: rolling a loot table against the item table. The
    random number generator is an explicit oracle: draw number n is the
    pair `random(n)`, whose `chance` stands for `nextDouble()` and whose
    `pick` stands for the value `nextInt` reduces into its bound. Each drop
    of a table consumes exactly one draw. */
module Loot {
  import opened Wrappers
  import opened ItemModel
  import opened LootTableModel
  import opened StaticData
  import opened ItemRepository
  import opened Inventory

  /** What `nextDouble()` returns: a number in [0, 1). */
  type Fraction = r: real | 0.0 <= r < 1.0

  datatype LootRoll = LootRoll(chance: Fraction, pick: nat)

  type Oracle = nat -> LootRoll

  /** `nextInt(bound)`: a value in [0, bound); a bound that is not positive
      throws. */
  function NextInt(pick: nat, bound: int): (r: Result<nat>)
    ensures r.Ok? <==> bound > 0
    ensures r.Ok? ==> r.value < bound
    ensures r.Err? ==> r.error == IllegalArgument("bound must be positive")
  {
    if bound <= 0 then Err(IllegalArgument("bound must be positive")) else Ok(pick % bound)
  }

  /** The quantity a granted drop yields for a draw. */
  function DropQuantity(d: LootDrop, roll: LootRoll): (r: Result<int>)
    ensures d.minQuantity <= d.maxQuantity <==> r.Ok?
    ensures r.Ok? ==> d.minQuantity <= r.value <= d.maxQuantity
  {
    match NextInt(roll.pick, d.maxQuantity - d.minQuantity + 1)
    case Err(e) => Err(e)
    case Ok(k) => Ok(d.minQuantity + k)
  }

  /** Whether a draw grants a drop. */
  predicate Granted(d: LootDrop, roll: LootRoll) {
    roll.chance < d.chance
  }

  /** Puts `xs` in front of the items of a successful outcome. */
  function Prepend(xs: seq<Item>, r: Result<(Table, seq<Item>)>): Result<(Table, seq<Item>)> {
    match r
    case Err(e) => Err(e)
    case Ok(res) => Ok((res.0, xs + res.1))
  }

  /** One drop rolled with one draw: when the draw grants it, a quantity
      in its range is added to the inventory; the item table afterwards
      and the blueprint granted, if any. */
  function DropOutcome(t: Table, items: map<string, Item>, playerId: string, d: LootDrop, roll: LootRoll)
    : (r: Result<(Table, seq<Item>)>)
  {
    if !Granted(d, roll) then Ok((t, []))
    else
      match DropQuantity(d, roll)
      case Err(e) => Err(e)
      case Ok(quantity) =>
        match AddItemSpec(t, items, playerId, d.itemId, quantity)
        case Err(e) => Err(e)
        case Ok(added) => Ok((added.0, [items[d.itemId]]))
  }

  /** The drops of one table rolled in order, drop k with draw cursor + k:
      the item table afterwards and the blueprint of every granted drop. */
  function RollDrops(t: Table, items: map<string, Item>, playerId: string, drops: seq<LootDrop>,
                     random: Oracle, cursor: nat): (r: Result<(Table, seq<Item>)>)
    decreases |drops|
  {
    if drops == [] then Ok((t, []))
    else
      match DropOutcome(t, items, playerId, drops[0], random(cursor))
      case Err(e) => Err(e)
      case Ok(res) => Prepend(res.1, RollDrops(res.0, items, playerId, drops[1..], random, cursor + 1))
  }

  /** `executeLootTable`: looks the table up and rolls it. */
  function LootRound(t: Table, registry: Registry, playerId: string, lootTableId: string,
                     random: Oracle, cursor: nat): Result<(Table, seq<Item>)> {
    match registry.GetLootTable(lootTableId)
    case Err(e) => Err(e)
    case Ok(table) => RollDrops(t, registry.items, playerId, table.drops, random, cursor)
  }

  /** The number of draws one round of a table consumes. */
  function Draws(registry: Registry, lootTableId: string): nat {
    match registry.GetLootTable(lootTableId)
    case Err(_) => 0
    case Ok(table) => |table.drops|
  }

  /** A drop the draw does not grant changes nothing; a granted drop
      succeeds exactly when its range is valid, the quantity drawn is
      positive and the item is catalogued, and then yields that item's
      blueprint. */
  lemma DropOutcomeCases(t: Table, items: map<string, Item>, playerId: string, d: LootDrop, roll: LootRoll)
    ensures var r := DropOutcome(t, items, playerId, d, roll);
            && (!Granted(d, roll) ==> r == Ok((t, [])))
            && (Granted(d, roll) ==>
                  (r.Ok? <==> d.minQuantity <= d.maxQuantity && DropQuantity(d, roll).value > 0 && d.itemId in items))
            && (r.Ok? && Granted(d, roll) ==> d.itemId in items && r.value.1 == [items[d.itemId]])
  {
  }

  /** The drops the draws grant, in table order; drop k is rolled with
      draw cursor + k. */
  function GrantedDrops(drops: seq<LootDrop>, random: Oracle, cursor: nat): (g: seq<LootDrop>)
    ensures |g| <= |drops|
    ensures forall d :: d in g ==> d in drops
    decreases |drops|
  {
    if drops == [] then []
    else
      var rest := GrantedDrops(drops[1..], random, cursor + 1);
      if Granted(drops[0], random(cursor)) then [drops[0]] + rest else rest
  }

  /** Rolling a table that succeeds yields exactly the blueprints of the
      granted drops, one per drop and in table order, each of them from the
      catalogue. */
  lemma {:induction false} RollDropsYield(t: Table, items: map<string, Item>, playerId: string, drops: seq<LootDrop>,
                                         random: Oracle, cursor: nat)
    ensures var r := RollDrops(t, items, playerId, drops, random, cursor);
            var g := GrantedDrops(drops, random, cursor);
            r.Ok? ==> && |r.value.1| == |g| <= |drops|
                      && (forall i :: 0 <= i < |g| ==> g[i].itemId in items && r.value.1[i] == items[g[i].itemId])
                      && (forall x :: x in r.value.1 ==> x in items.Values)
    decreases |drops|
  {
    if drops != [] {
      DropOutcomeCases(t, items, playerId, drops[0], random(cursor));
      var step := DropOutcome(t, items, playerId, drops[0], random(cursor));
      if step.Ok? {
        RollDropsYield(step.value.0, items, playerId, drops[1..], random, cursor + 1);
        var rest := RollDrops(step.value.0, items, playerId, drops[1..], random, cursor + 1);
        if rest.Ok? {
          var g := GrantedDrops(drops, random, cursor);
          var gRest := GrantedDrops(drops[1..], random, cursor + 1);
          var out := step.value.1 + rest.value.1;
          assert RollDrops(t, items, playerId, drops, random, cursor) == Ok((rest.value.0, out));
          if Granted(drops[0], random(cursor)) {
            assert g == [drops[0]] + gRest;
            forall i | 0 <= i < |g|
              ensures g[i].itemId in items && out[i] == items[g[i].itemId]
            {
              if i > 0 {
                assert g[i] == gRest[i - 1] && out[i] == rest.value.1[i - 1];
              }
            }
          } else {
            assert g == gRest && out == rest.value.1;
          }
        }
      }
    }
  }

  /** `n` rounds of the same table, one after the other: the item table
      and the draw cursor afterwards. */
  function LootRounds(t: Table, registry: Registry, playerId: string, lootTableId: string, n: nat,
                      random: Oracle, cursor: nat): Result<(Table, nat)>
    decreases n
  {
    if n == 0 then Ok((t, cursor))
    else
      match LootRound(t, registry, playerId, lootTableId, random, cursor)
      case Err(e) => Err(e)
      case Ok(res) => LootRounds(res.0, registry, playerId, lootTableId, n - 1, random,
                                 cursor + Draws(registry, lootTableId))
  }

  /** `n` rounds that succeed consume exactly `n` times the table's number
      of drops in draws. */
  lemma {:induction false} RoundsConsumeDraws(t: Table, registry: Registry, playerId: string, lootTableId: string,
                                             n: nat, random: Oracle, cursor: nat)
    ensures var r := LootRounds(t, registry, playerId, lootTableId, n, random, cursor);
            r.Ok? ==> r.value.1 == cursor + n * Draws(registry, lootTableId)
    decreases n
  {
    if n > 0 {
      var round := LootRound(t, registry, playerId, lootTableId, random, cursor);
      if round.Ok? {
        var d := Draws(registry, lootTableId);
        RoundsConsumeDraws(round.value.0, registry, playerId, lootTableId, n - 1, random, cursor + d);
        assert cursor + d + (n - 1) * d == cursor + n * d;
      }
    }
  }

  /** Rolling one more drop, seen from the loop: the outcome of the whole
      table is the items so far in front of the outcome of the rest. */
  lemma PrependAssoc(xs: seq<Item>, ys: seq<Item>, r: Result<(Table, seq<Item>)>)
    ensures Prepend(xs, Prepend(ys, r)) == Prepend(xs + ys, r)
  {
    if r.Ok? {
      assert xs + (ys + r.value.1) == (xs + ys) + r.value.1;
    }
  }

  lemma PrependNothing(r: Result<(Table, seq<Item>)>)
    ensures Prepend([], r) == r
  {
    if r.Ok? {
      assert [] + r.value.1 == r.value.1;
    }
  }

  /** A drop of chance 1 is granted by every draw, a drop of chance 0 by
      none, and a granted drop of a valid table yields a quantity within
      its range. */
  lemma ChanceBounds(d: LootDrop, roll: LootRoll)
    ensures d.chance == 1.0 ==> Granted(d, roll)
    ensures d.chance == 0.0 ==> !Granted(d, roll)
    ensures d.InRange() ==> DropQuantity(d, roll).Ok?
  {
  }

  /** A granted drop of minimum 0 whose draw picks 0 yields quantity 0,
      which `addItem` refuses, so the whole roll fails. */
  lemma ZeroQuantityFails(t: Table, items: map<string, Item>, playerId: string, d: LootDrop, rest: seq<LootDrop>,
                          random: Oracle, cursor: nat)
    requires d.minQuantity == 0 && d.maxQuantity >= 0
    requires Granted(d, random(cursor)) && random(cursor).pick % (d.maxQuantity + 1) == 0
    ensures RollDrops(t, items, playerId, [d] + rest, random, cursor) == Err(IllegalArgument("Quantity must be positive"))
  {
    assert ([d] + rest)[0] == d;
  }

  /** A granted drop of an item that is in the catalogue, with a valid
      range and minimum at least 1, always lands in the inventory. */
  lemma GrantedDropIsAdded(t: Table, items: map<string, Item>, playerId: string, d: LootDrop, roll: LootRoll)
    requires d.InRange() && d.minQuantity >= 1 && d.itemId in items
    ensures DropQuantity(d, roll).Ok?
    ensures AddItemSpec(t, items, playerId, d.itemId, DropQuantity(d, roll).value).Ok?
  {
  }

  /** One round further: after a round that succeeds, the remaining rounds
      start from the table it left, one table's worth of draws later. */
  lemma LootRoundsStep(t: Table, registry: Registry, playerId: string, lootTableId: string, n: nat,
                       random: Oracle, cursor: nat, after: Table)
    requires n > 0
    requires LootRound(t, registry, playerId, lootTableId, random, cursor).Ok?
    requires LootRound(t, registry, playerId, lootTableId, random, cursor).value.0 == after
    ensures LootRounds(t, registry, playerId, lootTableId, n, random, cursor)
            == LootRounds(after, registry, playerId, lootTableId, n - 1, random, cursor + Draws(registry, lootTableId))
  {
  }

  /** No rounds, no change: the item table and the cursor stay put. */
  lemma NoRoundsNoLoot(t: Table, registry: Registry, playerId: string, lootTableId: string, random: Oracle, cursor: nat)
    ensures LootRounds(t, registry, playerId, lootTableId, 0, random, cursor) == Ok((t, cursor))
  {
  }

  /** A table whose drops are never granted leaves the inventory as it
      was and drops nothing. */
  lemma {:induction false} NothingGrantedNoChange(t: Table, items: map<string, Item>, playerId: string,
                                                 drops: seq<LootDrop>, random: Oracle, cursor: nat)
    requires forall k :: 0 <= k < |drops| ==> !Granted(drops[k], random(cursor + k))
    ensures RollDrops(t, items, playerId, drops, random, cursor) == Ok((t, []))
    decreases |drops|
  {
    if drops != [] {
      assert !Granted(drops[0], random(cursor + 0));
      DropOutcomeCases(t, items, playerId, drops[0], random(cursor));
      forall k | 0 <= k < |drops[1..]|
        ensures !Granted(drops[1..][k], random(cursor + 1 + k))
      {
        assert drops[1..][k] == drops[k + 1];
      }
      NothingGrantedNoChange(t, items, playerId, drops[1..], random, cursor + 1);
      PrependNothing(RollDrops(t, items, playerId, drops[1..], random, cursor + 1));
    }
  }
}
