/** The combat arithmetic: equipment bonuses scaled down by wear, and the
    damage one player deals another. */
module Combat {
  import opened Wrappers
  import opened EquipmentModel
  import opened ItemModel
  import opened StaticData
  import opened ItemRepository
  import opened Inventory
  import opened Players

  /** The two bonuses equipment carries. */
  datatype Stat = Attack | Defense

  function StatOf(d: EquipmentDetails, stat: Stat): int {
    match stat
    case Attack => d.attackBonus
    case Defense => d.defenseBonus
  }

  /** Java's `(int)` cast of a real: truncation toward zero. */
  function Trunc(x: real): int {
    if x >= 0.0 then x.Floor else -((-x).Floor)
  }

  /** `(int) (baseStat * factor)`: a stat scaled by a reduction factor. */
  function Scale(base: int, factor: real): int {
    Trunc(base as real * factor)
  }

  /** `applyDurabilityReduction`: the entries are tried in order; the
      first whose threshold is at least the ratio scales the stat by its
      factor, and a ratio above every threshold leaves the stat as it is. */
  function Reduction(base: int, ratio: real, multipliers: Multipliers): int
    decreases |multipliers|
  {
    if multipliers == [] then base
    else if ratio <= multipliers[0].0 then Scale(base, multipliers[0].1)
    else Reduction(base, ratio, multipliers[1..])
  }

  /** A ratio above every threshold leaves the stat as it is. */
  lemma {:induction false} ReductionAboveAll(base: int, ratio: real, multipliers: Multipliers)
    requires forall k :: 0 <= k < |multipliers| ==> ratio > multipliers[k].0
    ensures Reduction(base, ratio, multipliers) == base
    decreases |multipliers|
  {
    if multipliers != [] {
      assert ratio > multipliers[0].0;
      forall k | 0 <= k < |multipliers| - 1
        ensures ratio > multipliers[1..][k].0
      {
        assert multipliers[1..][k] == multipliers[k + 1];
      }
      ReductionAboveAll(base, ratio, multipliers[1..]);
    }
  }

  /** When entry k is the first whose threshold covers the ratio, the
      result is the stat scaled by its factor. */
  lemma {:induction false} ReductionUsesFirstCover(base: int, ratio: real, multipliers: Multipliers, k: nat)
    requires k < |multipliers| && ratio <= multipliers[k].0
    requires forall j :: 0 <= j < k ==> ratio > multipliers[j].0
    ensures Reduction(base, ratio, multipliers) == Scale(base, multipliers[k].1)
    decreases k
  {
    if k > 0 {
      assert ratio > multipliers[0].0;
      forall j | 0 <= j < k - 1
        ensures ratio > multipliers[1..][j].0
      {
        assert multipliers[1..][j] == multipliers[j + 1];
      }
      assert multipliers[1..][k - 1] == multipliers[k];
      ReductionUsesFirstCover(base, ratio, multipliers[1..], k - 1);
    }
  }

  /** What the bonus arithmetic needs of a catalogue: every equipable
      blueprint has a positive maximum durability. Every well formed
      catalogue has it. */
  ghost predicate DurableCatalogue(items: map<string, Item>) {
    forall id :: id in items && items[id].IsEquipable() ==> items[id].equipmentDetails.value.Valid()
  }

  /** What one equipped row adds: the blueprint's bonus, scaled by the
      reduction table when the row records its durability. */
  function RowBonus(row: ItemRow, item: Item, stat: Stat): (b: int)
    requires item.IsEquipable() && item.equipmentDetails.value.Valid()
    ensures row.currentDurability.None? ==> b == StatOf(item.equipmentDetails.value, stat)
  {
    var d := item.equipmentDetails.value;
    var base := StatOf(d, stat);
    if row.currentDurability.None? then base
    else Reduction(base, row.currentDurability.value / d.durabilityMax as real, d.statReductionMultipliers)
  }

  /** What one row adds to the sum: nothing for a blueprint that is not
      equipable, its bonus for one that is; the lookup of an unknown item
      fails. */
  function RowContribution(row: ItemRow, items: map<string, Item>, stat: Stat): (r: Result<int>)
    requires DurableCatalogue(items)
    ensures r.Ok? <==> row.itemId in items
    ensures r.Ok? && !items[row.itemId].IsEquipable() ==> r.value == 0
  {
    match Lookup("Item not found: ", items, row.itemId)
    case Err(e) => Err(e)
    case Ok(item) => Ok(if item.IsEquipable() then RowBonus(row, item, stat) else 0)
  }

  /** The sum over rows, in order, of what each equipable blueprint adds;
      the lookup of an unknown item fails. */
  function BonusTotal(rows: seq<ItemRow>, items: map<string, Item>, stat: Stat): Result<int>
    requires DurableCatalogue(items)
    decreases |rows|
  {
    if rows == [] then Ok(0)
    else
      var init := rows[..|rows| - 1];
      var last := rows[|rows| - 1];
      match BonusTotal(init, items, stat)
      case Err(e) => Err(e)
      case Ok(total) =>
        match RowContribution(last, items, stat)
        case Err(e) => Err(e)
        case Ok(bonus) => Ok(total + bonus)
  }

  /** The sum succeeds exactly when every row's item is catalogued, and
      otherwise fails with the lookup error of a row that is not. */
  lemma {:induction false} BonusTotalDefined(rows: seq<ItemRow>, items: map<string, Item>, stat: Stat)
    requires DurableCatalogue(items)
    ensures var r := BonusTotal(rows, items, stat);
            && (r.Ok? <==> forall i :: 0 <= i < |rows| ==> rows[i].itemId in items)
            && (r.Err? ==> exists i :: 0 <= i < |rows| && rows[i].itemId !in items
                                      && r == Err(Lookup("Item not found: ", items, rows[i].itemId).error))
    decreases |rows|
  {
    if rows != [] {
      var init := rows[..|rows| - 1];
      assert forall i :: 0 <= i < |init| ==> init[i] == rows[i];
      BonusTotalDefined(init, items, stat);
    }
  }

  /** Once a prefix fails, the whole sum fails with the same error. */
  lemma {:induction false} BonusErrorSticks(rows: seq<ItemRow>, n: nat, items: map<string, Item>, stat: Stat)
    requires DurableCatalogue(items)
    requires n <= |rows| && BonusTotal(rows[..n], items, stat).Err?
    ensures BonusTotal(rows, items, stat) == BonusTotal(rows[..n], items, stat)
    decreases |rows| - n
  {
    if n < |rows| {
      var init := rows[..|rows| - 1];
      assert init[..n] == rows[..n];
      BonusErrorSticks(init, n, items, stat);
    } else {
      assert rows[..n] == rows;
    }
  }

  /** The bonus of a single row. */
  lemma BonusOfOneRow(row: ItemRow, items: map<string, Item>, stat: Stat)
    requires DurableCatalogue(items) && row.itemId in items
    ensures items[row.itemId].IsEquipable() ==> items[row.itemId].equipmentDetails.value.Valid()
    ensures BonusTotal([row], items, stat)
            == Ok(if items[row.itemId].IsEquipable() then RowBonus(row, items[row.itemId], stat) else 0)
  {
    assert [row][..0] == [];
  }

  /** Dropping the last element of a concatenation with a non-empty tail. */
  lemma ConcatInit<T>(a: seq<T>, b: seq<T>)
    requires b != []
    ensures (a + b)[..|a + b| - 1] == a + b[..|b| - 1]
    ensures (a + b)[|a + b| - 1] == b[|b| - 1]
  {
  }

  /** Results added up left to right; the first error wins. */
  function SumResults(cs: seq<Result<int>>): Result<int>
    decreases |cs|
  {
    if cs == [] then Ok(0)
    else
      match SumResults(cs[..|cs| - 1])
      case Err(e) => Err(e)
      case Ok(total) =>
        match cs[|cs| - 1]
        case Err(e) => Err(e)
        case Ok(v) => Ok(total + v)
  }

  /** The sum of two successful lists together is the sum of their sums. */
  lemma {:induction false} SumResultsAdditive(cs: seq<Result<int>>, ds: seq<Result<int>>, x: int, y: int)
    requires SumResults(cs) == Ok(x) && SumResults(ds) == Ok(y)
    ensures SumResults(cs + ds) == Ok(x + y)
    decreases |ds|
  {
    if ds == [] {
      assert cs + ds == cs;
    } else {
      var init := ds[..|ds| - 1];
      var z := SumResults(init).value;
      SumResultsAdditive(cs, init, x, z);
      ConcatInit(cs, ds);
    }
  }

  /** The contribution of every row, in order. */
  function Contributions(rows: seq<ItemRow>, items: map<string, Item>, stat: Stat): (cs: seq<Result<int>>)
    requires DurableCatalogue(items)
    ensures |cs| == |rows|
    decreases |rows|
  {
    if rows == [] then []
    else Contributions(rows[..|rows| - 1], items, stat) + [RowContribution(rows[|rows| - 1], items, stat)]
  }

  /** The contributions of a concatenation are those of its parts. */
  lemma {:induction false} ContributionsAppend(a: seq<ItemRow>, b: seq<ItemRow>, items: map<string, Item>, stat: Stat)
    requires DurableCatalogue(items)
    ensures Contributions(a + b, items, stat) == Contributions(a, items, stat) + Contributions(b, items, stat)
    decreases |b|
  {
    if b == [] {
      assert a + b == a;
    } else {
      ContributionsAppend(a, b[..|b| - 1], items, stat);
      ConcatInit(a, b);
    }
  }

  /** The bonus is the sum of the rows' contributions. */
  lemma {:induction false} BonusIsSum(rows: seq<ItemRow>, items: map<string, Item>, stat: Stat)
    requires DurableCatalogue(items)
    ensures BonusTotal(rows, items, stat) == SumResults(Contributions(rows, items, stat))
    decreases |rows|
  {
    if rows != [] {
      var cs := Contributions(rows, items, stat);
      BonusIsSum(rows[..|rows| - 1], items, stat);
      assert cs[..|cs| - 1] == Contributions(rows[..|rows| - 1], items, stat);
    }
  }

  /** The bonus of a concatenation is the sum of the bonuses of its parts. */
  lemma BonusAdditive(a: seq<ItemRow>, b: seq<ItemRow>, items: map<string, Item>, stat: Stat, x: int, y: int)
    requires DurableCatalogue(items)
    requires BonusTotal(a, items, stat) == Ok(x) && BonusTotal(b, items, stat) == Ok(y)
    ensures BonusTotal(a + b, items, stat) == Ok(x + y)
  {
    BonusIsSum(a, items, stat);
    BonusIsSum(b, items, stat);
    BonusIsSum(a + b, items, stat);
    ContributionsAppend(a, b, items, stat);
    SumResultsAdditive(Contributions(a, items, stat), Contributions(b, items, stat), x, y);
  }

  /** One more row, seen from the summing loop: the row's contribution
      is added to the total of the rows before it, or its error is the
      error of the longer prefix. */
  lemma BonusPrefix(rows: seq<ItemRow>, i: nat, items: map<string, Item>, stat: Stat, total: int)
    requires DurableCatalogue(items)
    requires i < |rows| && BonusTotal(rows[..i], items, stat) == Ok(total)
    ensures BonusTotal(rows[..i + 1], items, stat)
            == match RowContribution(rows[i], items, stat)
               case Err(e) => Err(e)
               case Ok(bonus) => Ok(total + bonus)
  {
    var prefix := rows[..i + 1];
    assert prefix[..|prefix| - 1] == rows[..i] && prefix[|prefix| - 1] == rows[i];
  }

  /** `Math.max(1, 10 + level + attack - defence)`. */
  function Damage(attackerLevel: int, attackBonus: int, defenseBonus: int): (d: int)
    ensures d >= 1 && d >= 10 + attackerLevel + attackBonus - defenseBonus
    ensures d == 1 || d == 10 + attackerLevel + attackBonus - defenseBonus
  {
    var baseDamage := 10 + attackerLevel;
    if baseDamage + attackBonus - defenseBonus > 1 then baseDamage + attackBonus - defenseBonus else 1
  }

  /** A stronger attacker, a better weapon or a weaker defence never
      lowers the damage. */
  lemma DamageMonotone(level: int, level': int, atk: int, atk': int, def: int, def': int)
    requires level <= level' && atk <= atk' && def' <= def
    ensures Damage(level, atk, def) <= Damage(level', atk', def')
  {
  }

  /** The shipped bronze sword adds 10 attack and 10 defence whatever
      its durability: its one reduction entry covers every ratio up to 1
      with factor 1, and a higher ratio keeps the base bonus. */
  lemma BronzeSwordNeverWeakens(row: ItemRow, stat: Stat)
    ensures BronzeSword.IsEquipable() && BronzeSword.equipmentDetails.value.Valid()
    ensures RowBonus(row, BronzeSword, stat) == 10
  {
    var m := BronzeSwordDetails.statReductionMultipliers;
    assert BronzeSword.equipmentDetails == Some(BronzeSwordDetails);
    assert m == [(1.0, 1.0)] && StatOf(BronzeSwordDetails, stat) == 10;
    if row.currentDurability.Some? {
      var ratio := row.currentDurability.value / 100 as real;
      if ratio <= 1.0 {
        assert Scale(10, 1.0) == 10;
        assert Reduction(10, ratio, m) == Scale(10, 1.0);
      } else {
        assert m[1..] == [];
        assert Reduction(10, ratio, m) == 10;
      }
    }
  }

  /** An owner whose only equipped row is a bronze sword has bonus 10. */
  lemma BronzeSwordBonusTotal(row: ItemRow, stat: Stat)
    requires row.itemId == "bronze_sword"
    ensures WellFormedCatalogue(ShippedItems())
    ensures BonusTotal([row], ShippedItems(), stat) == Ok(10)
  {
    ShippedItemFacts();
    assert Shipped().items == ShippedItems();
    assert ShippedItems()["bronze_sword"] == BronzeSword;
    BonusOfOneRow(row, ShippedItems(), stat);
    BronzeSwordNeverWeakens(row, stat);
  }

  /** The cast drops the fraction and keeps the sign. */
  lemma TruncTowardZero(x: real)
    ensures x >= 0.0 ==> 0 <= Trunc(x) && Trunc(x) as real <= x < Trunc(x) as real + 1.0
    ensures x < 0.0 ==> Trunc(x) <= 0 && Trunc(x) as real - 1.0 < x <= Trunc(x) as real
  {
  }

  /** The combat service, reading the item and player tables. */
  class CombatService {
    const inventory: ItemTable
    const players: PlayerStore
    const items: map<string, Item>

    constructor (inventory: ItemTable, players: PlayerStore, items: map<string, Item>)
      ensures this.inventory == inventory && this.players == players && this.items == items
    {
      this.inventory := inventory;
      this.players := players;
      this.items := items;
    }

    /** `applyDurabilityReduction`. */
    method ApplyDurabilityReduction(baseStat: int, ratio: real, multipliers: Multipliers) returns (r: int)
      ensures r == Reduction(baseStat, ratio, multipliers)
    {
      var i := 0;
      while i < |multipliers|
        invariant 0 <= i <= |multipliers|
        invariant Reduction(baseStat, ratio, multipliers) == Reduction(baseStat, ratio, multipliers[i..])
      {
        assert multipliers[i..][0] == multipliers[i] && multipliers[i..][1..] == multipliers[i + 1..];
        if ratio <= multipliers[i].0 {
          return Scale(baseStat, multipliers[i].1);
        }
        i := i + 1;
      }
      r := baseStat;
    }

    /** The bonus one equipped row adds: the blueprint's bonus, passed
        through `applyDurabilityReduction` when the row records its
        durability. */
    method RowBonusOf(row: ItemRow, stat: Stat) returns (r: Result<int>)
      requires WellFormedCatalogue(items)
      ensures r == RowContribution(row, items, stat)
    {
      var item :- Lookup("Item not found: ", items, row.itemId);
      if !item.IsEquipable() {
        return Ok(0);
      }
      var bonus := EquippedBonus(row, item, stat);
      r := Ok(bonus);
    }

    method EquippedBonus(row: ItemRow, item: Item, stat: Stat) returns (bonus: int)
      requires item.IsEquipable() && item.equipmentDetails.value.Valid()
      ensures bonus == RowBonus(row, item, stat)
    {
      var details := item.equipmentDetails.value;
      bonus := StatOf(details, stat);
      if row.currentDurability.Some? {
        var ratio := row.currentDurability.value / details.durabilityMax as real;
        bonus := ApplyDurabilityReduction(bonus, ratio, details.statReductionMultipliers);
      }
    }

    /** `calculateAttackBonus` and `calculateDefenseBonus`: the bonus of
        the player's equipped rows. */
    method CalculateBonus(playerId: string, stat: Stat) returns (r: Result<int>)
      requires WellFormedCatalogue(items)
      ensures r == BonusTotal(FindEquippedByOwnerId(inventory.rows, playerId), items, stat)
    {
      r := SumBonuses(inventory.GetEquippedItems(playerId), stat);
    }

    /** The loop of `calculateBonus`: the rows' contributions added in
        order, stopping at the first unknown item. */
    method SumBonuses(rows: seq<ItemRow>, stat: Stat) returns (r: Result<int>)
      requires WellFormedCatalogue(items)
      ensures r == BonusTotal(rows, items, stat)
    {
      var total := 0;
      var i := 0;
      while i < |rows|
        invariant 0 <= i <= |rows|
        invariant BonusTotal(rows[..i], items, stat) == Ok(total)
      {
        var bonus := RowBonusOf(rows[i], stat);
        BonusPrefix(rows, i, items, stat, total);
        if bonus.Err? {
          BonusErrorSticks(rows, i + 1, items, stat);
          return Err(bonus.error);
        }
        total := total + bonus.value;
        i := i + 1;
      }
      assert rows[..i] == rows;
      r := Ok(total);
    }

    /** `processCombat`: the damage the attacker deals, at least 1; both
        players must exist. Nothing is written. */
    method ProcessCombat(attackerId: string, defenderId: string) returns (r: Result<int>)
      requires WellFormedCatalogue(items)
      ensures attackerId !in players.players || defenderId !in players.players ==>
                r == Err(IllegalArgument("Attacker or defender not found"))
      ensures attackerId in players.players && defenderId in players.players ==>
                var atk := BonusTotal(FindEquippedByOwnerId(inventory.rows, attackerId), items, Attack);
                var def := BonusTotal(FindEquippedByOwnerId(inventory.rows, defenderId), items, Defense);
                && (atk.Err? ==> r == Err(atk.error))
                && (atk.Ok? && def.Err? ==> r == Err(def.error))
                && (atk.Ok? && def.Ok? ==> r == Ok(Damage(players.players[attackerId].level, atk.value, def.value)))
      ensures r.Ok? ==> r.value >= 1
    {
      var attacker := players.GetPlayer(attackerId);
      var defender := players.GetPlayer(defenderId);
      if attacker.None? || defender.None? {
        return Err(IllegalArgument("Attacker or defender not found"));
      }
      var attackBonus :- CalculateBonus(attackerId, Attack);
      var defenseBonus :- CalculateBonus(defenderId, Defense);
      var baseDamage := 10 + attacker.value.level;
      var damage := if 1 > baseDamage + attackBonus - defenseBonus then 1 else baseDamage + attackBonus - defenseBonus;
      r := Ok(damage);
    }
  }
}
