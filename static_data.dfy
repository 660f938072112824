/** The lazily initialised content catalogues (items, skills, loot tables,
    actions, locations) and the content they ship with. */
module StaticData {
  import opened Wrappers
  import opened Text
  import opened EquipmentModel
  import opened ItemModel
  import opened SkillModel
  import opened LootTableModel
  import opened ActionModel
  import opened LocationModel

  /** `get<Kind>`: the stored blueprint, or the "not found" error, whose
      message is `notFound` ("<Kind> not found: ") followed by the id. */
  function Lookup<T>(notFound: string, entries: map<string, T>, id: string): (r: Result<T>)
    ensures r.Ok? <==> id in entries
    ensures r.Ok? ==> r.value == entries[id]
    ensures r.Err? ==> r.error == IllegalArgument(notFound + id)
  {
    if id in entries then Ok(entries[id]) else Err(IllegalArgument(notFound + id))
  }

  /** One static catalogue: a map filled on first use and a flag recording
      that it was. `notFound` is what the "not found" message starts with;
      `shipped` is what `initialize` puts in. */
  class Catalogue<T> {
    const notFound: string
    const shipped: map<string, T>
    var entries: map<string, T>
    var initialized: bool

    /** Before initialisation the map is empty; afterwards it holds exactly
        the shipped content. */
    ghost predicate Valid()
      reads this
    {
      entries == if initialized then shipped else map[]
    }

    constructor (notFound: string, shipped: map<string, T>)
      ensures Valid() && !initialized
      ensures this.notFound == notFound && this.shipped == shipped
    {
      this.notFound := notFound;
      this.shipped := shipped;
      entries := map[];
      initialized := false;
    }

    /** `initialize`: fills the map once; every later call changes nothing. */
    method Initialize()
      requires Valid()
      modifies this
      ensures Valid() && initialized
      ensures entries == shipped
      ensures old(initialized) ==> entries == old(entries) && initialized == old(initialized)
    {
      if initialized {
        return;
      }
      entries := entries + shipped;
      initialized := true;
    }

    /** `get<Kind>`: initialises, then looks the id up. */
    method Get(id: string) returns (r: Result<T>)
      requires Valid()
      modifies this
      ensures Valid() && initialized
      ensures r == Lookup(notFound, shipped, id)
      ensures r.Ok? <==> id in shipped
    {
      if !initialized {
        Initialize();
      }
      r := Lookup(notFound, entries, id);
    }

    /** `has<Kind>`: initialises, then tests the key. It answers true
        exactly when `Get` would succeed. */
    method Has(id: string) returns (b: bool)
      requires Valid()
      modifies this
      ensures Valid() && initialized
      ensures b <==> id in shipped
      ensures b <==> Lookup(notFound, shipped, id).Ok?
    {
      if !initialized {
        Initialize();
      }
      b := id in entries;
    }

    /** `getAll<Kind>s`: initialises, then hands out the whole map. */
    method GetAll() returns (all: map<string, T>)
      requires Valid()
      modifies this
      ensures Valid() && initialized
      ensures all == shipped
      ensures forall id :: id in all <==> Lookup(notFound, shipped, id).Ok?
    {
      if !initialized {
        Initialize();
      }
      all := entries;
    }
  }

  /** The two shipped items. */
  const CopperOre := Item("copper_ore", "Copper Ore", 10, true, Resource, None)
  const BronzeSwordDetails := EquipmentDetails(Weapon, 10, 10, 100, [(1.0, 1.0)])
  const BronzeSword := Item("bronze_sword", "Bronze Sword", 100, false, EquipmentItem, Some(BronzeSwordDetails))

  function ShippedItems(): map<string, Item> {
    map["copper_ore" := CopperOre, "bronze_sword" := BronzeSword]
  }

  /** The one shipped skill. */
  const MiningCurve: seq<int> := [0, 100, 200, 400, 800, 1600]
  const Mining := Skill("mining", "Mining", MiningCurve)

  function ShippedSkills(): map<string, Skill> {
    map["mining" := Mining]
  }

  /** What every catalogue holds once initialised. The loot-table, action
      and location catalogues ship empty. */
  datatype Registry = Registry(
    items: map<string, Item>,
    skills: map<string, Skill>,
    lootTables: map<string, LootTable>,
    actions: map<string, Action>,
    locations: map<string, Location>)
  {
    function GetItem(id: string): Result<Item> { Lookup("Item not found: ", items, id) }
    function GetSkill(id: string): Result<Skill> { Lookup("Skill not found: ", skills, id) }
    function GetLootTable(id: string): Result<LootTable> { Lookup("LootTable not found: ", lootTables, id) }
    function GetAction(id: string): Result<Action> { Lookup("Action not found: ", actions, id) }
    function GetLocation(id: string): Result<Location> { Lookup("Location not found: ", locations, id) }

    /** Every blueprint was built by its validating constructor and is
        stored under its own id. */
    ghost predicate Valid() {
      && WellFormedCatalogue(items)
      && (forall id :: id in items ==> items[id].id == id)
      && (forall id :: id in lootTables ==> ValidTable(lootTables[id], items))
    }
  }

  function Shipped(): Registry {
    Registry(ShippedItems(), ShippedSkills(), map[], map[], map[])
  }

  /** The calls `initialize` makes all succeed and build exactly the
      shipped blueprints, so filling the item catalogue never throws. */
  lemma ShippedItemsConstructed()
    ensures NewPlainItem(Some("copper_ore"), Some("Copper Ore"), 10, true, Some(Resource)) == Ok(CopperOre)
    ensures NewEquipmentDetails(Some(Weapon), 10, 10, 100, Some([(1.0, 1.0)])) == Ok(BronzeSwordDetails)
    ensures NewItem(Some("bronze_sword"), Some("Bronze Sword"), 100, false, Some(EquipmentItem),
                    Some(BronzeSwordDetails)) == Ok(BronzeSword)
  {
    assert !IsWhitespace("copper_ore"[0]) && !IsWhitespace("Copper Ore"[0]);
    assert !IsWhitespace("bronze_sword"[0]) && !IsWhitespace("Bronze Sword"[0]);
  }

  /** The shipped item catalogue: copper ore stacks and cannot be equipped,
      the bronze sword does not stack and is a weapon with durability 100;
      both blueprints are well formed. */
  lemma ShippedItemFacts()
    ensures ShippedItems().Keys == {"copper_ore", "bronze_sword"}
    ensures CopperOre.stackable && CopperOre.itemType == Resource && !CopperOre.IsEquipable()
    ensures !BronzeSword.stackable && BronzeSword.IsEquipable()
    ensures BronzeSword.equipmentDetails.value.slot == Weapon
    ensures BronzeSword.equipmentDetails.value.durabilityMax == 100
    ensures Shipped().Valid()
  {
    ShippedItemsConstructed();
  }

  /** The shipped mining curve: level 1 needs nothing, level 6 needs 1600,
      and level 7 lies beyond the curve. */
  lemma MiningCurveFacts()
    ensures NewSkill(Some("mining"), Some("Mining"), Some(MiningCurve)) == Ok(Mining)
    ensures Mining.ExperienceForLevel(1) == 0
    ensures Mining.ExperienceForLevel(6) == 1600
    ensures Mining.ExperienceForLevel(7) == -1
    ensures ShippedSkills().Keys == {"mining"}
  {
    assert !IsWhitespace("mining"[0]) && !IsWhitespace("Mining"[0]);
  }

  /** With the shipped (empty) loot-table, action and location catalogues
      every lookup fails with its "not found" message. */
  lemma EmptyCataloguesAlwaysFail(id: string)
    ensures Shipped().GetLootTable(id) == Err(IllegalArgument("LootTable not found: " + id))
    ensures Shipped().GetAction(id) == Err(IllegalArgument("Action not found: " + id))
    ensures Shipped().GetLocation(id) == Err(IllegalArgument("Location not found: " + id))
  {
  }
}
