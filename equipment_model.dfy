/** The equipment part of an item blueprint: the slot it occupies, its
    combat bonuses, its maximum durability and the table that scales its
    bonuses down as it wears. */
module EquipmentModel {
  import opened Wrappers

  datatype EquipmentSlot =
    | Weapon | Head | Body | PrimaryArm | SecondaryArm | Legs | Feet | Accessory
  {
    /** The enum constant's `name()`, which is what inventory rows store. */
    function Name(): string {
      match this
      case Weapon => "WEAPON"
      case Head => "HEAD"
      case Body => "BODY"
      case PrimaryArm => "PRIMARY_ARM"
      case SecondaryArm => "SECONDARY_ARM"
      case Legs => "LEGS"
      case Feet => "FEET"
      case Accessory => "ACCESSORY"
    }
  }

  /** Distinct slots have distinct names. */
  lemma SlotNamesDistinct(a: EquipmentSlot, b: EquipmentSlot)
    requires a.Name() == b.Name()
    ensures a == b
  {
  }

  /** The durability-reduction table is a `Map<Float, Float>` copied with
      `Map.copyOf`; it is kept here as its list of (threshold, factor)
      entries in the iteration order of that copy, which Java leaves
      unspecified. */
  type Multipliers = seq<(real, real)>

  datatype EquipmentDetails = EquipmentDetails(
    slot: EquipmentSlot,
    attackBonus: int,
    defenseBonus: int,
    durabilityMax: int,
    statReductionMultipliers: Multipliers)
  {
    /** What the constructor guarantees of every value it builds. */
    predicate Valid() {
      durabilityMax > 0
    }
  }

  /** The validating constructor; a null slot or map is `None`. */
  function NewEquipmentDetails(slot: Option<EquipmentSlot>, attackBonus: int, defenseBonus: int,
                               durabilityMax: int, multipliers: Option<Multipliers>): (r: Result<EquipmentDetails>)
    ensures r.Ok? <==> slot.Some? && durabilityMax > 0 && multipliers.Some?
    ensures slot.None? ==> r == Err(IllegalArgument("Equipment slot cannot be null"))
    ensures slot.Some? && durabilityMax <= 0 ==> r == Err(IllegalArgument("Durability max must be positive"))
    ensures slot.Some? && durabilityMax > 0 && multipliers.None?
            ==> r == Err(IllegalArgument("Stat reduction multipliers cannot be null"))
    ensures r.Ok? ==> r.value.Valid()
    ensures r.Ok? ==> r.value.slot == slot.value && r.value.attackBonus == attackBonus
                      && r.value.defenseBonus == defenseBonus && r.value.durabilityMax == durabilityMax
                      && r.value.statReductionMultipliers == multipliers.value
  {
    if slot.None? then Err(IllegalArgument("Equipment slot cannot be null"))
    else if durabilityMax <= 0 then Err(IllegalArgument("Durability max must be positive"))
    else if multipliers.None? then Err(IllegalArgument("Stat reduction multipliers cannot be null"))
    else Ok(EquipmentDetails(slot.value, attackBonus, defenseBonus, durabilityMax, multipliers.value))
  }
}
