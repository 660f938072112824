/** The location service: where each agent stands, kept in the persistent
    agent-state table. */
module LocationService {
  import opened Wrappers
  import opened LocationModel
  import opened StaticData

  /** An agent-state row; the location may be absent. */
  datatype AgentState = AgentState(
    id: string,
    agentType: string,
    currentLocation: Option<string>,
    health: int,
    maxHealth: int,
    mana: int,
    maxMana: int,
    stateData: Option<string>)

  /** The row `new AgentStateEntity(id, agentType, location)` builds. */
  function NewAgentState(id: string, agentType: string, location: string): (a: AgentState)
    ensures a.health == 100 && a.maxHealth == 100 && a.mana == 0 && a.maxMana == 0
    ensures a.currentLocation == Some(location) && a.stateData.None?
  {
    AgentState(id, agentType, Some(location), 100, 100, 0, 0, None)
  }

  /** The location of a newly created agent. */
  const STARTING_LOCATION: string := "starting_location"

  /** `getCurrentLocation`: the stored location, or None when there is no
      row, the row has no location, or the catalogue does not know it. */
  function CurrentLocation(states: map<string, AgentState>, registry: Registry, playerId: string): (r: Option<Location>)
    ensures r.Some? <==> playerId in states && states[playerId].currentLocation.Some?
                         && registry.GetLocation(states[playerId].currentLocation.value).Ok?
    ensures r.Some? ==> r.value == registry.locations[states[playerId].currentLocation.value]
  {
    if playerId !in states || states[playerId].currentLocation.None? then None
    else
      match registry.GetLocation(states[playerId].currentLocation.value)
      case Err(_) => None
      case Ok(location) => Some(location)
  }

  /** `moveToLocation`: the new table and the target, or the lookup error
      with nothing written. */
  function MoveSpec(states: map<string, AgentState>, registry: Registry, playerId: string, target: string)
    : (r: Result<(map<string, AgentState>, Location)>)
    ensures r.Ok? <==> target in registry.locations
  {
    match registry.GetLocation(target)
    case Err(e) => Err(e)
    case Ok(location) =>
      var row := if playerId in states then states[playerId].(currentLocation := Some(target))
                 else NewAgentState(playerId, "player", target);
      Ok((states[playerId := row], location))
  }

  /** `getOrCreateAgentState`: the table afterwards and the row. */
  function GetOrCreateSpec(states: map<string, AgentState>, playerId: string): (r: (map<string, AgentState>, AgentState))
    ensures playerId in states ==> r == (states, states[playerId])
    ensures playerId !in states ==> r.1 == NewAgentState(playerId, "player", STARTING_LOCATION)
                                    && r.0 == states[playerId := r.1]
  {
    if playerId in states then (states, states[playerId])
    else
      var row := NewAgentState(playerId, "player", STARTING_LOCATION);
      (states[playerId := row], row)
  }

  /** After a move, the player stands at the target; a new row is a fresh
      player, an existing one changes only its location, and no other row
      changes. */
  lemma MoveEffect(states: map<string, AgentState>, registry: Registry, playerId: string, target: string)
    requires MoveSpec(states, registry, playerId, target).Ok?
    ensures var (after, location) := MoveSpec(states, registry, playerId, target).value;
            && CurrentLocation(after, registry, playerId) == Some(location)
            && location == registry.locations[target]
            && (playerId in states ==> after[playerId] == states[playerId].(currentLocation := Some(target)))
            && (playerId !in states ==> after[playerId].agentType == "player" && after[playerId].health == 100)
            && (forall p :: p != playerId ==> (p in after <==> p in states) && (p in states ==> after[p] == states[p]))
  {
  }

  /** A second `getOrCreateAgentState` creates nothing and returns the
      same row. */
  lemma GetOrCreateIdempotent(states: map<string, AgentState>, playerId: string)
    ensures var (once, row) := GetOrCreateSpec(states, playerId);
            GetOrCreateSpec(once, playerId) == (once, row)
  {
  }

  /** With the shipped, empty location catalogue every move fails, and a
      player whose row was just created stands nowhere the catalogue
      knows. */
  lemma ShippedLocationsUnknown(states: map<string, AgentState>, playerId: string, target: string)
    ensures MoveSpec(states, Shipped(), playerId, target) == Err(IllegalArgument("Location not found: " + target))
    ensures CurrentLocation(GetOrCreateSpec(states, playerId).0, Shipped(), playerId).None?
  {
  }

  /** The agent-state table. */
  class AgentStateStore {
    var states: map<string, AgentState>
    const registry: Registry

    /** Every row sits under its own id. */
    ghost predicate Valid()
      reads this
    {
      forall id :: id in states ==> states[id].id == id
    }

    constructor (registry: Registry)
      ensures Valid() && states == map[] && this.registry == registry
    {
      states := map[];
      this.registry := registry;
    }

    /** `getCurrentLocation`. */
    function GetCurrentLocation(playerId: string): (r: Option<Location>)
      reads this
      ensures r == CurrentLocation(states, registry, playerId)
    {
      CurrentLocation(states, registry, playerId)
    }

    /** `moveToLocation`: validates the target before touching the table. */
    method MoveToLocation(playerId: string, target: string) returns (r: Result<Location>)
      requires Valid()
      modifies this
      ensures Valid()
      ensures match MoveSpec(old(states), registry, playerId, target)
              case Err(e) => r == Err(e) && states == old(states)
              case Ok(res) => r == Ok(res.1) && states == res.0
    {
      var location :- registry.GetLocation(target);
      if playerId !in states {
        states := states[playerId := NewAgentState(playerId, "player", target)];
      } else {
        states := states[playerId := states[playerId].(currentLocation := Some(target))];
      }
      r := Ok(location);
    }

    /** `getOrCreateAgentState`. */
    method GetOrCreateAgentState(playerId: string) returns (a: AgentState)
      requires Valid()
      modifies this
      ensures Valid()
      ensures (states, a) == GetOrCreateSpec(old(states), playerId)
    {
      if playerId in states {
        return states[playerId];
      }
      a := NewAgentState(playerId, "player", STARTING_LOCATION);
      states := states[playerId := a];
    }
  }
}
