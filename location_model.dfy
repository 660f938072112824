/** Locations: the zones a player can stand in. */
module LocationModel {
  import opened Wrappers
  import opened Text

  datatype Location = Location(
    id: string,
    name: string,
    description: Option<string>,
    availableActionIds: seq<string>)

  /** The validating constructor: a missing action list becomes the empty
      list, so every location has one. */
  function NewLocation(id: Option<string>, name: Option<string>, description: Option<string>,
                       actionIds: Option<seq<string>>): (r: Result<Location>)
    ensures r.Ok? <==> !NullOrBlank(id) && !NullOrBlank(name)
    ensures NullOrBlank(id) ==> r == Err(IllegalArgument("Location id cannot be null or blank"))
    ensures !NullOrBlank(id) && NullOrBlank(name) ==> r == Err(IllegalArgument("Location name cannot be null or blank"))
    ensures r.Ok? && actionIds.None? ==> r.value.availableActionIds == []
    ensures r.Ok? && actionIds.Some? ==> r.value.availableActionIds == actionIds.value
    ensures r.Ok? ==> r.value.id == id.value && r.value.name == name.value && r.value.description == description
  {
    if NullOrBlank(id) then Err(IllegalArgument("Location id cannot be null or blank"))
    else if NullOrBlank(name) then Err(IllegalArgument("Location name cannot be null or blank"))
    else Ok(Location(id.value, name.value, description, actionIds.GetOr([])))
  }
}
