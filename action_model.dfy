/** Actions: what a player can be busy doing. */
module ActionModel {
  import opened Wrappers
  import opened Text

  /** The skill and the loot table are optional references (Java nulls);
      the rates are doubles, kept as exact reals. */
  datatype Action = Action(
    id: string,
    name: string,
    skillId: Option<string>,
    lootTableId: Option<string>,
    experiencePerSecond: real,
    durationSeconds: real)
  {
    /** A duration of zero or less means the action never finishes by itself. */
    predicate IsContinuous() {
      durationSeconds <= 0.0
    }
  }

  /** The validating constructor: only the id and the name are checked. */
  function NewAction(id: Option<string>, name: Option<string>, skillId: Option<string>,
                     lootTableId: Option<string>, experiencePerSecond: real, durationSeconds: real): (r: Result<Action>)
    ensures r.Ok? <==> !NullOrBlank(id) && !NullOrBlank(name)
    ensures NullOrBlank(id) ==> r == Err(IllegalArgument("Action id cannot be null or blank"))
    ensures !NullOrBlank(id) && NullOrBlank(name) ==> r == Err(IllegalArgument("Action name cannot be null or blank"))
    ensures r.Ok? ==> r.value == Action(id.value, name.value, skillId, lootTableId, experiencePerSecond, durationSeconds)
    ensures r.Ok? ==> (r.value.IsContinuous() <==> durationSeconds <= 0.0)
  {
    if NullOrBlank(id) then Err(IllegalArgument("Action id cannot be null or blank"))
    else if NullOrBlank(name) then Err(IllegalArgument("Action name cannot be null or blank"))
    else Ok(Action(id.value, name.value, skillId, lootTableId, experiencePerSecond, durationSeconds))
  }
}
