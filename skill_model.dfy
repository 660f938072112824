/** Skills: named experience curves. */
module SkillModel {
  import opened Wrappers
  import opened Text

  /** `experienceCurve[k]` is the total experience needed for level k + 1. */
  datatype Skill = Skill(id: string, name: string, experienceCurve: seq<int>) {

    /** `getExperienceForLevel`: levels are 1-based; -1 marks a level
        outside the curve. */
    function ExperienceForLevel(level: int): (xp: int)
      ensures 1 <= level <= |experienceCurve| ==> xp == experienceCurve[level - 1]
      ensures !(1 <= level <= |experienceCurve|) ==> xp == -1
    {
      if level < 1 || level > |experienceCurve| then -1 else experienceCurve[level - 1]
    }
  }

  /** The validating constructor; a null list is `None`. */
  function NewSkill(id: Option<string>, name: Option<string>, curve: Option<seq<int>>): (r: Result<Skill>)
    ensures r.Ok? <==> !NullOrBlank(id) && !NullOrBlank(name) && curve.Some? && |curve.value| > 0
    ensures NullOrBlank(id) ==> r == Err(IllegalArgument("Skill id cannot be null or blank"))
    ensures !NullOrBlank(id) && NullOrBlank(name) ==> r == Err(IllegalArgument("Skill name cannot be null or blank"))
    ensures r.Ok? ==> r.value == Skill(id.value, name.value, curve.value)
  {
    if NullOrBlank(id) then Err(IllegalArgument("Skill id cannot be null or blank"))
    else if NullOrBlank(name) then Err(IllegalArgument("Skill name cannot be null or blank"))
    else if curve.None? || |curve.value| == 0 then Err(IllegalArgument("Experience curve cannot be null or empty"))
    else Ok(Skill(id.value, name.value, curve.value))
  }

  /** The -1 sentinel cannot be confused with a real threshold as long as
      the curve holds no negative entry: then the answer is -1 exactly for
      the levels outside the curve, and every constructed skill has a
      level 1. */
  lemma SentinelUnambiguous(s: Skill, level: int)
    requires forall k :: 0 <= k < |s.experienceCurve| ==> s.experienceCurve[k] >= 0
    ensures s.ExperienceForLevel(level) == -1 <==> level < 1 || level > |s.experienceCurve|
    ensures s.ExperienceForLevel(level) != -1 ==> s.ExperienceForLevel(level) >= 0
  {
  }
}
