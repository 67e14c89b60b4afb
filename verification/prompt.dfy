/** How the realtime service parametrises its system prompt by the learner's
    profile (`generateSystemPrompt`). */
module Prompt {
  import opened Wrappers
  import opened Domain

  const DefaultAge := 15
  const DefaultName := "estudiante"

  /** `profile.age || 15`: a missing age and the falsy age 0 both read as 15. */
  function EffectiveAge(age: Option<int>): (a: int)
    ensures age.None? || age == Some(0) ==> a == DefaultAge
    ensures age.Some? && age.value != 0 ==> a == age.value
  {
    if age.Some? && age.value != 0 then age.value else DefaultAge
  }

  /** `profile.name || 'estudiante'`: a missing or empty name reads as the default. */
  function EffectiveName(name: Option<string>): (n: string)
    ensures name.None? || name == Some("") ==> n == DefaultName
    ensures name.Some? && name.value != "" ==> n == name.value
    ensures n != ""
  {
    if name.Some? && name.value != "" then name.value else DefaultName
  }

  /** The band whose ruleset the prompt embeds. */
  function SelectBand(age: int): (b: Band)
    ensures b == Children <==> 5 <= age <= 10
    ensures b == Teenagers <==> 11 <= age <= 17
    ensures b == YoungAdults <==> 18 <= age <= 25
    ensures b == Adults <==> 26 <= age <= 40
    ensures b == Seniors <==> 41 <= age <= 60
    ensures b == Fallback <==> age < 5 || age > 60
  {
    if 5 <= age <= 10 then Children
    else if 11 <= age <= 17 then Teenagers
    else if 18 <= age <= 25 then YoungAdults
    else if 26 <= age <= 40 then Adults
    else if 41 <= age <= 60 then Seniors
    else Fallback
  }

  /** The prompt quotes the effective name and age and embeds the ruleset of
      the effective age's band. */
  function Generate(profile: Profile): (p: SystemPrompt)
    ensures p.name == EffectiveName(profile.name) && p.name != ""
    ensures p.age == EffectiveAge(profile.age)
    ensures p.band == SelectBand(p.age)
  {
    var age := EffectiveAge(profile.age);
    SystemPrompt(EffectiveName(profile.name), age, SelectBand(age))
  }

  /** A profile without an age (or with age 0) gets the teenager ruleset,
      because the default age 15 falls in the 11-17 band. */
  lemma MissingAgeSelectsTeenagers(profile: Profile)
    requires profile.age.None? || profile.age == Some(0)
    ensures Generate(profile).band == Teenagers
    ensures Generate(profile).age == 15
  {
  }

  /** Two profiles whose effective ages lie in the same band get the same
      ruleset, whatever their names. */
  lemma SameBandSameRuleset(p1: Profile, p2: Profile, lo: int, hi: int)
    requires (lo, hi) in {(5, 10), (11, 17), (18, 25), (26, 40), (41, 60)}
    requires lo <= EffectiveAge(p1.age) <= hi && lo <= EffectiveAge(p2.age) <= hi
    ensures Generate(p1).band == Generate(p2).band != Fallback
  {
  }
}
