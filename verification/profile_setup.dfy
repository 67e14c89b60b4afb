/** The profile form of the browser client: its submit gates and the hint it
    shows for the typed age. The age field is text; `parseInt` of it is
    supplied alongside (`None` for `NaN`). */
module ProfileSetup {
  import opened Wrappers
  import opened Domain
  import Prompt
  import Profiles
  import Http

  /** What a submit does: refuse with a notice, or post the profile. */
  datatype Submit = Refused(notice: string) | Post(body: Profiles.Fields)

  const Incomplete := "Por favor completa todos los campos"
  const TooYoung := "La edad mínima es 5 años"

  /** The JSON the client posts for a parsed age: `NaN` serializes as `null`. */
  function AgeJson(parsed: Option<int>): (v: Profiles.Value)
    ensures parsed.Some? ==> v == Profiles.Num(parsed.value)
    ensures parsed.None? ==> v == Profiles.Null
  {
    if parsed.Some? then Profiles.Num(parsed.value) else Profiles.Null
  }

  /** `handleSubmit`: an empty field refuses, then a parsed age below 5; an
      age that does not parse is not caught here. */
  function HandleSubmit(name: string, age: string, parsed: Option<int>): (r: Submit)
    ensures name == "" || age == "" ==> r == Refused(Incomplete)
    ensures name != "" && age != "" && parsed.Some? && parsed.value < 5 ==> r == Refused(TooYoung)
    ensures r.Post? <==> name != "" && age != "" && (parsed.None? || parsed.value >= 5)
    ensures r.Post? ==> r.body == map["name" := Profiles.Str(name), "age" := AgeJson(parsed)]
  {
    if name == "" || age == "" then Refused(Incomplete)
    else if parsed.Some? && parsed.value < 5 then Refused(TooYoung)
    else Post(map["name" := Profiles.Str(name), "age" := AgeJson(parsed)])
  }

  const ChildrenHint := "Contenido divertido con juegos y canciones"
  const TeenagersHint := "Temas modernos y conversaciones dinámicas"
  const YoungAdultsHint := "Enfoque práctico para universidad y trabajo"
  const AdultsHint := "Contenido profesional y cultural avanzado"
  const SeniorsHint := "Conversaciones sofisticadas y temas culturales"
  const FallbackHint := "Práctica conversacional adaptada a tu experiencia"

  /** The hint for each prompt band. */
  function BandHint(b: Band): string {
    match b
    case Children => ChildrenHint
    case Teenagers => TeenagersHint
    case YoungAdults => YoungAdultsHint
    case Adults => AdultsHint
    case Seniors => SeniorsHint
    case Fallback => FallbackHint
  }

  /** `getAgeGroupMessage`: nothing for a `NaN` or zero age, otherwise the
      hint of the age's range. */
  function AgeGroupMessage(parsed: Option<int>): (m: string)
    ensures m == "" <==> parsed.None? || parsed.value == 0
  {
    if parsed.None? || parsed.value == 0 then ""
    else
      var a := parsed.value;
      if 5 <= a <= 10 then ChildrenHint
      else if 11 <= a <= 17 then TeenagersHint
      else if 18 <= a <= 25 then YoungAdultsHint
      else if 26 <= a <= 40 then AdultsHint
      else if 41 <= a <= 60 then SeniorsHint
      else FallbackHint
  }

  /** The form's ranges are the prompt's bands: every non-zero age gets the
      hint of the band its prompt would use. */
  lemma HintFollowsPromptBand(a: int)
    requires a != 0
    ensures AgeGroupMessage(Some(a)) == BandHint(Prompt.SelectBand(a))
  {
  }

  /** Client and server disagree on the upper bound: an age over 40 passes
      the form but the server refuses it. */
  lemma FormAcceptsWhatServerRefuses(name: string, age: string, a: int, t: Profiles.Table, id: string, now: int)
    requires name != "" && age != "" && a > 40
    ensures HandleSubmit(name, age, Some(a)).Post?
    ensures Profiles.Create(t, HandleSubmit(name, age, Some(a)).body, id, now).1 == Http.Status(Http.BadRequest, Profiles.AgeRange)
  {
    var body := HandleSubmit(name, age, Some(a)).body;
    assert Profiles.Lookup(body, "name") == Some(Profiles.Str(name));
    assert Profiles.Lookup(body, "age") == Some(Profiles.Num(a));
  }

  /** An age that does not parse is posted as `null`, which the server
      refuses as missing. */
  lemma UnparsedAgeRefusedAsMissing(name: string, age: string, t: Profiles.Table, id: string, now: int)
    requires name != "" && age != ""
    ensures HandleSubmit(name, age, None).Post?
    ensures Profiles.Create(t, HandleSubmit(name, age, None).body, id, now).1 == Http.Status(Http.BadRequest, Profiles.Required)
  {
    var body := HandleSubmit(name, age, None).body;
    assert Profiles.Lookup(body, "age") == Some(Profiles.Null);
  }

  /** Every age the form posts within 5..40 is stored by the server with the
      same name and age. */
  lemma AcceptedRangeAgrees(name: string, age: string, a: int, t: Profiles.Table, id: string, now: int)
    requires name != "" && age != "" && 5 <= a <= 40
    ensures HandleSubmit(name, age, Some(a)).Post?
    ensures var r := Profiles.Create(t, HandleSubmit(name, age, Some(a)).body, id, now).1;
      r.Json? && r.body.fields["name"] == Profiles.Str(name) && r.body.fields["age"] == Profiles.Num(a)
  {
    var body := HandleSubmit(name, age, Some(a)).body;
    assert Profiles.Lookup(body, "name") == Some(Profiles.Str(name));
    assert Profiles.Lookup(body, "age") == Some(Profiles.Num(a));
  }
}
