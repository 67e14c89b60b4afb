/** The exercise catalogue of the exercises route: four age groups of three
    exercises each, listed by age and looked up by id. An exercise's
    description and content are display data and are kept abstract. */
module Exercises {
  import opened Wrappers
  import opened Http
  import Domain
  import Prompt

  datatype Exercise = Exercise(id: string, title: string, kind: string)

  const YoungChildren: seq<Exercise> := [
    Exercise("colors", "Les Couleurs", "vocabulary"),
    Exercise("animals", "Les Animaux", "vocabulary"),
    Exercise("greetings", "Les Salutations", "conversation")]

  const Teens: seq<Exercise> := [
    Exercise("daily_routine", "Ma Routine Quotidienne", "conversation"),
    Exercise("hobbies", "Mes Loisirs", "conversation"),
    Exercise("school", "À l'École", "conversation")]

  const YoungAdults: seq<Exercise> := [
    Exercise("job_interview", "Entretien d'Embauche", "roleplay"),
    Exercise("travel", "Voyager en France", "practical"),
    Exercise("social", "Rencontres Sociales", "conversation")]

  const Adults: seq<Exercise> := [
    Exercise("business", "Français des Affaires", "professional"),
    Exercise("culture", "Culture et Actualités", "discussion"),
    Exercise("formal", "Situations Formelles", "practical")]

  /** The age groups in declaration order, which is the order a lookup scans. */
  const Groups: seq<seq<Exercise>> := [YoungChildren, Teens, YoungAdults, Adults]

  /** `/by-age/:age`, with the age as `parseInt` reads it (`None` for NaN):
      the group whose range contains the age, and nothing for any other age. */
  function ForAge(age: Option<int>): (r: seq<Exercise>)
    ensures age.Some? && 5 <= age.value <= 10 ==> r == YoungChildren
    ensures age.Some? && 11 <= age.value <= 17 ==> r == Teens
    ensures age.Some? && 18 <= age.value <= 25 ==> r == YoungAdults
    ensures age.Some? && 26 <= age.value <= 40 ==> r == Adults
    ensures r == [] <==> age.None? || age.value < 5 || age.value > 40
  {
    if age.None? then []
    else if 5 <= age.value <= 10 then YoungChildren
    else if 11 <= age.value <= 17 then Teens
    else if 18 <= age.value <= 25 then YoungAdults
    else if 26 <= age.value <= 40 then Adults
    else []
  }

  /** `Array.prototype.find` by id: the first exercise with that id. */
  function FindId(xs: seq<Exercise>, id: string): (r: Option<Exercise>)
    ensures r.Some? ==> r.value in xs && r.value.id == id
    ensures r.None? <==> forall i :: 0 <= i < |xs| ==> xs[i].id != id
    ensures xs != [] && xs[0].id == id ==> r == Some(xs[0])
  {
    if xs == [] then None
    else if xs[0].id == id then Some(xs[0])
    else FindId(xs[1..], id)
  }

  /** Scan the groups in order, stopping at the first group that has the id. */
  function Scan(groups: seq<seq<Exercise>>, id: string): (r: Option<Exercise>)
    ensures r.Some? ==> r.value.id == id && exists g :: 0 <= g < |groups| && r.value in groups[g]
    ensures r.None? <==> forall g :: 0 <= g < |groups| ==> FindId(groups[g], id).None?
  {
    if groups == [] then None
    else match FindId(groups[0], id)
      case Some(e) => Some(e)
      case None => Scan(groups[1..], id)
  }

  /** `/:id`: the exercise, or 404 `Exercise not found`. */
  function Lookup(id: string): (r: Response<Exercise>)
    ensures r.Json? ==> r.body.id == id && r.body in All()
    ensures r.Status? ==> r == Status(NotFound, "Exercise not found")
    ensures r.Status? <==> forall i :: 0 <= i < |All()| ==> All()[i].id != id
  {
    ScanCoversAll(Groups, id);
    match Scan(Groups, id)
    case Some(e) => Json(e)
    case None => Status(NotFound, "Exercise not found")
  }

  // ---------------------------------------------------------------------------
  // The catalogue as one list

  function Flatten(groups: seq<seq<Exercise>>): (r: seq<Exercise>)
    ensures |r| == 0 <==> forall g :: 0 <= g < |groups| ==> groups[g] == []
  {
    if groups == [] then [] else groups[0] + Flatten(groups[1..])
  }

  /** The flattened list holds exactly the exercises of the groups. */
  lemma {:induction false} FlattenMembership(groups: seq<seq<Exercise>>, x: Exercise)
    ensures x in Flatten(groups) <==> exists g :: 0 <= g < |groups| && x in groups[g]
    decreases |groups|
  {
    if groups != [] {
      FlattenMembership(groups[1..], x);
      if x in Flatten(groups[1..]) {
        var g :| 0 <= g < |groups[1..]| && x in groups[1..][g];
        assert x in groups[g + 1];
      }
      if exists g :: 0 <= g < |groups| && x in groups[g] {
        var g :| 0 <= g < |groups| && x in groups[g];
        if g > 0 {
          assert x in groups[1..][g - 1];
        }
      }
    }
  }

  /** Flattening distributes over joining the lists of groups. */
  lemma {:induction false} FlattenConcat(a: seq<seq<Exercise>>, b: seq<seq<Exercise>>)
    ensures Flatten(a + b) == Flatten(a) + Flatten(b)
    decreases |a|
  {
    if a == [] {
      assert a + b == b;
    } else {
      assert (a + b)[0] == a[0] && (a + b)[1..] == a[1..] + b;
      FlattenConcat(a[1..], b);
    }
  }

  /** Each group sits in the flattened list right after the groups before it. */
  lemma FlattenKeepsGroupsInOrder(groups: seq<seq<Exercise>>, g: nat)
    requires g < |groups|
    ensures Flatten(groups[..g]) + groups[g] + Flatten(groups[g + 1..]) == Flatten(groups)
  {
    var front, tail := groups[..g], groups[g..];
    calc {
      Flatten(groups);
    == { assert groups == front + tail; }
      Flatten(front + tail);
    == { FlattenConcat(front, tail); }
      Flatten(front) + Flatten(tail);
    == { assert tail[0] == groups[g] && tail[1..] == groups[g + 1..]; }
      Flatten(front) + (groups[g] + Flatten(groups[g + 1..]));
    }
  }

  /** Every exercise of the catalogue, group after group. */
  function All(): (r: seq<Exercise>)
    ensures r == YoungChildren + Teens + YoungAdults + Adults
  {
    var g1, g2, g3 := Groups[1..], Groups[2..], Groups[3..];
    assert g1 == [Teens, YoungAdults, Adults] && g1[1..] == g2 && g2 == [YoungAdults, Adults];
    assert g2[1..] == g3 && g3 == [Adults] && g3[1..] == [];
    assert Flatten(g3) == Adults;
    assert Flatten(g2) == YoungAdults + Adults;
    assert Flatten(g1) == Teens + YoungAdults + Adults;
    Flatten(Groups)
  }

  predicate DistinctIds(xs: seq<Exercise>) {
    forall i, j :: 0 <= i < j < |xs| ==> xs[i].id != xs[j].id
  }

  /** The scan finds the first occurrence of the id in the flattened list,
      and finds nothing exactly when the id occurs nowhere. */
  lemma {:induction false} ScanCoversAll(groups: seq<seq<Exercise>>, id: string)
    ensures Scan(groups, id) == FindId(Flatten(groups), id)
    decreases |groups|
  {
    if groups != [] {
      ScanCoversAll(groups[1..], id);
      FindInConcat(groups[0], Flatten(groups[1..]), id);
    }
  }

  lemma {:induction false} FindInConcat(a: seq<Exercise>, b: seq<Exercise>, id: string)
    ensures FindId(a + b, id) == if FindId(a, id).Some? then FindId(a, id) else FindId(b, id)
    decreases |a|
  {
    if a != [] {
      assert (a + b)[1..] == a[1..] + b;
      FindInConcat(a[1..], b, id);
    } else {
      assert a + b == b;
    }
  }

  /** In a list with distinct ids, finding an exercise's id finds that
      exercise. */
  lemma {:induction false} DistinctIdsFindItself(xs: seq<Exercise>, i: nat)
    requires DistinctIds(xs) && i < |xs|
    ensures FindId(xs, xs[i].id) == Some(xs[i])
    decreases i
  {
    if i > 0 {
      assert xs[0].id != xs[i].id;
      assert DistinctIds(xs[1..]);
      assert xs[1..][i - 1] == xs[i];
      DistinctIdsFindItself(xs[1..], i - 1);
    }
  }

  /** The first two letters of an id as one number: ids with different
      signatures differ. */
  function Sig(id: string): int {
    if |id| < 2 then -1 else (id[0] as int) * 0x10000 + id[1] as int
  }

  function Sigs(xs: seq<Exercise>): (r: seq<int>)
    ensures |r| == |xs| && forall i :: 0 <= i < |xs| ==> r[i] == Sig(xs[i].id)
  {
    seq(|xs|, i requires 0 <= i < |xs| => Sig(xs[i].id))
  }

  /** The signatures of the catalogue: "co", "an", "gr", "da", "ho", "sc",
      "jo", "tr", "so", "bu", "cu", "fo". */
  const CatalogSigs: seq<int> := [
    0x63006F, 0x61006E, 0x670072, 0x640061, 0x68006F, 0x730063,
    0x6A006F, 0x740072, 0x73006F, 0x620075, 0x630075, 0x66006F]

  lemma YoungChildrenSigs() ensures Sigs(YoungChildren) == CatalogSigs[0..3] {
    var s := Sigs(YoungChildren);
    assert s[0] == 0x63006F && s[1] == 0x61006E && s[2] == 0x670072;
  }

  lemma TeensSigs() ensures Sigs(Teens) == CatalogSigs[3..6] {
    var s := Sigs(Teens);
    assert s[0] == 0x640061 && s[1] == 0x68006F && s[2] == 0x730063;
  }

  lemma YoungAdultsSigs() ensures Sigs(YoungAdults) == CatalogSigs[6..9] {
    var s := Sigs(YoungAdults);
    assert s[0] == 0x6A006F && s[1] == 0x740072 && s[2] == 0x73006F;
  }

  lemma AdultsSigs() ensures Sigs(Adults) == CatalogSigs[9..12] {
    var s := Sigs(Adults);
    assert s[0] == 0x620075 && s[1] == 0x630075 && s[2] == 0x66006F;
  }

  /** Distinct signatures mean distinct ids. */
  lemma DistinctSigsDistinctIds(xs: seq<Exercise>, sigs: seq<int>)
    requires Sigs(xs) == sigs && forall i, j :: 0 <= i < j < |sigs| ==> sigs[i] != sigs[j]
    ensures DistinctIds(xs)
  {
    forall i, j | 0 <= i < j < |xs|
      ensures xs[i].id != xs[j].id
    {
      assert sigs[i] == Sig(xs[i].id) && sigs[j] == Sig(xs[j].id);
    }
  }

  lemma CatalogSigsDistinct()
    ensures forall i, j :: 0 <= i < j < |CatalogSigs| ==> CatalogSigs[i] != CatalogSigs[j]
  {
  }

  lemma SigsConcat(a: seq<Exercise>, b: seq<Exercise>)
    ensures Sigs(a + b) == Sigs(a) + Sigs(b)
  {
    var ab := a + b;
    assert forall i :: 0 <= i < |a| ==> ab[i] == a[i];
    assert forall i :: |a| <= i < |ab| ==> ab[i] == b[i - |a|];
  }

  lemma CatalogSigsJoin()
    ensures CatalogSigs[0..3] + CatalogSigs[3..6] + CatalogSigs[6..9] + CatalogSigs[9..12] == CatalogSigs
  {
  }

  /** The signatures of the whole catalogue, group by group. */
  lemma AllSigs()
    ensures Sigs(All()) == CatalogSigs
  {
    YoungChildrenSigs();
    TeensSigs();
    YoungAdultsSigs();
    AdultsSigs();
    SigsConcat(YoungChildren, Teens);
    SigsConcat(YoungChildren + Teens, YoungAdults);
    SigsConcat(YoungChildren + Teens + YoungAdults, Adults);
    CatalogSigsJoin();
  }

  /** No two exercises of the catalogue share an id. */
  lemma CatalogIdsDistinct()
    ensures DistinctIds(All())
  {
    AllSigs();
    CatalogSigsDistinct();
    DistinctSigsDistinctIds(All(), CatalogSigs);
  }

  /** Every catalogued exercise is found by its own id, so lookup by id is
      unambiguous. */
  lemma LookupFindsEveryExercise(i: nat)
    requires i < |All()|
    ensures Lookup(All()[i].id) == Json(All()[i])
  {
    CatalogIdsDistinct();
    DistinctIdsFindItself(All(), i);
    ScanCoversAll(Groups, All()[i].id);
  }

  /** The listing ranges are the first four prompt bands; the prompt's 41-60
      band has no exercises. */
  lemma ListingFollowsPromptBands(age: int)
    ensures ForAge(Some(age)) == YoungChildren <==> Prompt.SelectBand(age) == Domain.Children
    ensures ForAge(Some(age)) == Teens <==> Prompt.SelectBand(age) == Domain.Teenagers
    ensures ForAge(Some(age)) == YoungAdults <==> Prompt.SelectBand(age) == Domain.YoungAdults
    ensures ForAge(Some(age)) == Adults <==> Prompt.SelectBand(age) == Domain.Adults
    ensures ForAge(Some(age)) == [] <==> Prompt.SelectBand(age) in {Domain.Seniors, Domain.Fallback}
  {
    assert YoungChildren[0].id[0] == 'c' && Teens[0].id[0] == 'd';
    assert YoungAdults[0].id[0] == 'j' && Adults[0].id[0] == 'b';
  }
}
