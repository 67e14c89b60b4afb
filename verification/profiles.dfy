/** The profiles route: an in-memory map of learner profiles, created from a
    JSON body after validation, read, partially overwritten and listed in
    insertion order. */
module Profiles {
  import opened Wrappers
  import opened Http
  import Text

  /** A JSON value as the route receives and stores it. Numbers are integers;
      a `Date` is kept as its milliseconds since the epoch. */
  datatype Value =
    | Str(s: string)
    | Num(n: int)
    | Bool(b: bool)
    | Null
    | Arr(items: seq<Value>)
    | Obj(fields: map<string, Value>)
    | Date(ms: int)

  /** A request body or a stored profile's ordinary fields. */
  type Fields = map<string, Value>

  /** A stored profile: the two fields an update never changes, then the rest. */
  datatype Stored = Stored(id: string, createdAt: int, fields: Fields)

  /** The route's `profiles` map, with its keys in insertion order. */
  datatype Table = Table(order: seq<string>, byId: map<string, Stored>)

  ghost predicate Valid(t: Table) {
    && (forall i, j :: 0 <= i < j < |t.order| ==> t.order[i] != t.order[j])
    && (forall k :: k in t.byId <==> k in t.order)
    && (forall k :: k in t.byId ==> t.byId[k].id == k && "id" !in t.byId[k].fields && "createdAt" !in t.byId[k].fields)
  }

  const Empty := Table([], map[])

  /** JavaScript truthiness; a missing key reads as `undefined`, which is falsy. */
  predicate Truthy(v: Option<Value>) {
    match v
    case None => false
    case Some(Str(s)) => s != ""
    case Some(Num(n)) => n != 0
    case Some(Bool(b)) => b
    case Some(Null) => false
    case Some(_) => true
  }

  predicate AllDigits(s: string) {
    forall i :: 0 <= i < |s| ==> '0' <= s[i] <= '9'
  }

  function DigitsValue(s: string): (n: nat)
    requires AllDigits(s)
  {
    if s == [] then 0 else 10 * DigitsValue(s[..|s| - 1]) + (s[|s| - 1] as int - '0' as int)
  }

  /** A numeral without its optional leading sign. */
  function Unsigned(t: string): (d: string)
    ensures |d| <= |t|
  {
    if t != [] && (t[0] == '-' || t[0] == '+') then t[1..] else t
  }

  /** An optionally signed, non-empty run of decimal digits. */
  predicate Numeral(t: string) {
    Unsigned(t) != [] && AllDigits(Unsigned(t))
  }

  /** `Number(s)` for a string: blank is 0, an optionally signed run of
      decimal digits is its value, anything else is `NaN` (`None`). */
  function StringToNumber(s: string): (r: Option<int>)
    ensures Text.Trim(s) == [] ==> r == Some(0)
    ensures r.Some? <==> Text.Trim(s) == [] || Numeral(Text.Trim(s))
    ensures var t := Text.Trim(s);
      Numeral(t) ==> r == Some((if t[0] == '-' then -1 else 1) * DigitsValue(Unsigned(t)))
  {
    var t := Text.Trim(s);
    if t == [] then Some(0)
    else
      var sign := if t[0] == '-' then -1 else 1;
      var digits := if t[0] == '-' || t[0] == '+' then t[1..] else t;
      if digits != [] && AllDigits(digits) then Some(sign * DigitsValue(digits))
      else None
  }

  /** The decimal digits of `n`, most significant first, without leading zeros. */
  function DecimalDigits(n: nat): (s: string)
    ensures s != [] && AllDigits(s)
    decreases n
  {
    (if n < 10 then [] else DecimalDigits(n / 10)) + [('0' as int + n % 10) as char]
  }

  lemma {:induction false} DecimalDigitsValue(n: nat)
    ensures DigitsValue(DecimalDigits(n)) == n
    decreases n
  {
    var s := DecimalDigits(n);
    var front := if n < 10 then [] else DecimalDigits(n / 10);
    assert s[..|s| - 1] == front;
    if n >= 10 {
      DecimalDigitsValue(n / 10);
    }
  }

  /** `String(n)` for an integer: a minus sign for negatives, then the digits. */
  function Decimal(n: int): (s: string)
    ensures s != [] && Numeral(s)
  {
    var d := DecimalDigits(if n < 0 then -n else n);
    if n < 0 then "-" + d else d
  }

  /** Every integer, written in decimal, reads back as itself. */
  lemma NumberRoundTrip(n: int)
    ensures StringToNumber(Decimal(n)) == Some(n)
  {
    var s := Decimal(n);
    var m: nat := if n < 0 then -n else n;
    var d := DecimalDigits(m);
    DecimalDigitsValue(m);
    assert !Text.IsSpace(s[0]) && !Text.IsSpace(s[|s| - 1]) by {
      assert s[|s| - 1] == d[|d| - 1];
    }
    Text.TrimKeepsInnerText(s);
    if n < 0 {
      assert s[0] == '-' && s[1..] == d;
    } else {
      assert s[0] != '-' && s[0] != '+' && s == d;
    }
  }

  /** The number a relational comparison sees (`None` is `NaN`). */
  function ToNumber(v: Value): Option<int> {
    match v
    case Num(n) => Some(n)
    case Str(s) => StringToNumber(s)
    case Bool(b) => Some(if b then 1 else 0)
    case Null => Some(0)
    case Date(ms) => Some(ms)
    case Arr(items) =>
      if items == [] then Some(0)
      else if |items| == 1 && items[0].Num? then Some(items[0].n)
      else if |items| == 1 && items[0].Str? then StringToNumber(items[0].s)
      else None
    case Obj(_) => None
  }

  /** `age < 5 || age > 40`; both comparisons are false for `NaN`. */
  predicate OutOfRange(age: Value) {
    var n := ToNumber(age);
    n.Some? && (n.value < 5 || n.value > 40)
  }

  function Lookup(f: Fields, key: string): Option<Value> {
    if key in f then Some(f[key]) else None
  }

  /** The progress record every new profile starts with. */
  const InitialProgress := Obj(map[
    "level" := Str("beginner"),
    "completedExercises" := Arr([]),
    "totalPracticeTime" := Num(0),
    "achievements" := Arr([])])

  const Required := "Name and age are required"
  const AgeRange := "Age must be between 5 and 40"
  const Missing := "Profile not found"

  /** Set `id` to `p` as `Map.prototype.set` does: a new key goes last, an
      existing key keeps its place. */
  function Put(t: Table, id: string, p: Stored): (r: Table)
    ensures r.byId == t.byId[id := p]
    ensures id in t.order ==> r.order == t.order
    ensures id !in t.order ==> r.order == t.order + [id]
    ensures Valid(t) && p.id == id && "id" !in p.fields && "createdAt" !in p.fields ==> Valid(r)
  {
    Table(if id in t.order then t.order else t.order + [id], t.byId[id := p])
  }

  /** POST `/create`: a falsy name or age is refused first, then an age out of
      5..40; otherwise the profile is stored under `id` with a fresh
      progress record and returned. */
  function Create(t: Table, body: Fields, id: string, now: int): (r: (Table, Response<Stored>))
    ensures !Truthy(Lookup(body, "name")) || !Truthy(Lookup(body, "age")) ==>
      r == (t, Status(BadRequest, Required))
    ensures Truthy(Lookup(body, "name")) && Truthy(Lookup(body, "age")) && OutOfRange(body["age"]) ==>
      r == (t, Status(BadRequest, AgeRange))
    ensures r.1.Json? ==>
      && r.1.body == Stored(id, now, map["name" := body["name"], "age" := body["age"], "progress" := InitialProgress])
      && r.0.byId == t.byId[id := r.1.body]
    ensures r.1.Json? <==> Truthy(Lookup(body, "name")) && Truthy(Lookup(body, "age")) && !OutOfRange(body["age"])
    ensures Valid(t) ==> Valid(r.0)
  {
    var name, age := Lookup(body, "name"), Lookup(body, "age");
    if !Truthy(name) || !Truthy(age) then (t, Status(BadRequest, Required))
    else if OutOfRange(age.value) then (t, Status(BadRequest, AgeRange))
    else
      var p := Stored(id, now, map["name" := name.value, "age" := age.value, "progress" := InitialProgress]);
      (Put(t, id, p), Json(p))
  }

  /** GET `/:id`. */
  function Get(t: Table, id: string): (r: Response<Stored>)
    ensures id in t.byId ==> r == Json(t.byId[id])
    ensures id !in t.byId ==> r == Status(NotFound, Missing)
  {
    if id in t.byId then Json(t.byId[id]) else Status(NotFound, Missing)
  }

  /** `{...profile, ...body, id: profile.id, createdAt: profile.createdAt}`:
      the body's fields win over the stored ones, except the two that never
      change. */
  function Overlay(p: Stored, body: Fields): (r: Stored)
    ensures r.id == p.id && r.createdAt == p.createdAt
    ensures forall k :: k in body && k != "id" && k != "createdAt" ==> k in r.fields && r.fields[k] == body[k]
    ensures forall k :: k in p.fields && k !in body && k != "id" && k != "createdAt" ==> k in r.fields && r.fields[k] == p.fields[k]
    ensures forall k :: k in r.fields ==> k in p.fields || k in body
    ensures "id" !in r.fields && "createdAt" !in r.fields
  {
    Stored(p.id, p.createdAt, (p.fields + body) - {"id", "createdAt"})
  }

  /** PUT `/:id`: an unknown id is 404 and changes nothing; otherwise the
      overlay replaces the stored profile in place and is returned. */
  function Update(t: Table, id: string, body: Fields): (r: (Table, Response<Stored>))
    ensures id !in t.byId ==> r == (t, Status(NotFound, Missing))
    ensures id in t.byId ==> r.1 == Json(Overlay(t.byId[id], body)) && r.0.byId == t.byId[id := r.1.body]
    ensures Valid(t) ==> Valid(r.0) && r.0.order == t.order
  {
    if id !in t.byId then (t, Status(NotFound, Missing))
    else
      var p := Overlay(t.byId[id], body);
      (Put(t, id, p), Json(p))
  }

  /** GET `/`: every stored profile, in insertion order. */
  function List(t: Table): (r: seq<Stored>)
    requires forall k :: k in t.order ==> k in t.byId
    ensures |r| == |t.order|
    ensures forall i :: 0 <= i < |r| ==> r[i] == t.byId[t.order[i]]
  {
    seq(|t.order|, i requires 0 <= i < |t.order| => t.byId[t.order[i]])
  }

  // ---------------------------------------------------------------------------
  // Properties

  /** A created profile is read back as it was returned, and listed last. */
  lemma CreateThenGet(t: Table, body: Fields, id: string, now: int)
    requires Valid(t) && id !in t.byId
    requires (Create(t, body, id, now)).1.Json?
    ensures Get(Create(t, body, id, now).0, id) == Create(t, body, id, now).1
    ensures var l := List(Create(t, body, id, now).0); |l| == |t.order| + 1 && l[|l| - 1] == Create(t, body, id, now).1.body
  {
  }

  /** The listing holds every stored profile exactly once. */
  lemma ListIsExactlyTheStore(t: Table)
    requires Valid(t)
    ensures forall k :: k in t.byId ==> t.byId[k] in List(t)
    ensures forall p :: p in List(t) ==> p.id in t.byId && t.byId[p.id] == p
  {
    var l := List(t);
    forall k | k in t.byId
      ensures t.byId[k] in l
    {
      var i :| 0 <= i < |t.order| && t.order[i] == k;
      assert l[i] == t.byId[k];
    }
  }

  /** An update never changes a profile's id or creation time, and a second
      update with the same body changes nothing more. */
  lemma UpdateIsIdempotent(t: Table, id: string, body: Fields)
    requires Valid(t) && id in t.byId
    ensures var t1 := Update(t, id, body).0;
      Update(t1, id, body).0 == t1
  {
    var o := Overlay(t.byId[id], body);
    OverlayTwice(t.byId[id], body);
    assert t.byId[id := o][id := o] == t.byId[id := o];
  }

  /** Overlaying the same body twice is overlaying it once. */
  lemma OverlayTwice(p: Stored, body: Fields)
    ensures Overlay(Overlay(p, body), body) == Overlay(p, body)
  {
    var o := Overlay(p, body);
    var f2 := (o.fields + body) - {"id", "createdAt"};
    assert f2.Keys == o.fields.Keys;
    assert forall k :: k in f2 ==> f2[k] == o.fields[k];
  }

  /** A word that starts with something other than a sign or a digit, such
      as "adult", does not read as a number. */
  lemma WordIsNaN(s: string)
    requires s != [] && !Text.IsSpace(s[0]) && !Text.IsSpace(s[|s| - 1])
    requires s[0] != '-' && s[0] != '+' && !('0' <= s[0] <= '9')
    ensures StringToNumber(s) == None
  {
    Text.TrimKeepsInnerText(s);
    assert !AllDigits(s);
  }

  /** A truthy age that does not read as a number passes the range check, so
      with a truthy name the profile is created: the route would store the
      word "adult" as an age. */
  lemma NonNumericAgeAccepted(t: Table, body: Fields, id: string, now: int)
    requires Truthy(Lookup(body, "name"))
    requires "age" in body && body["age"].Str? && body["age"].s != "" && StringToNumber(body["age"].s).None?
    ensures Create(t, body, id, now).1.Json?
  {
  }
}
