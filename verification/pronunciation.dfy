/** The pronunciation heuristic of `commonErrors.js`: a table of mistakes
    Spanish speakers typically make, searched first-match, and otherwise an
    edit-distance similarity test against the expected phrase. */
module Pronunciation {
  import opened Wrappers
  import opened Text

  // ---------------------------------------------------------------------------
  // Edit distance

  function Min3(a: int, b: int, c: int): (m: int)
    ensures m <= a && m <= b && m <= c
    ensures m == a || m == b || m == c
  {
    if a <= b && a <= c then a else if b <= c then b else c
  }

  /** The unit-cost edit distance between two sequences of UTF-16 code units,
      by the recurrence on their last units: equal last units cost nothing,
      otherwise one substitution, insertion or deletion is paid. */
  function Lev(a: seq<int>, b: seq<int>): nat
    decreases |a| + |b|
  {
    if |a| == 0 then |b|
    else if |b| == 0 then |a|
    else if a[|a| - 1] == b[|b| - 1] then Lev(a[..|a| - 1], b[..|b| - 1])
    else 1 + Min3(Lev(a[..|a| - 1], b[..|b| - 1]), Lev(a, b[..|b| - 1]), Lev(a[..|a| - 1], b))
  }

  /** One cell of the recurrence, stated on prefixes of two fixed sequences. */
  lemma LevCell(a: seq<int>, b: seq<int>, i: nat, j: nat)
    requires 1 <= i <= |a| && 1 <= j <= |b|
    ensures Lev(a[..i], b[..j]) ==
      if a[i - 1] == b[j - 1] then Lev(a[..i - 1], b[..j - 1])
      else 1 + Min3(Lev(a[..i - 1], b[..j - 1]), Lev(a[..i], b[..j - 1]), Lev(a[..i - 1], b[..j]))
  {
    var x, y := a[..i], b[..j];
    assert x[..i - 1] == a[..i - 1] && y[..j - 1] == b[..j - 1];
    assert x[i - 1] == a[i - 1] && y[j - 1] == b[j - 1];
  }

  /** `levenshteinDistance(str1, str2)`: the dynamic programme over a matrix
      whose row `i` holds the distances from the first `i` code units of
      `str2` to every prefix of `str1`. `charAt` indexes code units, so the
      strings are read as such. */
  method LevenshteinDistance(s1: string, s2: string) returns (d: nat)
    ensures d == Lev(Utf16(s2), Utf16(s1))
  {
    d := MatrixDistance(Utf16(s1), Utf16(s2));
  }

  /** The matrix filled row by row, only the last row kept. */
  method MatrixDistance(str1: seq<int>, str2: seq<int>) returns (d: nat)
    ensures d == Lev(str2, str1)
  {
    var prev := seq(|str1| + 1, j => j);
    var i := 1;
    while i <= |str2|
      invariant 1 <= i <= |str2| + 1
      invariant |prev| == |str1| + 1
      invariant forall j :: 0 <= j <= |str1| ==> prev[j] == Lev(str2[..i - 1], str1[..j])
    {
      prev := MatrixRow(str1, str2, i, prev);
      i := i + 1;
    }
    assert str2[..|str2|] == str2 && str1[..|str1|] == str1;
    d := prev[|str1|];
  }

  /** Row `i` of the matrix, from row `i - 1`: a cell copies the diagonal for
      equal code units, and is otherwise one more than the least of the
      diagonal, the cell to its left and the cell above. */
  method MatrixRow(str1: seq<int>, str2: seq<int>, i: nat, prev: seq<nat>) returns (row: seq<nat>)
    requires 1 <= i <= |str2| && |prev| == |str1| + 1
    requires forall j :: 0 <= j <= |str1| ==> prev[j] == Lev(str2[..i - 1], str1[..j])
    ensures |row| == |str1| + 1
    ensures forall j :: 0 <= j <= |str1| ==> row[j] == Lev(str2[..i], str1[..j])
  {
    row := [i];
    var j := 1;
    while j <= |str1|
      invariant 1 <= j <= |str1| + 1
      invariant |row| == j
      invariant forall k :: 0 <= k < j ==> row[k] == Lev(str2[..i], str1[..k])
    {
      LevCell(str2, str1, i, j);
      var cell;
      if str2[i - 1] == str1[j - 1] {
        cell := prev[j - 1];
      } else {
        cell := Min3(prev[j - 1] + 1, row[j - 1] + 1, prev[j] + 1);
      }
      row := row + [cell];
      j := j + 1;
    }
  }

  /** The distance from the empty string is the other string's length. */
  lemma DistanceFromEmpty(s: seq<int>)
    ensures Lev(s, []) == |s| && Lev([], s) == |s|
  {
  }

  /** A string is at distance 0 from itself. */
  lemma {:induction false} DistanceToSelf(s: seq<int>)
    ensures Lev(s, s) == 0
    decreases |s|
  {
    if |s| > 0 {
      DistanceToSelf(s[..|s| - 1]);
    }
  }

  /** The distance never exceeds the longer length. */
  lemma {:induction false} DistanceAtMostLonger(a: seq<int>, b: seq<int>)
    ensures Lev(a, b) <= if |a| >= |b| then |a| else |b|
    decreases |a| + |b|
  {
    if |a| > 0 && |b| > 0 {
      DistanceAtMostLonger(a[..|a| - 1], b[..|b| - 1]);
    }
  }

  // ---------------------------------------------------------------------------
  // Similarity

  /** A similarity ratio `num / den`. */
  datatype Score = Score(num: nat, den: nat)

  /** `similarityScore`: 1 when both strings are empty, otherwise
      `(L - d) / L` with `L` the longer length and `d` the distance from the
      shorter string to the longer; on equal lengths the second string counts
      as the longer. Lengths and distance are in UTF-16 code units. */
  function Similarity(s1: string, s2: string): (r: Score)
    ensures r.den > 0 && r.num <= r.den
    ensures s1 == s2 ==> r.num == r.den
    ensures |Utf16(s1)| + |Utf16(s2)| == 0 ==> r == Score(1, 1)
    ensures var u1, u2 := Utf16(s1), Utf16(s2);
      |u1| + |u2| > 0 ==>
        && r.den == (if |u1| > |u2| then |u1| else |u2|)
        && r.num == r.den - (if |u1| > |u2| then Lev(u2, u1) else Lev(u1, u2))
  {
    var u1, u2 := Utf16(s1), Utf16(s2);
    var longer := if |u1| > |u2| then u1 else u2;
    var shorter := if |u1| > |u2| then u2 else u1;
    if |longer| == 0 then Score(1, 1)
    else
      DistanceAtMostLonger(shorter, longer);
      DistanceToSelf(u1);
      Score(|longer| - Lev(shorter, longer), |longer|)
  }

  /** Sequences that differ only in their last unit are one substitution apart. */
  lemma OneSubstitution(p: seq<int>, x: int, y: int)
    requires x != y
    ensures Lev(p + [x], p + [y]) == 1
  {
    var a, b := p + [x], p + [y];
    assert a[..|a| - 1] == p && b[..|b| - 1] == p;
    DistanceToSelf(p);
  }

  /** The code units of "ab" followed by one more character. */
  lemma AbThen(c: char)
    ensures Utf16("ab" + [c]) == [0x61, 0x62] + Units(c)
  {
    Utf16Concat("ab", [c]);
    assert Utf16("ab") == [0x61, 0x62];
    assert Utf16([c]) == Units(c);
  }

  /** "ab😀" and "ab😁" share their first three code units, the last being
      the emoji's common high surrogate, and differ in the fourth. */
  lemma EmojiUnits()
    ensures Utf16("ab\U{1F600}") == [0x61, 0x62, 0xD83D] + [0xDE00]
    ensures Utf16("ab\U{1F601}") == [0x61, 0x62, 0xD83D] + [0xDE01]
  {
    AbThen('\U{1F600}');
    AbThen('\U{1F601}');
    assert "ab" + ['\U{1F600}'] == "ab\U{1F600}" && "ab" + ['\U{1F601}'] == "ab\U{1F601}";
    assert Units('\U{1F600}') == [0xD83D, 0xDE00] && Units('\U{1F601}') == [0xD83D, 0xDE01];
  }

  /** Two emoji differ in their low surrogate only, so "ab😀" and "ab😁" are
      three quarters similar and do not fall below the threshold. */
  lemma SurrogatesCountAsUnits()
    ensures Similarity("ab\U{1F600}", "ab\U{1F601}") == Score(3, 4)
    ensures !BelowThreshold(Similarity("ab\U{1F600}", "ab\U{1F601}"))
  {
    EmojiUnits();
    OneSubstitution([0x61, 0x62, 0xD83D], 0xDE00, 0xDE01);
  }

  /** `score < 0.7`, compared exactly: `10 * num < 7 * den`. */
  predicate BelowThreshold(s: Score) {
    10 * s.num < 7 * s.den
  }

  // ---------------------------------------------------------------------------
  // Detection

  /** One row of the pronunciation table: the target word, the ways it is
      typically mispronounced, and the advice to give. */
  datatype Mistake = Mistake(error: string, commonMistakes: seq<string>, correction: string, explanation: string)

  const Table: seq<Mistake> := [
    Mistake("je suis", ["ye suis", "che suis", "je souis"], "zhuh swee",
      "La \"j\" francesa se pronuncia como \"zh\", no como \"y\" española"),
    Mistake("bonjour", ["bonyor", "bonchour", "bonjur"], "bon-ZHOOR",
      "La \"j\" es suave como \"zh\" y la \"ou\" suena como \"u\" española"),
    Mistake("comment", ["coment", "comman"], "co-MAHN",
      "La \"en\" es nasal, no se pronuncia la \"n\" final"),
    Mistake("français", ["frances", "fransais"], "frahn-SEH",
      "La \"an\" es nasal y la \"ç\" suena como \"s\""),
    Mistake("très", ["tres", "trés"], "TREH",
      "La \"è\" es abierta y no se pronuncia la \"s\" final"),
    Mistake("beaucoup", ["bocú", "beaucup", "bocup"], "bo-COO",
      "La \"eau\" suena como \"o\" y la \"ou\" como \"u\" española")]

  const GeneralError := "pronunciación general"
  const GeneralExplanation := "La pronunciación necesita mejorar"

  datatype Detection = NotDetected | Detected(error: string, correction: string, explanation: string)

  /** The transcription contains one of the row's typical mistakes. */
  predicate ShowsMistake(normalized: string, m: Mistake) {
    exists j :: 0 <= j < |m.commonMistakes| && Contains(normalized, m.commonMistakes[j])
  }

  /** The first row of `table`, from `from` on, whose mistakes the
      transcription shows. */
  function FirstMistake(table: seq<Mistake>, normalized: string, from: nat): (r: Option<nat>)
    ensures r.Some? ==> from <= r.value < |table| && ShowsMistake(normalized, table[r.value])
    ensures r.Some? ==> forall i :: from <= i < r.value ==> !ShowsMistake(normalized, table[i])
    ensures r.None? ==> forall i :: from <= i < |table| ==> !ShowsMistake(normalized, table[i])
    decreases |table| - from
  {
    if from >= |table| then None
    else if ShowsMistake(normalized, table[from]) then Some(from)
    else FirstMistake(table, normalized, from + 1)
  }

  /** `toLowerCase().trim()`. */
  function Normalize(s: string): string {
    Trim(Lower(s))
  }

  /** The detection rule over an arbitrary table: the first row whose mistake
      appears in the transcription; failing that, a general error when the
      normalized texts differ and are less than 70% similar. */
  function DetectWith(table: seq<Mistake>, transcribed: string, expected: string): (r: Detection)
    ensures r.Detected? && r.error != GeneralError ==>
      exists i :: 0 <= i < |table| && ShowsMistake(Normalize(transcribed), table[i])
    ensures Normalize(transcribed) == Normalize(expected) ==>
      (r.NotDetected? <==> forall i :: 0 <= i < |table| ==> !ShowsMistake(Normalize(transcribed), table[i]))
  {
    var normalized := Normalize(transcribed);
    var target := Normalize(expected);
    match FirstMistake(table, normalized, 0)
    case Some(i) => Detected(table[i].error, table[i].correction, table[i].explanation)
    case None =>
      if normalized != target && BelowThreshold(Similarity(normalized, target)) then
        Detected(GeneralError, target, GeneralExplanation)
      else NotDetected
  }

  /** `detectPronunciationError`, over the module's table. */
  function Detect(transcribed: string, expected: string): (r: Detection)
    ensures r.Detected? && r.error != GeneralError ==>
      exists i :: 0 <= i < |Table| && ShowsMistake(Normalize(transcribed), Table[i])
    ensures Normalize(transcribed) == Normalize(expected) ==>
      (r.NotDetected? <==> forall i :: 0 <= i < |Table| ==> !ShowsMistake(Normalize(transcribed), Table[i]))
  {
    DetectWith(Table, transcribed, expected)
  }

  /** When the transcription shows a tabled mistake, the first such row in
      table order is reported, with its correction and explanation. */
  lemma FirstTabledMistakeWins(table: seq<Mistake>, transcribed: string, expected: string, i: nat)
    requires i < |table| && ShowsMistake(Normalize(transcribed), table[i])
    requires forall k :: 0 <= k < i ==> !ShowsMistake(Normalize(transcribed), table[k])
    ensures DetectWith(table, transcribed, expected) == Detected(table[i].error, table[i].correction, table[i].explanation)
  {
    var n := FirstMistake(table, Normalize(transcribed), 0);
    assert n == Some(i);
  }

  /** Without a tabled mistake, the general error is reported exactly when the
      normalized texts are less than 70% similar, and then it suggests the
      normalized expected text. The explicit inequality test is redundant:
      equal texts are fully similar. */
  lemma GeneralErrorIffDissimilar(table: seq<Mistake>, transcribed: string, expected: string)
    requires forall i :: 0 <= i < |table| ==> !ShowsMistake(Normalize(transcribed), table[i])
    ensures DetectWith(table, transcribed, expected) ==
      if BelowThreshold(Similarity(Normalize(transcribed), Normalize(expected)))
      then Detected(GeneralError, Normalize(expected), GeneralExplanation)
      else NotDetected
  {
    assert FirstMistake(table, Normalize(transcribed), 0).None?;
  }
}
