/** Correction extraction (`extractCorrections`): the tutor is told to
    phrase corrections with fixed lead-ins, and every case-insensitive
    occurrence of a lead-in followed by text on the same line becomes one
    correction holding that text, trimmed. The three patterns
    `/<lead-in>(.+)/gi` are modelled as a case-insensitive literal search
    whose capture runs to the end of the line. */
module Corrections {
  import opened Wrappers
  import opened Text
  import opened Domain

  /** The lead-ins, in the order their matches are reported. */
  const Templates: seq<string> := [
    "Attention! On dit plutôt: ",
    "La forme correcte est: ",
    "Il faut dire: "]

  /** Character `j` of the lead-in agrees, ignoring case, with the text at `k + j`. */
  predicate SameLetterAt(text: string, lead: string, k: nat, j: nat)
    requires j < |lead| && k + j < |text|
  {
    LowerChar(text[k + j]) == LowerChar(lead[j])
  }

  /** The pattern `lead + (.+)` matches at `k`: the lead-in occurs there,
      ignoring case, and is followed by at least one character of the same line. */
  predicate MatchAt(text: string, lead: string, k: int) {
    && 0 <= k
    && k + |lead| < |text|
    && (forall j :: 0 <= j < |lead| ==> SameLetterAt(text, lead, k, j))
    && !IsLineTerminator(text[k + |lead|])
  }

  /** The end of the line that contains index `i`: the first line terminator at
      or after `i`, or the end of the text. */
  function LineEnd(text: string, i: nat): (e: nat)
    requires i <= |text|
    ensures i <= e <= |text|
    ensures e == |text| || IsLineTerminator(text[e])
    decreases |text| - i
  {
    if i == |text| || IsLineTerminator(text[i]) then i else LineEnd(text, i + 1)
  }

  /** No line terminator comes before the line end: it is the first one. */
  lemma {:induction false} LineEndIsFirstTerminator(text: string, i: nat)
    requires i <= |text|
    ensures forall j {:trigger IsLineTerminator(text[j])} :: i <= j < LineEnd(text, i) ==> !IsLineTerminator(text[j])
    decreases |text| - i
  {
    if i < |text| && !IsLineTerminator(text[i]) {
      LineEndIsFirstTerminator(text, i + 1);
    }
  }

  /** Where the next match starts, searching from `from`: the leftmost match. */
  function NextMatch(text: string, lead: string, from: nat): (r: Option<nat>)
    ensures r.Some? ==> from <= r.value && MatchAt(text, lead, r.value)
    ensures r.Some? ==> forall k :: from <= k < r.value ==> !MatchAt(text, lead, k)
    ensures r.None? ==> forall k :: from <= k ==> !MatchAt(text, lead, k)
    decreases |text| - from
  {
    if from + |lead| >= |text| then None
    else if MatchAt(text, lead, from) then Some(from)
    else NextMatch(text, lead, from + 1)
  }

  /** Where the matches of `matchAll` start, from `from` on: the leftmost
      match, then the matches after its capture, since a capture runs to the
      end of its line and the search resumes there. */
  function Matches(text: string, lead: string, from: nat): (ps: seq<nat>)
    requires from <= |text|
    ensures forall i :: 0 <= i < |ps| ==> from <= ps[i] && MatchAt(text, lead, ps[i])
    ensures ps == [] <==> forall k :: from <= k ==> !MatchAt(text, lead, k)
    decreases |text| - from
  {
    var n := NextMatch(text, lead, from);
    if n.None? then []
    else [n.value] + Matches(text, lead, LineEnd(text, n.value + |lead|))
  }

  /** `Matches` taken one step, as a fact the solver can use directly. */
  lemma MatchesUnfold(text: string, lead: string, from: nat)
    requires from <= |text|
    ensures Matches(text, lead, from) ==
      var n := NextMatch(text, lead, from);
      if n.None? then [] else [n.value] + Matches(text, lead, LineEnd(text, n.value + |lead|))
  {
  }

  /** There are no more matches than positions left to search. */
  lemma {:induction false} MatchesBounded(text: string, lead: string, from: nat)
    requires from <= |text|
    ensures |Matches(text, lead, from)| <= |text| - from
    decreases |text| - from
  {
    if NextMatch(text, lead, from).Some? {
      var k := NextMatch(text, lead, from).value;
      MatchesShift(text, lead, from);
      MatchesBounded(text, lead, LineEnd(text, k + |lead|));
    }
  }

  /** The group `(.+)` of a match at `p`: the rest of its line after the lead-in. */
  function CaptureAt(text: string, lead: string, p: nat): (c: string)
    requires MatchAt(text, lead, p)
    ensures c != []
    ensures forall j {:trigger IsLineTerminator(c[j])} :: 0 <= j < |c| ==> !IsLineTerminator(c[j])
  {
    var start := p + |lead|;
    LineEndIsFirstTerminator(text, start);
    var c := text[start..LineEnd(text, start)];
    assert forall j :: 0 <= j < |c| ==> c[j] == text[start + j];
    c
  }

  /** The captured groups of `matchAll` from `from` on, in text order. */
  function Captures(text: string, lead: string, from: nat): (r: seq<string>)
    requires from <= |text|
    ensures r == [] <==> forall k :: from <= k ==> !MatchAt(text, lead, k)
    ensures |r| <= |text| - from
  {
    var ps := Matches(text, lead, from);
    MatchesBounded(text, lead, from);
    seq(|ps|, i requires 0 <= i < |ps| => CaptureAt(text, lead, ps[i]))
  }

  /** A lead-in that lies within one line. */
  predicate LineFree(lead: string) {
    '\n' !in lead && '\r' !in lead && '\U{2028}' !in lead && '\U{2029}' !in lead
  }

  lemma LineFreeAt(lead: string, j: nat)
    requires LineFree(lead) && j < |lead|
    ensures !IsLineTerminator(lead[j])
  {
    assert lead[j] in lead;
  }

  /** No lead-in contains a line terminator. */
  lemma TemplatesLineFree()
    ensures LineFree(Templates[0]) && LineFree(Templates[1]) && LineFree(Templates[2])
  {
    FirstTemplateLineFree();
    SecondTemplateLineFree();
    ThirdTemplateLineFree();
  }

  /** Every character is printable and within Latin-1. */
  predicate PrintableLatin1(s: string) {
    forall j :: 0 <= j < |s| ==> 0x20 <= s[j] as int < 0x100
  }

  /** Printable Latin-1 text holds no line terminator. */
  lemma PrintableLineFree(s: string)
    requires PrintableLatin1(s)
    ensures LineFree(s)
  {
  }

  lemma FirstTemplateLineFree()
    ensures LineFree(Templates[0])
  {
    assert PrintableLatin1(Templates[0]);
    PrintableLineFree(Templates[0]);
  }

  lemma SecondTemplateLineFree()
    ensures LineFree(Templates[1])
  {
    assert PrintableLatin1(Templates[1]);
    PrintableLineFree(Templates[1]);
  }

  lemma ThirdTemplateLineFree()
    ensures LineFree(Templates[2])
  {
    assert PrintableLatin1(Templates[2]);
    PrintableLineFree(Templates[2]);
  }

  /** Lower-casing neither makes nor removes a line terminator. */
  lemma LowerKeepsLineTerminators(c: char)
    ensures IsLineTerminator(LowerChar(c)) <==> IsLineTerminator(c)
  {
  }

  /** A match of a single-line lead-in, with its capture, lies on one line. */
  lemma MatchOnOneLine(text: string, lead: string, p: nat)
    requires LineFree(lead) && MatchAt(text, lead, p)
    ensures forall j {:trigger IsLineTerminator(text[j])} :: p <= j < LineEnd(text, p + |lead|) ==> !IsLineTerminator(text[j])
  {
    forall j | p <= j < p + |lead|
      ensures !IsLineTerminator(text[j])
    {
      assert SameLetterAt(text, lead, p, j - p);
      LowerKeepsLineTerminators(text[j]);
      LowerKeepsLineTerminators(lead[j - p]);
      LineFreeAt(lead, j - p);
    }
    LineEndIsFirstTerminator(text, p + |lead|);
  }

  /** From anywhere on a stretch free of terminators, the line ends where the
      stretch does. */
  lemma {:induction false} LineEndAt(text: string, q: nat, e: nat)
    requires q <= e <= |text|
    requires e == |text| || IsLineTerminator(text[e])
    requires forall j {:trigger IsLineTerminator(text[j])} :: q <= j < e ==> !IsLineTerminator(text[j])
    ensures LineEnd(text, q) == e
    decreases e - q
  {
    if q < e {
      LineEndAt(text, q + 1, e);
    }
  }

  /** The line of `q` ends no later than the next terminator after it. */
  lemma {:induction false} LineEndBefore(text: string, q: nat, e: nat)
    requires q <= e <= |text|
    requires e == |text| || IsLineTerminator(text[e])
    ensures LineEnd(text, q) <= e
    decreases e - q
  {
    if q < e && !IsLineTerminator(text[q]) {
      LineEndBefore(text, q + 1, e);
    }
  }

  /** A single-line lead-in matches neither at a terminator nor at the end. */
  lemma NoMatchAtLineEnd(text: string, lead: string, e: nat)
    requires LineFree(lead) && e <= |text|
    requires e == |text| || IsLineTerminator(text[e])
    ensures !MatchAt(text, lead, e)
  {
    if 0 < |lead| && e + |lead| <= |text| {
      LowerKeepsLineTerminators(text[e]);
      LowerKeepsLineTerminators(lead[0]);
      LineFreeAt(lead, 0);
      assert !SameLetterAt(text, lead, e, 0);
    }
  }

  /** `ps` is `rest` with one more position in front. */
  predicate ConsOf(ps: seq<nat>, rest: seq<nat>) {
    |ps| == 1 + |rest| && forall j :: 0 < j < |ps| ==> ps[j] == rest[j - 1]
  }

  /** Every position of `rest` lies after `e` and inside the text. */
  predicate Beyond(text: string, rest: seq<nat>, e: nat) {
    forall j :: 0 <= j < |rest| ==> e < rest[j] < |text|
  }

  /** One step of `matchAll`: the first match is the leftmost one and the
      others are those found from the end of its line on. */
  lemma MatchesShift(text: string, lead: string, from: nat)
    requires from <= |text|
    requires NextMatch(text, lead, from).Some?
    ensures ConsOf(Matches(text, lead, from), Matches(text, lead, LineEnd(text, NextMatch(text, lead, from).value + |lead|)))
    ensures Matches(text, lead, from)[0] == NextMatch(text, lead, from).value
  {
    MatchesUnfold(text, lead, from);
  }

  /** For a single-line lead-in, the line of the first match ends where its
      capture does, and the later matches start after that line. The step of
      `MatchesShift` is restated for the callers' convenience. */
  lemma MatchesAfterLine(text: string, lead: string, from: nat)
    requires from <= |text| && LineFree(lead)
    requires NextMatch(text, lead, from).Some?
    ensures ConsOf(Matches(text, lead, from), Matches(text, lead, LineEnd(text, NextMatch(text, lead, from).value + |lead|)))
    ensures Matches(text, lead, from)[0] == NextMatch(text, lead, from).value
    ensures NextMatch(text, lead, from).value + |lead| < LineEnd(text, NextMatch(text, lead, from).value + |lead|)
    ensures LineEnd(text, NextMatch(text, lead, from).value) == LineEnd(text, NextMatch(text, lead, from).value + |lead|)
    ensures Beyond(text, Matches(text, lead, LineEnd(text, NextMatch(text, lead, from).value + |lead|)),
                   LineEnd(text, NextMatch(text, lead, from).value + |lead|))
  {
    var k := NextMatch(text, lead, from).value;
    var e := LineEnd(text, k + |lead|);
    MatchesShift(text, lead, from);
    MatchOnOneLine(text, lead, k);
    LineEndAt(text, k, e);
    NoMatchAtLineEnd(text, lead, e);
  }

  /** A search that reports something has found a next match. */
  lemma MatchesNonEmpty(text: string, lead: string, from: nat)
    requires from <= |text| && Matches(text, lead, from) != []
    ensures NextMatch(text, lead, from).Some?
  {
  }

  /** A position before a line end lies on an earlier line than any position
      after it. */
  lemma LineEndOrder(text: string, q: nat, e: nat, p: nat)
    requires q <= e < p <= |text|
    requires e == |text| || IsLineTerminator(text[e])
    ensures LineEnd(text, q) < LineEnd(text, p)
  {
    LineEndBefore(text, q, e);
  }

  /** `q` lies on the line of one of `ps`. */
  predicate OnSomeLine(text: string, ps: seq<nat>, q: nat) {
    q <= |text| && exists i :: 0 <= i < |ps| && ps[i] <= |text| && LineEnd(text, q) == LineEnd(text, ps[i])
  }

  /** `q` lies before `ps[i]` on the same line. */
  predicate OnLineBefore(text: string, ps: seq<nat>, i: nat, q: nat) {
    i < |ps| && q < ps[i] <= |text| && LineEnd(text, q) == LineEnd(text, ps[i])
  }

  /** A position before a later reported match, on its line, lies past the
      first match's line, and so before the same match among those found there. */
  lemma MatchesLeftmostStep(text: string, lead: string, from: nat, i: nat, q: nat)
    requires from <= |text| && LineFree(lead) && 0 < i && from <= q
    requires OnLineBefore(text, Matches(text, lead, from), i, q)
    ensures NextMatch(text, lead, from).Some?
    ensures LineEnd(text, NextMatch(text, lead, from).value + |lead|) <= q
    ensures OnLineBefore(text, Matches(text, lead, LineEnd(text, NextMatch(text, lead, from).value + |lead|)), i - 1, q)
  {
    MatchesNonEmpty(text, lead, from);
    var k := NextMatch(text, lead, from).value;
    var e := LineEnd(text, k + |lead|);
    MatchesAfterLine(text, lead, from);
    var ps, rest := Matches(text, lead, from), Matches(text, lead, e);
    LeftmostStepOnLines(text, ps, rest, e, i, q);
  }

  /** `MatchesLeftmostStep` on plain positions: `ps` is `rest` with one more
      position in front whose line ends at `e`, and `rest` lies past `e`. */
  lemma LeftmostStepOnLines(text: string, ps: seq<nat>, rest: seq<nat>, e: nat, i: nat, q: nat)
    requires e <= |text| && (e == |text| || IsLineTerminator(text[e]))
    requires ConsOf(ps, rest) && Beyond(text, rest, e)
    requires 0 < i && OnLineBefore(text, ps, i, q)
    ensures e <= q && OnLineBefore(text, rest, i - 1, q)
  {
    var p := rest[i - 1];
    assert ps[i] == p;
    if q < e {
      LineEndOrder(text, q, e, p);
    }
  }

  /** A reported match of a single-line lead-in is the leftmost on its line:
      no position before it, from the search start on, on the same line matches. */
  lemma {:induction false} MatchesLeftmostOnLine(text: string, lead: string, from: nat, i: nat, q: nat)
    requires from <= |text| && LineFree(lead) && from <= q
    requires OnLineBefore(text, Matches(text, lead, from), i, q)
    ensures !MatchAt(text, lead, q)
    decreases |text| - from
  {
    if i == 0 {
      MatchesNonEmpty(text, lead, from);
      MatchesShift(text, lead, from);
    } else {
      MatchesLeftmostStep(text, lead, from, i, q);
      var e := LineEnd(text, NextMatch(text, lead, from).value + |lead|);
      MatchesLeftmostOnLine(text, lead, e, i - 1, q);
    }
  }

  /** Every line holding a match of a single-line lead-in, from the search
      start on, holds a reported match. */
  lemma {:induction false} MatchesCoverLine(text: string, lead: string, from: nat, q: nat)
    requires from <= q < |text| && LineFree(lead) && MatchAt(text, lead, q)
    ensures OnSomeLine(text, Matches(text, lead, from), q)
    decreases |text| - from
  {
    assert NextMatch(text, lead, from).Some?;
    var k := NextMatch(text, lead, from).value;
    var e := LineEnd(text, k + |lead|);
    MatchesAfterLine(text, lead, from);
    var ps, rest := Matches(text, lead, from), Matches(text, lead, e);
    if q < e {
      SameLineAsMatch(text, lead, k, q);
      assert LineEnd(text, q) == LineEnd(text, ps[0]);
    } else {
      MatchesCoverLine(text, lead, e, q);
      CoverCons(text, ps, rest, q);
    }
  }

  /** A position between a match and the end of its line lies on its line. */
  lemma SameLineAsMatch(text: string, lead: string, k: nat, q: nat)
    requires LineFree(lead) && MatchAt(text, lead, k)
    requires k <= q < LineEnd(text, k + |lead|)
    ensures LineEnd(text, q) == LineEnd(text, k)
  {
    var e := LineEnd(text, k + |lead|);
    MatchOnOneLine(text, lead, k);
    LineEndAt(text, q, e);
    LineEndAt(text, k, e);
  }

  /** A line that one of `rest` lies on is also a line of `ps`, which is
      `rest` with one more position in front. */
  lemma CoverCons(text: string, ps: seq<nat>, rest: seq<nat>, q: nat)
    requires q <= |text| && ConsOf(ps, rest) && OnSomeLine(text, rest, q)
    ensures OnSomeLine(text, ps, q)
  {
    var i :| 0 <= i < |rest| && rest[i] <= |text| && LineEnd(text, q) == LineEnd(text, rest[i]);
    assert ps[i + 1] == rest[i];
  }

  /** Positions whose lines strictly increase stay so when one more position
      is put in front, on a line that ends before all of them. */
  lemma LinesIncreaseCons(text: string, ps: seq<nat>, rest: seq<nat>, e: nat)
    requires ConsOf(ps, rest) && ps[0] <= e <= |text| && LineEnd(text, ps[0]) == e
    requires Beyond(text, rest, e) && OnLaterLines(text, rest)
    ensures OnLaterLines(text, ps)
  {
    forall i, j | 0 <= i < j < |ps| && ps[j] <= |text| && ps[i] <= |text|
      ensures LineEnd(text, ps[i]) < LineEnd(text, ps[j])
    {
      assert ps[j] == rest[j - 1];
      if 0 < i {
        assert ps[i] == rest[i - 1];
      }
    }
  }

  /** The matches of a single-line lead-in lie on strictly later and later lines. */
  lemma {:induction false} MatchesLinesIncrease(text: string, lead: string, from: nat)
    requires from <= |text| && LineFree(lead)
    ensures OnLaterLines(text, Matches(text, lead, from))
    decreases |text| - from
  {
    var n := NextMatch(text, lead, from);
    if n.Some? {
      var k := n.value;
      var e := LineEnd(text, k + |lead|);
      MatchesAfterLine(text, lead, from);
      MatchesLinesIncrease(text, lead, e);
      LinesIncreaseCons(text, Matches(text, lead, from), Matches(text, lead, e), e);
    }
  }

  /** The corrections one pattern yields, in text order. */
  function ExtractWith(text: string, lead: string): (r: seq<Correction>)
    ensures |r| == |Matches(text, lead, 0)|
    ensures r == [] <==> forall k :: !MatchAt(text, lead, k)
  {
    var caps := Captures(text, lead, 0);
    seq(|caps|, i requires 0 <= i < |caps| => Correction(Trim(caps[i])))
  }

  /** Correction `i` holds the trimmed rest of the line after the lead-in
      matched at `ps[i]`. */
  predicate TrimmedRestsOfLines(text: string, lead: string, ps: seq<nat>, r: seq<Correction>) {
    && |r| == |ps|
    && forall i :: 0 <= i < |ps| ==> TrimmedRestAt(text, lead, ps, r, i)
  }

  /** Correction `r[i]` holds the trimmed rest of the line after the lead-in
      matched at `ps[i]`. */
  predicate TrimmedRestAt(text: string, lead: string, ps: seq<nat>, r: seq<Correction>, i: nat) {
    && i < |ps| && i < |r|
    && ps[i] + |lead| <= |text|
    && r[i] == Correction(Trim(text[ps[i] + |lead|..LineEnd(text, ps[i] + |lead|)]))
  }

  /** No position before `ps[i]` on its line is a match. */
  predicate LeftmostOnTheirLines(text: string, lead: string, ps: seq<nat>) {
    forall i, q :: 0 <= i < |ps| && 0 <= q < ps[i] <= |text| && LineEnd(text, q) == LineEnd(text, ps[i]) ==>
      !MatchAt(text, lead, q)
  }

  /** Every line holding a match holds one of `ps`. */
  predicate CoversMatchingLines(text: string, lead: string, ps: seq<nat>) {
    forall q :: 0 <= q < |text| && MatchAt(text, lead, q) ==> OnSomeLine(text, ps, q)
  }

  /** The positions lie on strictly later and later lines. */
  predicate OnLaterLines(text: string, ps: seq<nat>) {
    forall i, j :: 0 <= i < j < |ps| && ps[j] <= |text| && ps[i] <= |text| ==>
      LineEnd(text, ps[i]) < LineEnd(text, ps[j])
  }

  /** The corrections of one pattern are the trimmed rests of the lines of its
      matches, match by match. */
  lemma CorrectionsAreTrimmedRests(text: string, lead: string)
    ensures TrimmedRestsOfLines(text, lead, Matches(text, lead, 0), ExtractWith(text, lead))
  {
    var ps, r := Matches(text, lead, 0), ExtractWith(text, lead);
    forall i | 0 <= i < |ps|
      ensures TrimmedRestAt(text, lead, ps, r, i)
    {
      CorrectionIsTrimmedRest(text, lead, i);
    }
  }

  /** Correction `i` of one pattern is the trimmed capture of match `i`. */
  lemma CorrectionIsTrimmedRest(text: string, lead: string, i: nat)
    requires i < |Matches(text, lead, 0)|
    ensures TrimmedRestAt(text, lead, Matches(text, lead, 0), ExtractWith(text, lead), i)
  {
    var p, caps := Matches(text, lead, 0)[i], Captures(text, lead, 0);
    assert ExtractWith(text, lead)[i] == Correction(Trim(caps[i]));
    assert caps[i] == CaptureAt(text, lead, p);
  }

  /** Every match reported from the start is the leftmost of its line. */
  lemma AllLeftmostOnTheirLines(text: string, lead: string)
    requires LineFree(lead)
    ensures LeftmostOnTheirLines(text, lead, Matches(text, lead, 0))
  {
    var ps := Matches(text, lead, 0);
    forall i, q | 0 <= i < |ps| && 0 <= q < ps[i] <= |text| && LineEnd(text, q) == LineEnd(text, ps[i])
      ensures !MatchAt(text, lead, q)
    {
      MatchesLeftmostOnLine(text, lead, 0, i, q);
    }
  }

  /** The matches reported from the start cover every line that holds a match. */
  lemma AllMatchingLinesCovered(text: string, lead: string)
    requires LineFree(lead)
    ensures CoversMatchingLines(text, lead, Matches(text, lead, 0))
  {
    var ps := Matches(text, lead, 0);
    forall q | 0 <= q < |text| && MatchAt(text, lead, q)
      ensures OnSomeLine(text, ps, q)
    {
      MatchesCoverLine(text, lead, 0, q);
    }
  }

  /** One pattern yields one correction per line that holds a match of its
      single-line lead-in: the trimmed rest of that line after the line's
      leftmost match, lines in text order. */
  lemma OneCorrectionPerMatchingLine(text: string, lead: string)
    requires LineFree(lead)
    ensures var ps := Matches(text, lead, 0);
      && TrimmedRestsOfLines(text, lead, ps, ExtractWith(text, lead))
      && LeftmostOnTheirLines(text, lead, ps)
      && CoversMatchingLines(text, lead, ps)
      && OnLaterLines(text, ps)
  {
    CorrectionsAreTrimmedRests(text, lead);
    AllLeftmostOnTheirLines(text, lead);
    AllMatchingLinesCovered(text, lead);
    MatchesLinesIncrease(text, lead, 0);
  }

  /** `extractCorrections`: the matches of the three patterns, pattern by
      pattern: first every correction of the first lead-in, then the second's,
      then the third's. */
  function Extract(text: string): (r: seq<Correction>)
    ensures |r| <= 3 * |text|
    ensures var a, b, c := ExtractWith(text, Templates[0]), ExtractWith(text, Templates[1]), ExtractWith(text, Templates[2]);
      && |r| == |a| + |b| + |c|
      && r[..|a|] == a && r[|a|..|a| + |b|] == b && r[|a| + |b|..] == c
  {
    MatchesBounded(text, Templates[0], 0);
    MatchesBounded(text, Templates[1], 0);
    MatchesBounded(text, Templates[2], 0);
    ExtractWith(text, Templates[0]) + ExtractWith(text, Templates[1]) + ExtractWith(text, Templates[2])
  }

  /** A reply yields no correction exactly when none of the lead-ins occurs,
      ignoring case, with text after it on the same line. */
  lemma NoCorrectionsIffNoLeadIn(text: string)
    ensures Extract(text) == [] <==> forall t, k :: 0 <= t < |Templates| ==> !MatchAt(text, Templates[t], k)
  {
    if Extract(text) == [] {
      forall t, k | 0 <= t < |Templates|
        ensures !MatchAt(text, Templates[t], k)
      {
        if t == 0 {
        } else if t == 1 {
        } else {
          assert t == 2;
        }
      }
    }
  }

  /** The first correction of a pattern is the trimmed rest of the line of its
      leftmost match. */
  lemma FirstCorrectionIsLeftmostMatch(text: string, lead: string, k: nat)
    requires MatchAt(text, lead, k)
    requires forall j :: 0 <= j < k ==> !MatchAt(text, lead, j)
    ensures ExtractWith(text, lead) != []
    ensures ExtractWith(text, lead)[0] == Correction(Trim(text[k + |lead|..LineEnd(text, k + |lead|)]))
  {
    LeftmostMatchReportedFirst(text, lead, k);
    assert Captures(text, lead, 0)[0] == CaptureAt(text, lead, k);
  }

  /** The leftmost match is the first one `matchAll` reports. */
  lemma LeftmostMatchReportedFirst(text: string, lead: string, k: nat)
    requires MatchAt(text, lead, k)
    requires forall j :: 0 <= j < k ==> !MatchAt(text, lead, j)
    ensures Matches(text, lead, 0) != [] && Matches(text, lead, 0)[0] == k
  {
    assert NextMatch(text, lead, 0).Some?;
    var v := NextMatch(text, lead, 0).value;
    assert v == k by {
      assert !(v < k) && !(k < v);
    }
    MatchesShift(text, lead, 0);
  }

  /** A lead-in that leaves no room for a captured character cannot match. */
  lemma NoRoomNoMatch(text: string, lead: string)
    requires |text| <= |lead|
    ensures ExtractWith(text, lead) == []
  {
    assert forall k :: !MatchAt(text, lead, k);
  }

  /** A reply that uses a lead-in ignoring case still yields its correction. */
  lemma CaseIsIgnored()
    ensures Extract("il faut dire: je vais") == [Correction("je vais")]
  {
    var text := "il faut dire: je vais";
    assert ExtractWith(text, Templates[0]) == [] by {
      NoRoomNoMatch(text, Templates[0]);
    }
    assert ExtractWith(text, Templates[1]) == [] by {
      NoRoomNoMatch(text, Templates[1]);
    }
    assert ExtractWith(text, Templates[2]) == [Correction("je vais")] by {
      LowerCaseLeadCaptured();
      TrimKeepsInnerText("je vais");
    }
  }

  lemma LowerCaseLeadCaptured()
    ensures Captures("il faut dire: je vais", Templates[2], 0) == ["je vais"]
  {
    var text := "il faut dire: je vais";
    LowerCaseLeadMatches();
    assert NextMatch(text, Templates[2], 0) == Some(0);
    assert |Templates[2]| == 14;
    assert LineEnd(text, 14) == 21;
    assert text[14..21] == "je vais";
    assert Matches(text, Templates[2], 21) == [];
    MatchesUnfold(text, Templates[2], 0);
    assert Matches(text, Templates[2], 0) == [0];
  }

  lemma LowerCaseLeadMatches()
    ensures MatchAt("il faut dire: je vais", Templates[2], 0)
  {
    assert Lower("il faut dire: je vais") == "il faut dire: je vais";
    assert Lower(Templates[2]) == "il faut dire: ";
  }
}
