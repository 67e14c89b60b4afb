/** The realtime service's guard against speech-recogniser artefacts: a
    transcript is dropped when it mentions a known subtitle/credit/URL phrase,
    is shorter than two characters once trimmed, or is nothing but
    punctuation and white space. */
module TranscriptFilter {
  import opened Text

  /** The phrases the recogniser is known to invent, in the order they are checked. */
  const Artifacts: seq<string> := [
    "sous-titre", "amara.org", "subtitles", "st' 501", "sous-titrage", "cc by",
    "translated by", "subtítulos", "www.", ".com", ".org", "thank you for watching",
    "merci d'avoir regardé", "[music]", "[musique]", "\U{266A}", "please subscribe",
    "like and subscribe"]

  /** The fewest characters a trimmed transcript may have. */
  const MinLength := 2

  /** The class `[.,!?¿¡\s]`. */
  predicate IsPunctuation(c: char) {
    c == '.' || c == ',' || c == '!' || c == '?' || c == '¿' || c == '¡' || IsSpace(c)
  }

  /** `/^[.,!?¿¡\s]+$/`: non-empty and made only of punctuation and white space. */
  predicate OnlyPunctuation(t: string) {
    |t| > 0 && forall i :: 0 <= i < |t| ==> IsPunctuation(t[i])
  }

  /** The lower-cased, trimmed transcript contains one of the phrases. */
  predicate MentionsAny(t: string, phrases: seq<string>) {
    exists i :: 0 <= i < |phrases| && ContainsLowered(Trim(Lower(t)), phrases, i)
  }

  /** The transcript mentions one of the artefact phrases. */
  predicate MentionsArtifact(t: string) {
    MentionsAny(t, Artifacts)
  }

  /** `text.trim().length < 2`, counted in UTF-16 code units. */
  predicate TooShort(t: string) {
    |Utf16(Trim(t))| < MinLength
  }

  /** The transcript is treated as a hallucination and never reaches the model. */
  predicate Rejected(t: string) {
    MentionsArtifact(t) || TooShort(t) || OnlyPunctuation(t)
  }

  /** The regular-expression test `/^[.,!?¿¡\s]+$/`, as a left-to-right scan. */
  method MatchesOnlyPunctuation(text: string) returns (matched: bool)
    ensures matched <==> OnlyPunctuation(text)
  {
    matched := |text| > 0;
    var k := 0;
    while k < |text| && matched
      invariant 0 <= k <= |text|
      invariant matched <==> |text| > 0 && forall j :: 0 <= j < k ==> IsPunctuation(text[j])
    {
      matched := IsPunctuation(text[k]);
      k := k + 1;
    }
  }

  /** The check as the service runs it: the artefact phrases in order with
      `includes`, then the length and punctuation tests. */
  method Classify(text: string) returns (rejected: bool)
    ensures rejected <==> Rejected(text)
  {
    rejected := ClassifyBy(text, Artifacts);
  }

  /** The same test against any list of phrases. */
  method ClassifyBy(text: string, phrases: seq<string>) returns (rejected: bool)
    ensures rejected <==> MentionsAny(text, phrases) || TooShort(text) || OnlyPunctuation(text)
  {
    var hallucination := IncludesAnyLowered(Trim(Lower(text)), phrases);
    var tooShort := |Utf16(Trim(text))| < MinLength;
    var onlyPunctuation := MatchesOnlyPunctuation(text);
    rejected := hallucination || tooShort || onlyPunctuation;
  }

  /** A transcript made only of punctuation and white space is always
      rejected, whatever its length. */
  lemma PunctuationOnlyRejected(t: string)
    requires forall i :: 0 <= i < |t| ==> IsPunctuation(t[i])
    ensures Rejected(t)
  {
    if |t| == 0 {
      assert TooShort(t);
    }
  }

  /** An accepted transcript has at least two code units once trimmed and at
      least one character that is neither punctuation nor white space. */
  lemma AcceptedHasContent(t: string)
    requires !Rejected(t)
    ensures |Utf16(Trim(t))| >= MinLength && Trim(t) != []
    ensures exists i :: 0 <= i < |t| && !IsPunctuation(t[i])
  {
  }

  /** The ellipsis the recogniser returns for silence is rejected. */
  lemma EllipsisRejected()
    ensures Rejected("...")
  {
    PunctuationOnlyRejected("...");
  }

  /** The filter is a heuristic: a genuine sentence that spells out a web
      address is dropped as well. */
  lemma WebAddressRejected()
    ensures Rejected("Va sur www.exemple.fr")
  {
    var t := "Va sur www.exemple.fr";
    var l := "va sur www.exemple.fr";
    SentenceLowered();
    TrimKeepsInnerText(l);
    WwwLowered();
    assert PrefixAt(l, Lower(Artifacts[8]), 7);
    MentionRejected(t, Artifacts, 8, 7);
  }

  lemma SentenceLowered()
    ensures Lower("Va sur www.exemple.fr") == "va sur www.exemple.fr"
  {
  }

  lemma WwwLowered()
    ensures Lower(Artifacts[8]) == "www."
  {
  }

  /** A transcript whose normalized form contains one of the phrases
      mentions it. */
  lemma MentionRejected(t: string, phrases: seq<string>, i: nat, k: nat)
    requires i < |phrases| && PrefixAt(Trim(Lower(t)), Lower(phrases[i]), k)
    ensures MentionsAny(t, phrases)
  {
    assert ContainsLowered(Trim(Lower(t)), phrases, i);
  }

  /** The length test counts code units, so a single character beyond
      U+FFFF, such as an emoji, is long enough on its own. */
  lemma AstralCharacterLongEnough(c: char)
    requires c as int >= 0x10000
    ensures |[c]| == 1 && !TooShort([c])
  {
    assert !IsSpace(c);
    TrimKeepsInnerText([c]);
  }
}
