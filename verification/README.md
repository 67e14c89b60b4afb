# André French tutor — a Dafny model of the session core

André is a voice tutor for Spanish-speaking learners of French. A browser
page records the learner and sends the audio over a WebSocket. The Node
backend transcribes it, drops transcriptions that are recognizer noise, asks
a chat model for the tutor's reply with the recent conversation as context,
synthesizes the reply to speech and sends it back. Typed messages take the
same path without transcription. Two small HTTP routes serve learner
profiles and an exercise catalogue.

This project models that core as pure functions over immutable values:

- the process-wide session store, with its two-hour eviction and its
  50-entry conversation cap;
- the realtime service's own session map, session creation and resumption,
  and the audio turn;
- the text turn;
- the per-connection message handler, as a state machine over the id of the
  connection's current session;
- correction extraction and the transcription-noise filter;
- the pronunciation heuristic: Levenshtein distance, the similarity ratio
  and the table of typical mistakes;
- the exercise and profile routes;
- the browser's profile form, and the tutoring page's message list and send
  gates.

Time is passed in as integer milliseconds and generated ids as parameters.
The transcription, chat-completion and speech services are passed in as
results, or as total functions that either answer or fail.

Modules, one per file: `Wrappers`, `Text` (JavaScript `trim`,
`toLowerCase` and `includes`), `Domain`, `Prompt`, `SessionStore`,
`TranscriptFilter`, `Corrections`, `ChatContext`, `RealtimeService`,
`TextService`, `Server`, `Pronunciation`, `Http`, `Exercises`, `Profiles`,
`ProfileSetup` and `TutorSession`.

Four behaviours of the code are worth knowing before reading the model:

- **`end_session` keeps the store entry.** `end_session` and a closed socket
  remove the session from the realtime service's map only. The store keeps
  its copy until a read or the sweep finds it older than two hours
  (`Server.EndSessionKeepsStore`).
- **The welcome goes last.** The handler appends the welcome after whatever
  the created or resumed session already holds, so a resumed session's
  welcome follows its earlier turns (`Server.OnStartSession`).
- **Resumption depends on a caller-supplied id.** In the code the lookup id
  is generated randomly just before the lookup, so resumption practically
  never happens. The model takes the id as a parameter, which makes the
  resume rule visible (`RealtimeService.CreateSession`).
- **Stored conversations do not simply grow by two per turn.** Saving
  copies the session shallowly, so the store entry and the service's session
  share one conversation array until the cap first rewrites it. The model
  keeps the two as separate values and states each one's append contract
  separately.

## Model

| member | source | states |
|---|---|---|
| SessionStore.Save | backend/services/sessionStore.js:6-11 | the id now maps to the session stamped with `now`; every other entry is unchanged; entries stay filed under their own ids |
| SessionStore.Get | backend/services/sessionStore.js:13-25 | an absent id gives nothing and changes nothing; a present entry is returned, with the store unchanged, exactly when it is at most two hours old; otherwise it is deleted and nothing is returned |
| SessionStore.Cap | backend/services/sessionStore.js:33-38 | up to 50 entries are kept as they are; a longer conversation becomes exactly 50 entries: the first entry followed by the latest 49 |
| SessionStore.UpdateConversation | backend/services/sessionStore.js:27-42 | an unknown id is a no-op; otherwise only that entry changes: it is restamped with `now`, its conversation becomes the cap of the old one plus the message, it is a plain append below the cap, and it never exceeds 50 entries |
| SessionStore.Delete | backend/services/sessionStore.js:44-46 | exactly that key is removed and every other entry is kept |
| SessionStore.CleanOldSessions | backend/services/sessionStore.js:48-56 | the sweep keeps exactly the entries that are at most two hours old, unchanged |
| SessionStore.SaveThenGet | backend/services/sessionStore.js:6-22 | a read at the instant of a save returns the saved session stamped with that instant and evicts nothing |
| SessionStore.TwoHourBoundary | backend/services/sessionStore.js:17-22 | an entry exactly two hours old is still returned; one millisecond later it is evicted |
| SessionStore.EvictionIsFinal | backend/services/sessionStore.js:17-24 | once a read evicts an entry, every later read of that id finds nothing |
| SessionStore.SweepAgreesWithRead | backend/services/sessionStore.js:17-21 | the sweep keeps an entry exactly when a read at the same instant would return it |
| SessionStore.SweepIdempotent | backend/services/sessionStore.js:48-56 | a second sweep at the same instant changes nothing |
| SessionStore.UpdateRevivesExpiredEntry | backend/services/sessionStore.js:27-31 | an append does not check expiry: it restamps even a stale entry, and the entry then survives a read |
| SessionStore.CapAbsorbs | backend/services/sessionStore.js:34-38 | capping a prefix and then capping the extended conversation gives the same result as capping the whole conversation once |
| SessionStore.UpdateTwice | backend/services/sessionStore.js:27-42 | two appends in a row restamp the entry and leave the cap of its conversation extended by both messages, whatever its length before |
| SessionStore.AppendEachIsCapOfHistory | backend/services/sessionStore.js:27-42 | appending messages one at a time, starting within the cap, leaves the cap of the whole history |
| SessionStore.AppendEachBounded | backend/services/sessionStore.js:30-38 | after any number of appends the length is min(history, 50), the first entry ever is kept, and the last entry is the latest message |
| Prompt.EffectiveAge | backend/services/realtimeService.js:44 | a missing age or age 0 reads as 15; any other age is used as given |
| Prompt.EffectiveName | backend/services/realtimeService.js:45 | a missing or empty name reads as "estudiante"; the name used is never empty |
| Prompt.SelectBand | backend/services/realtimeService.js:50-81 | each of the ranges 5-10, 11-17, 18-25, 26-40 and 41-60 selects its own band, if and only if the age is in it; every other age selects the fallback |
| Prompt.Generate | backend/services/realtimeService.js:43-81 | the prompt quotes the effective name and age and embeds the ruleset of the effective age's band |
| Prompt.MissingAgeSelectsTeenagers | backend/services/realtimeService.js:44-57 | a profile without an age gets age 15 and the teenager ruleset |
| Prompt.SameBandSameRuleset | backend/services/realtimeService.js:50-75 | two profiles in the same non-fallback range get the same ruleset whatever their names |
| Text.TrimStart | backend/services/realtimeService.js:185 | the result is a suffix of the input; only whitespace was dropped; it does not start with whitespace |
| Text.TrimEnd | backend/services/realtimeService.js:185 | the result is a prefix of the input; only whitespace was dropped; it does not end with whitespace |
| Text.Trim | backend/services/realtimeService.js:193 | the result is empty exactly when the input is all whitespace, and it has no whitespace at either end |
| Text.TrimParts | backend/services/realtimeService.js:193 | the trimmed text is a contiguous slice of the input |
| Text.TrimKeepsInnerText | backend/utils/commonErrors.js:85-86 | text without whitespace at either end is unchanged by trimming |
| Text.Lower | backend/services/realtimeService.js:185 | lower-casing keeps the length and maps each character on its own |
| Text.Units | backend/utils/commonErrors.js:115-121 | a character up to U+FFFF is one code unit equal to its code; a higher one is a high and a low surrogate that encode it |
| Text.Utf16 | backend/utils/commonErrors.js:115-121 | a string has between one and two code units per character, each below 0x10000 |
| Text.Utf16Concat | backend/services/realtimeService.js:193 | the code units of a joined string are the two strings' code units joined |
| Text.BasicPlaneIsOneUnitEach | backend/services/realtimeService.js:193 | a string within the basic plane has one code unit per character, equal to its code |
| Text.Includes | backend/services/realtimeService.js:189 | the search answers true exactly when the phrase occurs at some position |
| Text.IncludesAnyLowered | backend/services/realtimeService.js:188-190 | the search answers true exactly when some phrase of the list, lower-cased, occurs in the text |
| TranscriptFilter.MatchesOnlyPunctuation | backend/services/realtimeService.js:194 | the test is true exactly when the raw text is non-empty and consists only of `.,!?¿¡` and whitespace |
| TranscriptFilter.Classify | backend/services/realtimeService.js:164-196 | a transcript is rejected exactly when its lower-cased, trimmed form contains one of the 18 artifact phrases, or its trimmed length in UTF-16 code units is below 2, or it is punctuation only |
| TranscriptFilter.AstralCharacterLongEnough | backend/services/realtimeService.js:193 | a single character outside the basic plane is two code units long, so it passes the length test |
| TranscriptFilter.PunctuationOnlyRejected | backend/services/realtimeService.js:194-196 | a transcript made only of punctuation and spaces is always rejected |
| TranscriptFilter.AcceptedHasContent | backend/services/realtimeService.js:193-196 | an accepted transcript has at least two characters after trimming and is not punctuation only |
| TranscriptFilter.EllipsisRejected | backend/services/realtimeService.js:194-196 | the transcript "..." is rejected |
| TranscriptFilter.WebAddressRejected | backend/services/realtimeService.js:173-190 | a sentence that mentions "www." is rejected as a credit line |
| Corrections.LineEnd | backend/services/realtimeService.js:266-268 | the capture `(.+)` stops at a line terminator or at the end of the text |
| Corrections.LineEndIsFirstTerminator | backend/services/realtimeService.js:266-268 | no line terminator comes before that stop, so it is the first one after the start |
| Corrections.NextMatch | backend/services/realtimeService.js:272-273 | the next match is the leftmost position, from the search start, where the lead-in occurs ignoring case followed by a character of the same line; nothing is found exactly when no such position exists |
| Corrections.Matches | backend/services/realtimeService.js:272-273 | every reported match start lies at or after the search start and is a match; none is reported exactly when the lead-in matches nowhere after the start |
| Corrections.MatchesBounded | backend/services/realtimeService.js:272-273 | there are no more matches than positions left to search |
| Corrections.CaptureAt | backend/services/realtimeService.js:266-268 | the capture of a match is non-empty and holds no line terminator |
| Corrections.Captures | backend/services/realtimeService.js:272-278 | there is one capture per reported match, none exactly when the lead-in matches nowhere after the start |
| Corrections.TemplatesLineFree | backend/services/realtimeService.js:266-268 | none of the three lead-ins contains a line terminator |
| Corrections.MatchesLeftmostOnLine | backend/services/realtimeService.js:272-273 | each reported match of a single-line lead-in is the leftmost match on its line |
| Corrections.MatchesCoverLine | backend/services/realtimeService.js:272-273 | every line holding a match of a single-line lead-in has a reported match |
| Corrections.MatchesLinesIncrease | backend/services/realtimeService.js:272-273 | the reported matches lie on strictly later and later lines |
| Corrections.LeftmostMatchReportedFirst | backend/services/realtimeService.js:272-273 | when the leftmost match of the whole text is at k, the first reported match is k |
| Corrections.ExtractWith | backend/services/realtimeService.js:271-279 | one pattern yields one correction per reported match, and none exactly when it matches nowhere |
| Corrections.CorrectionIsTrimmedRest | backend/services/realtimeService.js:266-278 | correction i of a pattern is the trimmed rest of the line after the i-th reported match |
| Corrections.CorrectionsAreTrimmedRests | backend/services/realtimeService.js:266-278 | the same for every correction, with as many corrections as matches |
| Corrections.AllLeftmostOnTheirLines | backend/services/realtimeService.js:272-273 | for a single-line lead-in, no match precedes a reported match on its own line |
| Corrections.AllMatchingLinesCovered | backend/services/realtimeService.js:272-273 | for a single-line lead-in, every matching position shares its line with a reported match |
| Corrections.OneCorrectionPerMatchingLine | backend/services/realtimeService.js:266-279 | for a lead-in of one line, correction i holds the trimmed rest of the line after the i-th match; that match is the leftmost of its line, every line with a match is represented, and the lines come in text order |
| Corrections.Extract | backend/services/realtimeService.js:263-282 | the corrections of a reply are those of the first pattern, then the second, then the third, at most three per character of the reply |
| Corrections.NoCorrectionsIffNoLeadIn | backend/services/realtimeService.js:263-282 | a reply yields no correction exactly when no lead-in occurs, ignoring case, with text after it on the same line |
| Corrections.FirstCorrectionIsLeftmostMatch | backend/services/realtimeService.js:272-278 | the first correction of a pattern is the trimmed rest of the line after its leftmost match |
| Corrections.NoRoomNoMatch | backend/services/realtimeService.js:266-268 | a text no longer than a lead-in cannot match it |
| Corrections.CaseIsIgnored | backend/services/realtimeService.js:268 | "il faut dire: je vais" yields exactly the correction "je vais" |
| Corrections.LowerCaseLeadCaptured | backend/services/realtimeService.js:268-278 | in that reply the third pattern captures exactly "je vais" |
| Corrections.LowerCaseLeadMatches | backend/services/realtimeService.js:268 | the lower-case lead-in matches the pattern at position 0 |
| ChatContext.Window | backend/services/realtimeService.js:216 | the window holds the latest min(10, n) entries, in order |
| ChatContext.Request | backend/services/realtimeService.js:211-218 | the request holds the system prompt, then the window of the history, then the user's text |
| ChatContext.RecordTurn | backend/services/realtimeService.js:225-228 | a recorded turn extends the conversation by exactly the user entry and then the assistant entry |
| ChatContext.ShortHistorySentWhole | backend/services/realtimeService.js:216 | a history of at most ten entries is sent whole |
| ChatContext.NextWindowEndsWithTurn | backend/services/realtimeService.js:216-228 | the next request's window ends with the turn just recorded |
| ChatContext.WindowOfExtension | backend/services/realtimeService.js:216 | once the history holds ten entries, each new entry shifts the window by one |
| RealtimeService.Fresh | backend/services/realtimeService.js:28-36 | a new session has the given id and profile, an empty conversation, the start time, and the band of its effective age |
| RealtimeService.CreateSession | backend/services/realtimeService.js:18-41 | a live stored session with the same learner name is resumed as stored; otherwise a fresh session is put in both maps; a missing profile raises the runtime's type error after the read has evicted a stale entry; both maps stay keyed by id |
| RealtimeService.Answer | backend/services/realtimeService.js:243-249 | a successful audio reply carries the audio, the generated text, the learner's transcript, and the corrections in the text |
| RealtimeService.Completed | backend/services/realtimeService.js:225-249 | a completed turn is recorded in the service session in one step and in the store one entry at a time; a speech failure then gives the apology |
| RealtimeService.ProcessAudio | backend/services/realtimeService.js:134-261 | an unknown session is an error; a failed transcription or completion gives the apology and changes nothing; a noisy transcription gives the request to repeat and changes nothing; otherwise the turn is completed |
| RealtimeService.CompletedTouchesOnlyItsSession | backend/services/realtimeService.js:225-232 | a completed turn changes only its own session in each map and keeps both maps keyed |
| RealtimeService.AudioTurnTouchesOnlyItsSession | backend/services/realtimeService.js:134-261 | on a live session, an audio turn never errs, changes only that session in each map, and keeps both maps keyed |
| RealtimeService.SilentRepliesAreCanned | backend/services/realtimeService.js:196-205 | a reply without audio is one of the two canned replies |
| RealtimeService.AudioRepliesWereRecorded | backend/services/realtimeService.js:225-249 | a reply with audio echoes the transcript, and the service session recorded exactly that transcript and that reply |
| RealtimeService.CompletedAudioWasRecorded | backend/services/realtimeService.js:225-249 | for one session id: when the reply carries audio, the recorded user line is the transcript and the session's conversation gains exactly that turn |
| RealtimeService.EndSession | backend/services/realtimeService.js:284-289 | ending a session removes only that id from the service map |
| RealtimeService.RejectionConsultsNoService | backend/services/realtimeService.js:196-205 | for a rejected transcription, the outcome does not depend on the completion or speech service |
| RealtimeService.OnlyTheRequestMatters | backend/services/realtimeService.js:209-221 | the completion service is consulted about one request only: the system prompt, the window and the new transcript |
| RealtimeService.CompletionFailureChangesNothing | backend/services/realtimeService.js:209-259 | a failed completion leaves both maps as they were and answers with the apology |
| RealtimeService.SpeechFailureKeepsTheTurn | backend/services/realtimeService.js:225-259 | a speech failure after a successful completion still records two entries and answers with the apology |
| RealtimeService.StoreRecordsCappedTurn | backend/services/realtimeService.js:231-232 | the store entry is restamped and holds the cap of its conversation extended by the whole turn |
| TextService.ProcessText | backend/services/textService.js:6-46 | a failed completion changes nothing and its error escapes; otherwise the turn is recorded, and the reply is a text response with the audio and the corrections, or the speech error escapes with the turn already recorded |
| TextService.TextTurnChangesOnlyTheConversation | backend/services/textService.js:21-24 | a text turn changes only the conversation, and only by one recorded turn whose reply is the one sent |
| TextService.SuccessIsRecorded | backend/services/textService.js:19-41 | a text turn that changed nothing has failed |
| Server.Welcome | backend/server.js:53 | the welcome opens with "Bonjour " followed by the learner's name |
| Server.OnStartSession | backend/server.js:49-64 | on success the connection's current session is the created one, its conversation ends with the welcome, and the one frame announces that session's id with the same welcome text; a creation error becomes one error frame |
| Server.OnAudioChunk | backend/server.js:66-74 | without a current session nothing happens; otherwise exactly one frame is sent, and an unknown session gives an error frame |
| Server.OnTextMessage | backend/server.js:76-84 | without a live current session nothing happens; otherwise the text turn's session replaces the old one, the store is untouched, and exactly one frame, the reply or the error, is sent |
| Server.OnWelcomeAudio | backend/server.js:86-103 | the synthesized audio is sent; a synthesis failure sends nothing; the state is untouched |
| Server.OnEndSession | backend/server.js:105-110 | the current session leaves the service map and the connection forgets it; the store is untouched; with no session nothing happens |
| Server.Handle | backend/server.js:44-119 | a message sends at most one frame; malformed JSON gives one error frame and no change; an unknown type is ignored |
| Server.Close | backend/server.js:121-126 | closing ends the current session, if any, in the service map only |
| Server.InitialInv | backend/server.js:39-42 | a new connection to a fresh backend satisfies the invariant |
| Server.StartKeepsInv | backend/server.js:49-64 | `start_session` keeps the invariant |
| Server.AudioKeepsInv | backend/server.js:66-74 | `audio_chunk` keeps the invariant |
| Server.TextKeepsInv | backend/server.js:76-84 | `text_message` keeps the invariant |
| Server.HandleKeepsInv | backend/server.js:44-119 | every message keeps the invariant: the current session is live in the service map, and both maps file sessions under their own ids |
| Server.LiveConnectionIsAnswered | backend/server.js:66-84 | under the invariant, audio and text messages on a live connection get exactly one frame, and audio always gets a response |
| Server.NoSessionNoEffect | backend/server.js:66-84 | without a current session, audio, text and `end_session` messages change nothing and send nothing |
| Server.FailedTextTurnChangesNothing | backend/server.js:76-84 | a text turn whose completion fails changes nothing and sends exactly one error frame with the service's message |
| Server.EndSessionKeepsStore | backend/server.js:105-126 | neither `end_session` nor a closed socket removes anything from the store |
| Server.TextTurnSkipsStore | backend/server.js:76-84 | text messages never touch the store |
| Pronunciation.LevenshteinDistance | backend/utils/commonErrors.js:123-149 | the dynamic programme returns the unit-cost edit distance between the UTF-16 code units of its two arguments |
| Pronunciation.MatrixDistance | backend/utils/commonErrors.js:123-149 | the full matrix's last cell is the edit distance between the two unit sequences |
| Pronunciation.MatrixRow | backend/utils/commonErrors.js:134-146 | each row of the matrix holds the edit distances from a prefix of one sequence to every prefix of the other |
| Pronunciation.LevCell | backend/utils/commonErrors.js:134-146 | each cell copies the diagonal for equal characters, and otherwise is one more than the least of its three neighbours |
| Pronunciation.DistanceFromEmpty | backend/utils/commonErrors.js:126-132 | the distance to the empty string is the other string's length |
| Pronunciation.DistanceToSelf | backend/utils/commonErrors.js:134-146 | a string is at distance 0 from itself |
| Pronunciation.DistanceAtMostLonger | backend/utils/commonErrors.js:134-146 | the distance never exceeds the longer length |
| Pronunciation.Similarity | backend/utils/commonErrors.js:113-121 | the ratio is 1 for two empty strings and for equal strings; otherwise it is (longer length − edit distance) / longer length, lengths and distance in UTF-16 code units, between 0 and 1 |
| Pronunciation.OneSubstitution | backend/utils/commonErrors.js:134-146 | two sequences that differ only in their last unit are at distance 1 |
| Pronunciation.SurrogatesCountAsUnits | backend/utils/commonErrors.js:113-121 | "ab😀" against "ab😁" scores 3/4, because the two emoji share their high surrogate, and is not below the 0.7 threshold |
| Pronunciation.FirstMistake | backend/utils/commonErrors.js:88-99 | the row found shows its mistake and is the first such row; no row found means no row shows its mistake |
| Pronunciation.DetectWith | backend/utils/commonErrors.js:84-111 | a tabled error is reported only if some row's mistake appears; for equal normalized texts, nothing is detected exactly when no row's mistake appears |
| Pronunciation.Detect | backend/utils/commonErrors.js:2-39 | the same, for the fixed six-row table |
| Pronunciation.FirstTabledMistakeWins | backend/utils/commonErrors.js:88-99 | the first matching row in table order is reported with its correction and explanation |
| Pronunciation.GeneralErrorIffDissimilar | backend/utils/commonErrors.js:101-110 | with no tabled mistake, the general error is reported, with the normalized expected text, exactly when the similarity is below 0.7; the separate inequality test is redundant |
| Exercises.ForAge | backend/routes/exercises.js:196-212 | ages 5-10, 11-17, 18-25 and 26-40 get their group; NaN and every other age, including 41-60, get an empty list |
| Exercises.FindId | backend/routes/exercises.js:218 | the exercise found has the requested id and belongs to the group; nothing is found exactly when no exercise in the group has that id |
| Exercises.Scan | backend/routes/exercises.js:217-220 | the scan finds nothing exactly when no group has the id; anything found has the id and comes from a group |
| Exercises.Lookup | backend/routes/exercises.js:214-227 | the answer is a catalogue exercise with the requested id; 404 "Exercise not found" is returned exactly when no catalogue exercise has that id |
| Exercises.Flatten | backend/routes/exercises.js:217 | the flattened catalogue is empty exactly when every group is empty |
| Exercises.FlattenMembership | backend/routes/exercises.js:217 | an exercise is in the flattened list exactly when it is in one of the groups |
| Exercises.FlattenConcat | backend/routes/exercises.js:217 | flattening two lists of groups joined is joining their flattenings |
| Exercises.FlattenKeepsGroupsInOrder | backend/routes/exercises.js:217 | each group appears whole in the flattened list, after all earlier groups and before all later ones |
| Exercises.All | backend/routes/exercises.js:5-194 | the catalogue is the four groups in declaration order |
| Exercises.ScanCoversAll | backend/routes/exercises.js:217-220 | scanning the groups finds the first exercise with the id in the flattened catalogue |
| Exercises.DistinctIdsFindItself | backend/routes/exercises.js:218 | in a list with distinct ids, searching for an exercise's id finds that exercise |
| Exercises.CatalogIdsDistinct | backend/routes/exercises.js:5-194 | no two exercises of the catalogue share an id |
| Exercises.LookupFindsEveryExercise | backend/routes/exercises.js:214-227 | every catalogue exercise is returned for its own id, so lookup is unambiguous |
| Exercises.ListingFollowsPromptBands | backend/routes/exercises.js:201-209 | the listing ranges are the first four prompt bands; the 41-60 band and the fallback get nothing |
| Profiles.StringToNumber | backend/routes/profiles.js:14 | a blank string compares as 0; a trimmed, optionally signed run of digits compares as its signed value; every other string compares as NaN |
| Profiles.DecimalDigits | backend/routes/profiles.js:14 | the decimal form of a natural number is a non-empty run of digits |
| Profiles.DecimalDigitsValue | backend/routes/profiles.js:14 | reading those digits gives the number back |
| Profiles.Decimal | backend/routes/profiles.js:14 | the decimal form of an integer is a numeral, signed when negative |
| Profiles.NumberRoundTrip | backend/routes/profiles.js:14 | every integer, written in decimal, compares as itself |
| Profiles.Create | backend/routes/profiles.js:7-35 | a falsy name or age (0 included) gives 400 "Name and age are required"; an age below 5 or above 40 gives 400 "Age must be between 5 and 40"; otherwise the stored and returned profile holds the given name and age, a beginner progress record and the id and creation time |
| Profiles.Put | backend/routes/profiles.js:32 | storing a new key appends it to the insertion order; storing an existing key keeps its place |
| Profiles.Get | backend/routes/profiles.js:37-45 | a stored profile is returned; an unknown id gives 404 "Profile not found" |
| Profiles.Overlay | backend/routes/profiles.js:54-59 | the body's fields win, the stored fields not in the body are kept, nothing else is added, and the id and creation time never change |
| Profiles.Update | backend/routes/profiles.js:47-63 | an unknown id gives 404 and changes nothing; otherwise the overlay replaces the profile in place and is returned |
| Profiles.List | backend/routes/profiles.js:65-67 | every stored profile, in insertion order |
| Profiles.CreateThenGet | backend/routes/profiles.js:32-44 | a created profile is read back as returned and is listed last |
| Profiles.ListIsExactlyTheStore | backend/routes/profiles.js:65-67 | the listing holds exactly the stored profiles |
| Profiles.UpdateIsIdempotent | backend/routes/profiles.js:54-61 | repeating an update with the same body changes nothing more |
| Profiles.OverlayTwice | backend/routes/profiles.js:54-59 | overlaying a body twice is overlaying it once |
| Profiles.WordIsNaN | backend/routes/profiles.js:14 | a word that starts with neither a sign nor a digit, such as "adult", compares as NaN |
| Profiles.NonNumericAgeAccepted | backend/routes/profiles.js:10-16 | a truthy age that compares as NaN passes both checks, so the profile is created |
| ProfileSetup.AgeJson | frontend/src/pages/ProfileSetup.jsx:30-33 | a parsed age is posted as a number, and NaN is posted as null |
| ProfileSetup.HandleSubmit | frontend/src/pages/ProfileSetup.jsx:14-44 | an empty field refuses with "Por favor completa todos los campos"; then a parsed age below 5 refuses with "La edad mínima es 5 años"; otherwise the name and parsed age are posted; nothing else is refused |
| ProfileSetup.AgeGroupMessage | frontend/src/pages/ProfileSetup.jsx:46-63 | the hint is empty exactly when the parsed age is NaN or 0 |
| ProfileSetup.HintFollowsPromptBand | frontend/src/pages/ProfileSetup.jsx:50-62 | every non-zero age gets the hint of the band its system prompt would use |
| ProfileSetup.FormAcceptsWhatServerRefuses | frontend/src/pages/ProfileSetup.jsx:22-33 | an age over 40 passes the form, and the server then refuses it with 400 |
| ProfileSetup.UnparsedAgeRefusedAsMissing | frontend/src/pages/ProfileSetup.jsx:22-33 | an age that does not parse is posted as null, and the server refuses it as missing |
| ProfileSetup.AcceptedRangeAgrees | frontend/src/pages/ProfileSetup.jsx:17-33 | every age from 5 to 40 that the form posts is stored by the server with the same name and age |
| TutorSession.AttachWelcomeAudio | frontend/src/pages/TutorSession.jsx:101-103 | every welcome bubble takes the audio and every other bubble stays as it is |
| TutorSession.ReplyBubbles | frontend/src/pages/TutorSession.jsx:107-124 | a reply with an empty or missing echo adds one tutor bubble; one that echoes the learner adds the learner's bubble first |
| TutorSession.ReplyItems | frontend/src/pages/TutorSession.jsx:108-124 | there is one or two bubbles; the last is the tutor's, with text, audio and corrections; a learner bubble appears only for a non-empty echo |
| TutorSession.OnMessage | frontend/src/pages/TutorSession.jsx:80-130 | a new session replaces the list with its welcome and asks for the welcome's audio; welcome audio keeps the length; a reply only appends; an error frame changes nothing |
| TutorSession.ForwardRecording | frontend/src/pages/TutorSession.jsx:194-206 | an audio chunk is sent exactly when the recording is over 1000 bytes (the size gate of the stop handler, lines 290-296) and the socket is open |
| TutorSession.SubmitText | frontend/src/pages/TutorSession.jsx:208-225 | blank input or a socket that is not open does nothing; otherwise one learner bubble with the untrimmed text is added, the text is sent, and the box is cleared |
| TutorSession.WelcomeAudioTouchesOnlyWelcome | frontend/src/pages/TutorSession.jsx:99-103 | welcome audio changes only the audio of welcome bubbles |
| TutorSession.NewSessionShowsOnlyWelcome | frontend/src/pages/TutorSession.jsx:83-92 | after `session_started` the list is exactly one assistant welcome bubble with the announced text |
| TutorSession.WelcomeRoundTrip | frontend/src/pages/TutorSession.jsx:83-103 | the page requests audio for exactly the announced welcome text, and once the server answers with audio the welcome bubble carries it |
| TutorSession.SubmitOnce | frontend/src/pages/TutorSession.jsx:210-224 | a submitted text is shown and sent verbatim, and submitting the cleared box again does nothing |

## Left out

- Audio capture and silence detection: the recorder component takes only
  `isRecording`, `onStart`, `onStop` and `disabled`. The page passes
  `autoStop` and `silenceDelay`, but no component reads them, so there is no
  silence logic to model.
- The recorder's media plumbing, file reading, audio playback, WebSocket
  connection and reconnection, the automatic re-recording timer and page
  rendering: these are browser I/O and event-loop timing.
- The transcription, chat and speech calls, and the temporary audio file:
  they are modelled only as answers that succeed or fail. Their request
  parameters (model, voice, temperature, token limit) are left out.
- The hourly sweep timer: only the sweep itself (`CleanOldSessions`) is
  modelled.
- The literal system-prompt text: a prompt is modelled by the name, age
  and band it embeds.
- `Date.now`, `Math.random`, `new Date()` and the id formats: time and ids
  are parameters.
- The aliasing between the store entry and the service's session:
  - The store saves a shallow copy, so both share one conversation array
    until the cap rewrites the stored one.
  - As a result, the code records each audio turn in that shared array
    twice, and the store also sees the welcome and the text turns.
  - The model keeps the two maps as separate values, each with its own
    append contract.
- `RealtimeService.CreateSession`: a `null` profile raises the same error
  as a missing one, but with "null" in place of "undefined". The model
  uses the "undefined" text for both.
- `RealtimeService.Resumable`: a profile name is an optional string, so a
  `null` name and a missing one are the same value. The code compares names
  with `===`, where `null` and `undefined` differ. A stored session with a
  `null` name is therefore resumed by a profile without a name in the
  model, but not in the code.
- `Server.NameText`: a name that is missing renders as "undefined" in the
  welcome. A `null` name would render as "null", and a non-string name as
  its string form; the model covers only a string or a missing name.
- `Server.OnTextMessage`: the connection keeps the session object itself,
  not only its id. The model keeps the id and looks the session up. The
  two agree whenever the current session is live in the service map, and
  the invariant `Server.Inv`, proved to hold after every message, ensures
  that it always is.
- Concurrency: Node runs each handler to completion between awaits, and
  the model treats each message as one atomic step. Interleavings at await
  points are not modelled, whether the messages come from two connections
  or from one. On one connection, an `end_session` or a close that arrives
  while an audio turn awaits transcription, completion or speech removes
  the session from the service map. The awaited turn still holds the
  session object, so it records the turn in it and in the store and, unless
  the socket has closed, sends its response. In the model, the audio turn
  completes before the next message is handled.
- `Corrections.OneCorrectionPerMatchingLine` describes the corrections of
  lead-ins without line terminators, which the three templates are
  (`Corrections.TemplatesLineFree`). For a lead-in that spans lines the
  model still computes the matches but states only what `Matches` and
  `ExtractWith` promise.
- `Text.Lower` lower-cases ASCII and Latin-1 capitals only, not the whole
  of Unicode. Case-insensitive regex matching uses the same mapping.
- Regular expressions in general: the three correction patterns are
  literal lead-ins followed by `(.+)`. They are modelled as a
  case-insensitive literal search whose capture runs to the end of the
  line.
- `Pronunciation.Similarity` compares ratios exactly, as integers
  (`10 * num < 7 * den`), where the code compares floating-point numbers.
  The two can differ only through rounding.
- `Profiles.StringToNumber`:
  - it reads optionally signed decimal integers only;
  - fractions, exponents, hexadecimal and `Infinity` are read as NaN;
  - JSON numbers are integers throughout the model.
- `Profiles.Create`: an array age compares as 0 when empty and as its
  only element when that is a number or a string; every other array and
  every object compares as NaN. JavaScript reads `[null]` and `[true]`
  through their string forms, which the model does not do.
- `Exercises.Exercise` keeps each exercise's id, title and type. The
  description and the learning content are display data and are left out.
- `ProfileSetup.HandleSubmit` and `ProfileSetup.AgeGroupMessage` take the
  result of `parseInt` as a parameter rather than modelling its parsing.
- The page's toast notifications, loading flag and navigation, and the
  profile kept in local storage.
- Express and HTTP plumbing: a route's answer is a body or a status with
  an error text.
- The health route, the exercises page and the other UI-only pages and
  components.
