/** `RealtimeService`: its own map of live sessions (separate from the
    process-wide store), session creation with the resume rule, and the
    audio turn. Transcription, chat completion and speech synthesis are
    external services, passed in as their results or as total functions that
    either answer or fail. */
module RealtimeService {
  import opened Wrappers
  import opened Domain
  import SessionStore
  import Prompt
  import ChatContext
  import TranscriptFilter
  import Corrections

  /** The service's `sessions` map. */
  type Sessions = map<string, Session>

  /** Every live session is filed under its own id. */
  ghost predicate Keyed(sessions: Sessions) {
    forall k :: k in sessions ==> sessions[k].id == k
  }

  /** The message of the error raised when a turn names an unknown session. */
  const SessionNotFound := "Session not found"

  /** What the runtime raises when `profile` is missing and its `name`, or
      its `age`, is read. */
  const NoProfileName := "Cannot read properties of undefined (reading 'name')"
  const NoProfileAge := "Cannot read properties of undefined (reading 'age')"

  /** The reply to a transcription judged to be noise. */
  const Clarification := Reply(AudioResponse, None,
    "Je n'ai pas bien entendu. Pouvez-vous répéter s'il vous plaît?", Some(""), [])

  /** The reply to any failure inside the audio turn. */
  const TechnicalFallback := Reply(TextResponse, None,
    "Désolé, j'ai eu un problème technique. Pouvez-vous répéter?", Some(""), [])

  /** Both maps after `createSession`, and the session or the error. */
  datatype Created = Created(sessions: Sessions, store: SessionStore.Store, outcome: Result<Session>)

  /** A session that starts now with an empty conversation. */
  function Fresh(profile: Profile, id: string, now: int): (s: Session)
    ensures s.id == id && s.profile == profile && s.conversation == [] && s.startTime == now
    ensures s.systemPrompt.band == Prompt.SelectBand(Prompt.EffectiveAge(profile.age))
  {
    Session(id, profile, Prompt.Generate(profile), [], now)
  }

  /** The stored entry under `id` may be resumed: it is still live and was
      made for a learner of the same name. */
  predicate Resumable(store: SessionStore.Store, id: string, profile: Profile, now: int) {
    id in store && !SessionStore.Expired(store[id], now) && store[id].session.profile.name == profile.name
  }

  /** `createSession(profile)` under the id `id`: the store is read first
      (which evicts a stale entry); a live entry for the same name is resumed
      into the service map as it is; otherwise a fresh session is registered
      in both maps. A missing profile raises once a field of it is read. */
  function CreateSession(sessions: Sessions, store: SessionStore.Store, profile: Option<Profile>, id: string, now: int): (r: Created)
    ensures profile.Some? && Resumable(store, id, profile.value, now) ==>
      r == Created(sessions[id := store[id].session], store, Ok(store[id].session))
    ensures profile.Some? && !Resumable(store, id, profile.value, now) ==>
      && r.outcome == Ok(Fresh(profile.value, id, now))
      && r.sessions == sessions[id := Fresh(profile.value, id, now)]
      && r.store.Keys == store.Keys + {id}
      && r.store[id] == SessionStore.Entry(Fresh(profile.value, id, now), now)
      && forall k :: k in store && k != id ==> r.store[k] == store[k]
    ensures profile.None? ==>
      && r.sessions == sessions
      && r.outcome == Err(if id in store && !SessionStore.Expired(store[id], now) then NoProfileName else NoProfileAge)
      && r.store == SessionStore.Get(store, id, now).store
    ensures r.outcome.Ok? ==> id in r.sessions && r.sessions[id] == r.outcome.value
    ensures SessionStore.WellKeyed(store) && Keyed(sessions) ==>
      SessionStore.WellKeyed(r.store) && Keyed(r.sessions) && (r.outcome.Ok? ==> r.outcome.value.id == id)
  {
    var lookup := SessionStore.Get(store, id, now);
    match lookup.found
    case Some(e) =>
      if profile.None? then Created(sessions, lookup.store, Err(NoProfileName))
      else if e.session.profile.name == profile.value.name then
        Created(sessions[id := e.session], lookup.store, Ok(e.session))
      else
        var s := Fresh(profile.value, id, now);
        Created(sessions[id := s], SessionStore.Save(lookup.store, id, s, now), Ok(s))
    case None =>
      if profile.None? then Created(sessions, lookup.store, Err(NoProfileAge))
      else
        var s := Fresh(profile.value, id, now);
        Created(sessions[id := s], SessionStore.Save(lookup.store, id, s, now), Ok(s))
  }

  /** Both maps after an audio turn, and the reply to send. */
  datatype AudioTurn = AudioTurn(sessions: Sessions, store: SessionStore.Store, reply: Reply)

  /** The successful reply: the synthesized audio, the generated text, the
      learner's transcript and the corrections the text contains. */
  function Answer(audio: string, reply: string, text: string): (r: Reply)
    ensures r.kind == AudioResponse && r.audio == Some(audio) && r.transcript == reply
    ensures r.userTranscript == Some(text) && r.corrections == Corrections.Extract(reply)
  {
    Reply(AudioResponse, Some(audio), reply, Some(text), Corrections.Extract(reply))
  }

  /** A completed audio turn, recorded in the service's session in one step
      and in the store entry by entry, then answered with the synthesized
      reply or, if synthesis fails, with the apology. */
  function Completed(
    sessions: Sessions, store: SessionStore.Store, id: string, text: string, reply: string,
    synthesize: string -> Result<string>, now: int): (r: AudioTurn)
    requires id in sessions
    ensures r.sessions == sessions[id := sessions[id].(conversation := ChatContext.RecordTurn(sessions[id].conversation, text, reply))]
    ensures r.store == SessionStore.UpdateConversation(
      SessionStore.UpdateConversation(store, id, Message(User, text), now), id, Message(Assistant, reply), now)
    ensures synthesize(reply).Ok? ==> r.reply == Answer(synthesize(reply).value, reply, text)
    ensures synthesize(reply).Err? ==> r.reply == TechnicalFallback
  {
    var s := sessions[id];
    var recorded := sessions[id := s.(conversation := ChatContext.RecordTurn(s.conversation, text, reply))];
    var st := SessionStore.UpdateConversation(store, id, Message(User, text), now);
    var st' := SessionStore.UpdateConversation(st, id, Message(Assistant, reply), now);
    match synthesize(reply)
    case Err(_) => AudioTurn(recorded, st', TechnicalFallback)
    case Ok(audio) => AudioTurn(recorded, st', Answer(audio, reply, text))
  }

  /** `processAudio(sessionId, audio)`, given the transcription of the audio:
      a noisy transcription is answered with a request to repeat and nothing
      else happens; otherwise the completion is asked for and the turn is
      completed as above. Every failure of an external service becomes the
      technical apology, keeping whatever was already recorded. */
  function ProcessAudio(
    sessions: Sessions, store: SessionStore.Store, id: string, transcription: Result<string>,
    complete: ChatRequest -> Result<string>, synthesize: string -> Result<string>, now: int): (r: Result<AudioTurn>)
    ensures r.Err? <==> id !in sessions
    ensures r.Err? ==> r.message == SessionNotFound
    ensures id in sessions && transcription.Err? ==> r == Ok(AudioTurn(sessions, store, TechnicalFallback))
    ensures id in sessions && transcription.Ok? && TranscriptFilter.Rejected(transcription.value) ==>
      r == Ok(AudioTurn(sessions, store, Clarification))
    ensures id in sessions && transcription.Ok? && !TranscriptFilter.Rejected(transcription.value) ==>
      var request := ChatContext.Request(sessions[id], transcription.value);
      && (complete(request).Err? ==> r == Ok(AudioTurn(sessions, store, TechnicalFallback)))
      && (complete(request).Ok? ==>
            r == Ok(Completed(sessions, store, id, transcription.value, complete(request).value, synthesize, now)))
  {
    if id !in sessions then Err(SessionNotFound)
    else
      match transcription
      case Err(_) => Ok(AudioTurn(sessions, store, TechnicalFallback))
      case Ok(text) =>
        if TranscriptFilter.Rejected(text) then Ok(AudioTurn(sessions, store, Clarification))
        else
          match complete(ChatContext.Request(sessions[id], text))
          case Err(_) => Ok(AudioTurn(sessions, store, TechnicalFallback))
          case Ok(reply) => Ok(Completed(sessions, store, id, text, reply, synthesize, now))
  }

  /** A completed turn touches only its own session in either map and keeps
      both maps keyed by id. */
  lemma CompletedTouchesOnlyItsSession(
    sessions: Sessions, store: SessionStore.Store, id: string, text: string, reply: string,
    synthesize: string -> Result<string>, now: int)
    requires id in sessions
    ensures var r := Completed(sessions, store, id, text, reply, synthesize, now);
      && r.sessions.Keys == sessions.Keys && r.store.Keys == store.Keys
      && (forall k :: k in sessions && k != id ==> r.sessions[k] == sessions[k])
      && (forall k :: k in store && k != id ==> r.store[k] == store[k])
      && (Keyed(sessions) ==> Keyed(r.sessions))
      && (SessionStore.WellKeyed(store) ==> SessionStore.WellKeyed(r.store))
  {
    var st := SessionStore.UpdateConversation(store, id, Message(User, text), now);
    assert st.Keys == store.Keys;
  }

  /** Whatever the services answer, an audio turn on a live session touches
      only that session in either map and keeps both maps keyed by id. */
  lemma AudioTurnTouchesOnlyItsSession(
    sessions: Sessions, store: SessionStore.Store, id: string, transcription: Result<string>,
    complete: ChatRequest -> Result<string>, synthesize: string -> Result<string>, now: int)
    requires id in sessions
    ensures var r := ProcessAudio(sessions, store, id, transcription, complete, synthesize, now);
      && r.Ok?
      && r.value.sessions.Keys == sessions.Keys && r.value.store.Keys == store.Keys
      && (forall k :: k in sessions && k != id ==> r.value.sessions[k] == sessions[k])
      && (forall k :: k in store && k != id ==> r.value.store[k] == store[k])
      && (Keyed(sessions) ==> Keyed(r.value.sessions))
      && (SessionStore.WellKeyed(store) ==> SessionStore.WellKeyed(r.value.store))
  {
    if transcription.Ok? && !TranscriptFilter.Rejected(transcription.value) {
      var request := ChatContext.Request(sessions[id], transcription.value);
      if complete(request).Ok? {
        CompletedTouchesOnlyItsSession(sessions, store, id, transcription.value, complete(request).value, synthesize, now);
      }
    }
  }

  /** An audio turn that answers without audio answers with one of the two
      canned replies. */
  lemma SilentRepliesAreCanned(
    sessions: Sessions, store: SessionStore.Store, id: string, transcription: Result<string>,
    complete: ChatRequest -> Result<string>, synthesize: string -> Result<string>, now: int)
    requires id in sessions
    ensures var r := ProcessAudio(sessions, store, id, transcription, complete, synthesize, now);
      r.Ok? && (r.value.reply.audio.None? ==> r.value.reply == Clarification || r.value.reply == TechnicalFallback)
  {
    if transcription.Ok? && !TranscriptFilter.Rejected(transcription.value) {
      var request := ChatContext.Request(sessions[id], transcription.value);
      if complete(request).Ok? {
        var t := Completed(sessions, store, id, transcription.value, complete(request).value, synthesize, now);
        assert ProcessAudio(sessions, store, id, transcription, complete, synthesize, now) == Ok(t);
      }
    }
  }

  /** An audio turn that answers with audio recorded exactly the learner's
      transcript and the reply it sends in the service's session. */
  lemma AudioRepliesWereRecorded(
    sessions: Sessions, store: SessionStore.Store, id: string, transcription: Result<string>,
    complete: ChatRequest -> Result<string>, synthesize: string -> Result<string>, now: int)
    requires id in sessions
    ensures var r := ProcessAudio(sessions, store, id, transcription, complete, synthesize, now);
      r.Ok? && r.value.reply.audio.Some? ==>
        && transcription.Ok?
        && r.value.reply.userTranscript == Some(transcription.value)
        && r.value.sessions[id].conversation
           == ChatContext.RecordTurn(sessions[id].conversation, transcription.value, r.value.reply.transcript)
  {
    if transcription.Ok? && !TranscriptFilter.Rejected(transcription.value) {
      var request := ChatContext.Request(sessions[id], transcription.value);
      if complete(request).Ok? {
        CompletedAudioWasRecorded(sessions, store, id, transcription.value, complete(request).value, synthesize, now);
      }
    }
  }

  /** A completed turn that answers with audio echoes the learner's text and
      sends the reply it recorded in the service's session. */
  lemma CompletedAudioWasRecorded(
    sessions: Sessions, store: SessionStore.Store, id: string, text: string, reply: string,
    synthesize: string -> Result<string>, now: int)
    requires id in sessions
    ensures var t := Completed(sessions, store, id, text, reply, synthesize, now);
      t.reply.audio.Some? ==>
        && t.reply.userTranscript == Some(text) && t.reply.transcript == reply
        && t.sessions[id].conversation == ChatContext.RecordTurn(sessions[id].conversation, text, reply)
  {
  }

  /** `endSession`: the session leaves the service map; the store keeps it. */
  function EndSession(sessions: Sessions, id: string): (r: Sessions)
    ensures r.Keys == sessions.Keys - {id}
    ensures forall k :: k in r ==> r[k] == sessions[k]
    ensures Keyed(sessions) ==> Keyed(r)
  {
    sessions - {id}
  }

  // ---------------------------------------------------------------------------
  // Properties of the audio turn

  /** A rejected transcription never reaches the completion or speech
      services: the outcome is the same whatever they would answer. */
  lemma RejectionConsultsNoService(
    sessions: Sessions, store: SessionStore.Store, id: string, text: string,
    c1: ChatRequest -> Result<string>, c2: ChatRequest -> Result<string>,
    t1: string -> Result<string>, t2: string -> Result<string>, now: int)
    requires TranscriptFilter.Rejected(text)
    ensures ProcessAudio(sessions, store, id, Ok(text), c1, t1, now) == ProcessAudio(sessions, store, id, Ok(text), c2, t2, now)
  {
  }

  /** The completion service is consulted about one request only: the system
      prompt, the latest ten entries and the new transcript. */
  lemma OnlyTheRequestMatters(
    sessions: Sessions, store: SessionStore.Store, id: string, transcription: Result<string>,
    c1: ChatRequest -> Result<string>, c2: ChatRequest -> Result<string>,
    synthesize: string -> Result<string>, now: int)
    requires id in sessions && transcription.Ok?
    requires c1(ChatContext.Request(sessions[id], transcription.value)) == c2(ChatContext.Request(sessions[id], transcription.value))
    ensures ProcessAudio(sessions, store, id, transcription, c1, synthesize, now) == ProcessAudio(sessions, store, id, transcription, c2, synthesize, now)
  {
  }

  /** A completion that fails leaves both maps as they were. */
  lemma CompletionFailureChangesNothing(
    sessions: Sessions, store: SessionStore.Store, id: string, text: string,
    complete: ChatRequest -> Result<string>, synthesize: string -> Result<string>, now: int)
    requires id in sessions && !TranscriptFilter.Rejected(text)
    requires complete(ChatContext.Request(sessions[id], text)).Err?
    ensures ProcessAudio(sessions, store, id, Ok(text), complete, synthesize, now) == Ok(AudioTurn(sessions, store, TechnicalFallback))
  {
  }

  /** A speech failure after a successful completion still records the turn
      in both maps and answers with the apology. */
  lemma SpeechFailureKeepsTheTurn(
    sessions: Sessions, store: SessionStore.Store, id: string, text: string,
    complete: ChatRequest -> Result<string>, synthesize: string -> Result<string>, now: int)
    requires id in sessions && !TranscriptFilter.Rejected(text)
    requires complete(ChatContext.Request(sessions[id], text)).Ok?
    requires synthesize(complete(ChatContext.Request(sessions[id], text)).value).Err?
    ensures var r := ProcessAudio(sessions, store, id, Ok(text), complete, synthesize, now);
      && r.Ok? && r.value.reply == TechnicalFallback
      && |r.value.sessions[id].conversation| == |sessions[id].conversation| + 2
  {
  }

  /** In the store, the two entries of a turn are appended one at a time, each
      restamping the entry; the outcome is the cap of the history extended by
      the whole turn, so the store holds at most 50 entries while the
      service's own conversation keeps growing. */
  lemma StoreRecordsCappedTurn(
    sessions: Sessions, store: SessionStore.Store, id: string, text: string,
    complete: ChatRequest -> Result<string>, synthesize: string -> Result<string>, now: int)
    requires id in sessions && id in store && !TranscriptFilter.Rejected(text)
    requires complete(ChatContext.Request(sessions[id], text)).Ok?
    ensures var r := ProcessAudio(sessions, store, id, Ok(text), complete, synthesize, now);
      var reply := complete(ChatContext.Request(sessions[id], text)).value;
      && r.Ok? && r.value.store[id].lastUpdated == now
      && r.value.store[id].session.conversation
         == SessionStore.Cap(ChatContext.RecordTurn(store[id].session.conversation, text, reply))
  {
    var c := store[id].session.conversation;
    var reply := complete(ChatContext.Request(sessions[id], text)).value;
    var t := Completed(sessions, store, id, text, reply, synthesize, now);
    assert ProcessAudio(sessions, store, id, Ok(text), complete, synthesize, now) == Ok(t);
    SessionStore.UpdateTwice(store, id, Message(User, text), Message(Assistant, reply), now);
    assert c + [Message(User, text), Message(Assistant, reply)] == ChatContext.RecordTurn(c, text, reply);
  }
}
