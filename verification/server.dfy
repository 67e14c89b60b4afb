/** The per-connection WebSocket handler of `server.js` as a state machine.
    The backend state is the realtime service's session map and the session
    store; a connection remembers the id of its current session, if any.
    Each inbound message, already parsed or rejected as malformed JSON, is
    one transition that sends at most one frame. */
module Server {
  import opened Wrappers
  import opened Domain
  import SessionStore
  import RealtimeService
  import TextService
  import ChatContext

  datatype Backend = Backend(sessions: RealtimeService.Sessions, store: SessionStore.Store)

  /** `currentSession`, by id. */
  datatype Conn = Conn(current: Option<string>)

  /** What the outside world supplies to one message: the time, the id the
      service would generate, and the external services' answers. */
  datatype Env = Env(
    now: int,
    freshId: string,
    transcription: Result<string>,
    complete: ChatRequest -> Result<string>,
    synthesize: string -> Result<string>)

  datatype Step = Step(backend: Backend, conn: Conn, out: seq<ServerFrame>)

  const Initial := Backend(map[], map[])

  /** The state every transition keeps: the connection's session is live in
      the service map, and both maps file sessions under their own ids. */
  ghost predicate Inv(b: Backend, c: Conn) {
    && (c.current.Some? ==> c.current.value in b.sessions)
    && RealtimeService.Keyed(b.sessions)
    && SessionStore.WellKeyed(b.store)
  }

  /** How a missing name reads inside the welcome template. */
  function NameText(name: Option<string>): (t: string)
    ensures name.Some? ==> t == name.value
  {
    match name
    case Some(n) => n
    case None => "undefined"
  }

  /** The welcome line for the learner `name`. */
  function Welcome(name: Option<string>): (w: string)
    ensures |w| > 8 + |NameText(name)|
    ensures w[..8] == "Bonjour " && w[8..8 + |NameText(name)|] == NameText(name)
  {
    "Bonjour " + NameText(name) + "! Je suis André, ton tuteur de français. Comment vas-tu aujourd'hui?"
  }

  /** `start_session`: create (or resume) the session, make it current, add
      the welcome to its conversation and announce it. A creation error is
      reported as an error frame; the eviction done by the store read stays. */
  function OnStartSession(b: Backend, c: Conn, profile: Option<Profile>, env: Env): (r: Step)
    ensures var cr := RealtimeService.CreateSession(b.sessions, b.store, profile, env.freshId, env.now);
      && r.backend.store == cr.store
      && (cr.outcome.Err? ==> r == Step(Backend(cr.sessions, cr.store), c, [Error(cr.outcome.message)]))
      && (cr.outcome.Ok? ==>
            var s := cr.outcome.value;
            && profile.Some?
            && r.conn == Conn(Some(s.id))
            && r.out == [SessionStarted(s.id, Welcome(profile.value.name))]
            && s.id in r.backend.sessions
            && r.backend.sessions[s.id].conversation == s.conversation + [Message(Assistant, Welcome(profile.value.name))])
  {
    var cr := RealtimeService.CreateSession(b.sessions, b.store, profile, env.freshId, env.now);
    match cr.outcome
    case Err(m) => Step(Backend(cr.sessions, cr.store), c, [Error(m)])
    case Ok(s) =>
      var welcome := Welcome(profile.value.name);
      var greeted := s.(conversation := s.conversation + [Message(Assistant, welcome)]);
      Step(Backend(cr.sessions[s.id := greeted], cr.store), Conn(Some(s.id)), [SessionStarted(s.id, welcome)])
  }

  /** `audio_chunk` on the current session. */
  function OnAudioChunk(b: Backend, c: Conn, env: Env): (r: Step)
    ensures c.current.None? ==> r == Step(b, c, [])
    ensures c.current.Some? ==> r.conn == c && |r.out| == 1
    ensures c.current.Some? && c.current.value !in b.sessions ==>
      r == Step(b, c, [Error(RealtimeService.SessionNotFound)])
  {
    match c.current
    case None => Step(b, c, [])
    case Some(id) =>
      match RealtimeService.ProcessAudio(b.sessions, b.store, id, env.transcription, env.complete, env.synthesize, env.now)
      case Err(m) => Step(b, c, [Error(m)])
      case Ok(t) => Step(Backend(t.sessions, t.store), c, [Response(t.reply)])
  }

  /** `text_message` on the current session. The store is not involved. */
  function OnTextMessage(b: Backend, c: Conn, text: string, env: Env): (r: Step)
    ensures c.current.None? || c.current.value !in b.sessions ==> r == Step(b, c, [])
    ensures r.conn == c && r.backend.store == b.store && r.backend.sessions.Keys == b.sessions.Keys
    ensures c.current.Some? && c.current.value in b.sessions ==>
      var id := c.current.value;
      var t := TextService.ProcessText(b.sessions[id], text, env.complete, env.synthesize);
      && r.backend.sessions == b.sessions[id := t.session]
      && r.out == [if t.outcome.Ok? then Response(t.outcome.value) else Error(t.outcome.message)]
  {
    match c.current
    case None => Step(b, c, [])
    case Some(id) =>
      if id !in b.sessions then Step(b, c, [])
      else
        var t := TextService.ProcessText(b.sessions[id], text, env.complete, env.synthesize);
        var sent := match t.outcome
          case Ok(reply) => Response(reply)
          case Err(m) => Error(m);
        Step(Backend(b.sessions[id := t.session], b.store), c, [sent])
  }

  /** `generate_welcome_audio`: the audio, or nothing at all on failure. */
  function OnWelcomeAudio(b: Backend, c: Conn, text: string, env: Env): (r: Step)
    ensures r.backend == b && r.conn == c
    ensures env.synthesize(text).Ok? ==> r.out == [WelcomeAudio(Some(env.synthesize(text).value))]
    ensures env.synthesize(text).Err? <==> r.out == []
  {
    match env.synthesize(text)
    case Ok(audio) => Step(b, c, [WelcomeAudio(Some(audio))])
    case Err(_) => Step(b, c, [])
  }

  /** `end_session`: the current session leaves the service map and the
      connection forgets it; the store keeps its copy. */
  function OnEndSession(b: Backend, c: Conn): (r: Step)
    ensures r.out == [] && r.conn == Conn(None) && r.backend.store == b.store
    ensures c.current.None? ==> r.backend == b
    ensures c.current.Some? ==> r.backend.sessions == RealtimeService.EndSession(b.sessions, c.current.value)
  {
    match c.current
    case None => Step(b, c, [])
    case Some(id) => Step(Backend(RealtimeService.EndSession(b.sessions, id), b.store), Conn(None), [])
  }

  /** One inbound message. A message that is not valid JSON is answered with
      an error frame carrying the parser's message; unknown types are
      ignored. */
  function Handle(b: Backend, c: Conn, message: Result<ClientFrame>, env: Env): (r: Step)
    ensures |r.out| <= 1
    ensures message.Err? ==> r == Step(b, c, [Error(message.message)])
    ensures message.Ok? && message.value.OtherType? ==> r == Step(b, c, [])
  {
    match message
    case Err(m) => Step(b, c, [Error(m)])
    case Ok(frame) =>
      match frame
      case StartSession(profile) => OnStartSession(b, c, profile, env)
      case AudioChunk(_) => OnAudioChunk(b, c, env)
      case TextMessage(text) => OnTextMessage(b, c, text, env)
      case GenerateWelcomeAudio(text) => OnWelcomeAudio(b, c, text, env)
      case EndSession => OnEndSession(b, c)
      case OtherType(_) => Step(b, c, [])
  }

  /** The socket closes: the current session, if any, is ended. */
  function Close(b: Backend, c: Conn): (r: Backend)
    ensures c.current.None? ==> r == b
    ensures c.current.Some? ==> r.sessions.Keys == b.sessions.Keys - {c.current.value}
    ensures r.store == b.store
  {
    OnEndSession(b, c).backend
  }

  // ---------------------------------------------------------------------------
  // Properties of the state machine

  /** A new connection on a fresh backend satisfies the invariant. */
  lemma InitialInv()
    ensures Inv(Initial, Conn(None))
  {
  }

  lemma StartKeepsInv(b: Backend, c: Conn, profile: Option<Profile>, env: Env)
    requires Inv(b, c)
    ensures Inv(OnStartSession(b, c, profile, env).backend, OnStartSession(b, c, profile, env).conn)
  {
    var cr := RealtimeService.CreateSession(b.sessions, b.store, profile, env.freshId, env.now);
    assert RealtimeService.Keyed(cr.sessions) && SessionStore.WellKeyed(cr.store);
  }

  lemma AudioKeepsInv(b: Backend, c: Conn, env: Env)
    requires Inv(b, c)
    ensures Inv(OnAudioChunk(b, c, env).backend, OnAudioChunk(b, c, env).conn)
  {
    if c.current.Some? {
      RealtimeService.AudioTurnTouchesOnlyItsSession(
        b.sessions, b.store, c.current.value, env.transcription, env.complete, env.synthesize, env.now);
    }
  }

  lemma TextKeepsInv(b: Backend, c: Conn, text: string, env: Env)
    requires Inv(b, c)
    ensures Inv(OnTextMessage(b, c, text, env).backend, OnTextMessage(b, c, text, env).conn)
  {
    if c.current.Some? {
      var id := c.current.value;
      TextService.TextTurnChangesOnlyTheConversation(b.sessions[id], text, env.complete, env.synthesize);
    }
  }

  /** Every message keeps the invariant. */
  lemma HandleKeepsInv(b: Backend, c: Conn, message: Result<ClientFrame>, env: Env)
    requires Inv(b, c)
    ensures Inv(Handle(b, c, message, env).backend, Handle(b, c, message, env).conn)
  {
    if message.Ok? {
      match message.value
      case StartSession(profile) => StartKeepsInv(b, c, profile, env);
      case AudioChunk(_) => AudioKeepsInv(b, c, env);
      case TextMessage(text) => TextKeepsInv(b, c, text, env);
      case GenerateWelcomeAudio(_) =>
      case EndSession =>
      case OtherType(_) =>
    }
  }

  /** Under the invariant a message on a live connection is always answered
      with exactly one frame, and an audio message always with a response. */
  lemma LiveConnectionIsAnswered(b: Backend, c: Conn, message: Result<ClientFrame>, env: Env)
    requires Inv(b, c) && c.current.Some?
    requires message.Ok? && (message.value.AudioChunk? || message.value.TextMessage?)
    ensures |Handle(b, c, message, env).out| == 1
    ensures message.value.AudioChunk? ==> Handle(b, c, message, env).out[0].Response?
  {
    if message.value.AudioChunk? {
      RealtimeService.AudioTurnTouchesOnlyItsSession(
        b.sessions, b.store, c.current.value, env.transcription, env.complete, env.synthesize, env.now);
      assert Handle(b, c, message, env) == OnAudioChunk(b, c, env);
    } else {
      assert Handle(b, c, message, env) == OnTextMessage(b, c, message.value.text, env);
    }
  }

  /** Without a current session, audio, text and end-session messages change
      nothing and send nothing. */
  lemma NoSessionNoEffect(b: Backend, message: Result<ClientFrame>, env: Env)
    requires message.Ok? && (message.value.AudioChunk? || message.value.TextMessage? || message.value.EndSession?)
    ensures Handle(b, Conn(None), message, env) == Step(b, Conn(None), [])
  {
  }

  /** A text turn whose completion fails changes nothing and reports the
      service's error as its one frame; the connection stays as it was. */
  lemma FailedTextTurnChangesNothing(b: Backend, c: Conn, text: string, env: Env)
    requires c.current.Some? && c.current.value in b.sessions
    requires env.complete(ChatContext.Request(b.sessions[c.current.value], text)).Err?
    ensures Handle(b, c, Ok(TextMessage(text)), env)
      == Step(b, c, [Error(env.complete(ChatContext.Request(b.sessions[c.current.value], text)).message)])
  {
    assert b.sessions[c.current.value := b.sessions[c.current.value]] == b.sessions;
  }

  /** Ending the session never removes anything from the store, so a later
      `start_session` under the same id and name can resume it while it is
      live. */
  lemma EndSessionKeepsStore(b: Backend, c: Conn, env: Env)
    ensures Handle(b, c, Ok(EndSession), env).backend.store == b.store
    ensures Close(b, c).store == b.store
  {
  }

  /** Text messages never touch the store. */
  lemma TextTurnSkipsStore(b: Backend, c: Conn, text: string, env: Env)
    ensures Handle(b, c, Ok(TextMessage(text)), env).backend.store == b.store
  {
  }
}
