/** The records the tutor passes around: conversation entries, learner
    profiles, sessions, assistant replies and the frames of the WebSocket
    protocol between the browser and the backend. */
module Domain {
  import opened Wrappers

  datatype Role = User | Assistant

  /** One conversation entry, `{role, content}`. */
  datatype Message = Message(role: Role, content: string)

  /** The learner profile a client sends with `start_session`; a field that is
      missing, `null` or `NaN` is `None`. */
  datatype Profile = Profile(name: Option<string>, age: Option<int>)

  /** The age bands that choose the tutor's persona and exercise guidance. */
  datatype Band = Children | Teenagers | YoungAdults | Adults | Seniors | Fallback

  /** The system prompt, kept abstract: the fixed French-teacher text is the
      same for everybody, so a prompt is determined by the name and age it
      quotes and by the band whose ruleset it embeds. */
  datatype SystemPrompt = SystemPrompt(name: string, age: int, band: Band)

  /** A tutoring session as the realtime service creates it. */
  datatype Session = Session(
    id: string,
    profile: Profile,
    systemPrompt: SystemPrompt,
    conversation: seq<Message>,
    startTime: int)

  /** `{type: 'correction', correct}`; the type tag is always the same. */
  datatype Correction = Correction(correct: string)

  datatype ReplyKind = AudioResponse | TextResponse

  /** An assistant turn as sent to the browser (`audio_response` or
      `text_response`); `audio` and `userTranscript` are `None` when the
      object has no such key or holds `null`. */
  datatype Reply = Reply(
    kind: ReplyKind,
    audio: Option<string>,
    transcript: string,
    userTranscript: Option<string>,
    corrections: seq<Correction>)

  /** The message list handed to the chat-completion service: the system
      prompt, the recent history, then the new user turn. */
  datatype ChatRequest = ChatRequest(system: SystemPrompt, history: seq<Message>, user: Message)

  /** Frames the browser sends, as the server reads their `type`. */
  datatype ClientFrame =
    | StartSession(profile: Option<Profile>)
    | GenerateWelcomeAudio(text: string)
    | AudioChunk(audio: string)
    | TextMessage(text: string)
    | EndSession
    | OtherType(name: string)

  /** Frames the server sends. */
  datatype ServerFrame =
    | SessionStarted(sessionId: string, welcomeMessage: string)
    | WelcomeAudio(audio: Option<string>)
    | Response(reply: Reply)
    | Error(message: string)
}
