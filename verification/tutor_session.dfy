/** The tutoring page of the browser client: the message list it keeps from
    the server's frames, and the gates in front of what it sends. Ids,
    timestamps and playback are display concerns and are left out. */
module TutorSession {
  import opened Wrappers
  import opened Domain
  import Text
  import Server

  /** One bubble of the chat. */
  datatype Item = Item(
    role: Role,
    text: string,
    audio: Option<string>,
    corrections: seq<Correction>,
    isWelcome: bool)

  /** The WebSocket's `readyState`, with `NoSocket` for a missing socket. */
  datatype Socket = NoSocket | Connecting | Open | Closing | Closed

  /** The list after an inbound frame, and what the page sends in reply. */
  datatype Reaction = Reaction(items: seq<Item>, sent: seq<ClientFrame>)

  function WelcomeItem(text: string): Item {
    Item(Assistant, text, None, [], true)
  }

  /** `welcome_audio`: every welcome bubble takes the audio; the rest stay. */
  function AttachWelcomeAudio(items: seq<Item>, audio: Option<string>): (r: seq<Item>)
    ensures |r| == |items|
    ensures forall i :: 0 <= i < |items| ==>
      r[i] == if items[i].isWelcome then items[i].(audio := audio) else items[i]
  {
    seq(|items|, i requires 0 <= i < |items| => if items[i].isWelcome then items[i].(audio := audio) else items[i])
  }

  /** The bubbles a reply adds: the learner's words when the reply echoes
      any, then the tutor's answer. */
  function ReplyItems(reply: Reply): (r: seq<Item>)
    ensures |r| == if reply.userTranscript.Some? && reply.userTranscript.value != "" then 2 else 1
    ensures r[|r| - 1] == Item(Assistant, reply.transcript, reply.audio, reply.corrections, false)
    ensures |r| == 2 ==> r[0] == Item(User, reply.userTranscript.value, None, [], false)
  {
    var tutor := Item(Assistant, reply.transcript, reply.audio, reply.corrections, false);
    if reply.userTranscript.Some? && reply.userTranscript.value != "" then
      [Item(User, reply.userTranscript.value, None, [], false), tutor]
    else [tutor]
  }

  /** `onmessage`: a new session replaces the list by its welcome and asks
      for the welcome's audio; welcome audio is attached to the welcome;
      a reply appends its bubbles; any other frame changes nothing. */
  function OnMessage(items: seq<Item>, frame: ServerFrame): (r: Reaction)
    ensures frame.SessionStarted? ==>
      r == Reaction([WelcomeItem(frame.welcomeMessage)], [GenerateWelcomeAudio(frame.welcomeMessage)])
    ensures frame.WelcomeAudio? ==> r.sent == [] && |r.items| == |items|
    ensures frame.Response? ==> r.sent == [] && |items| < |r.items| <= |items| + 2 && r.items[..|items|] == items
    ensures frame.Error? ==> r == Reaction(items, [])
  {
    match frame
    case SessionStarted(_, welcome) => Reaction([WelcomeItem(welcome)], [GenerateWelcomeAudio(welcome)])
    case WelcomeAudio(audio) => Reaction(AttachWelcomeAudio(items, audio), [])
    case Response(reply) => Reaction(items + ReplyItems(reply), [])
    case Error(_) => Reaction(items, [])
  }

  /** The smallest recording worth sending is one byte over this. */
  const MinRecordingBytes := 1000

  /** `onStop` then `handleAudioData`: a recording over 1000 bytes is sent as
      an audio chunk while the socket is open; the base64 text is what the
      file reader produced. */
  function ForwardRecording(size: Option<int>, socket: Socket, base64: string): (sent: seq<ClientFrame>)
    ensures sent != [] <==> size.Some? && size.value > MinRecordingBytes && socket == Open
    ensures sent != [] ==> sent == [AudioChunk(base64)]
  {
    if size.Some? && size.value > MinRecordingBytes && socket == Open then [AudioChunk(base64)] else []
  }

  /** The list, the text box, and what a submit sent. */
  datatype Composer = Composer(items: seq<Item>, input: string, sent: seq<ClientFrame>)

  /** `handleTextSubmit`: blank input or a socket that is not open does
      nothing; otherwise the untrimmed text becomes a bubble and is sent, and
      the box is cleared. */
  function SubmitText(items: seq<Item>, input: string, socket: Socket): (r: Composer)
    ensures Text.Trim(input) == [] || socket != Open ==> r == Composer(items, input, [])
    ensures Text.Trim(input) != [] && socket == Open ==>
      r == Composer(items + [Item(User, input, None, [], false)], "", [TextMessage(input)])
  {
    if Text.Trim(input) == [] || socket != Open then Composer(items, input, [])
    else Composer(items + [Item(User, input, None, [], false)], "", [TextMessage(input)])
  }

  // ---------------------------------------------------------------------------
  // Properties

  /** Welcome audio touches only welcome bubbles, and only their audio. */
  lemma WelcomeAudioTouchesOnlyWelcome(items: seq<Item>, audio: Option<string>)
    ensures var r := OnMessage(items, WelcomeAudio(audio)).items;
      forall i :: 0 <= i < |items| ==>
        && r[i].(audio := items[i].audio) == items[i]
        && (items[i].isWelcome ==> r[i].audio == audio)
        && (!items[i].isWelcome ==> r[i] == items[i])
  {
  }

  /** After a new session the list is exactly one welcome bubble. */
  lemma NewSessionShowsOnlyWelcome(items: seq<Item>, id: string, welcome: string)
    ensures var r := OnMessage(items, SessionStarted(id, welcome)).items;
      |r| == 1 && r[0].isWelcome && r[0].role == Assistant && r[0].text == welcome
  {
  }

  /** A reply with an empty transcript echo (the canned replies) adds one
      bubble; a reply that echoes the learner adds two, learner first. */
  lemma ReplyBubbles(items: seq<Item>, reply: Reply)
    ensures var r := OnMessage(items, Response(reply)).items;
      && (reply.userTranscript.None? || reply.userTranscript.value == "" ==> |r| == |items| + 1)
      && (reply.userTranscript.Some? && reply.userTranscript.value != "" ==>
            |r| == |items| + 2 && r[|items|].role == User && r[|items|].text == reply.userTranscript.value)
      && r[|r| - 1].role == Assistant && r[|r| - 1].text == reply.transcript
  {
  }

  /** The welcome round trip: the page asks for audio of exactly the welcome
      text the server announced, and once the server answers with audio the
      welcome bubble carries it. */
  lemma WelcomeRoundTrip(
    b: Server.Backend, c: Server.Conn, items: seq<Item>, id: string, welcome: string, env: Server.Env)
    requires env.synthesize(welcome).Ok?
    ensures var first := OnMessage(items, SessionStarted(id, welcome));
      && first.sent == [GenerateWelcomeAudio(welcome)]
      && var answer := Server.Handle(b, c, Ok(first.sent[0]), env);
      && answer.out == [WelcomeAudio(Some(env.synthesize(welcome).value))]
      && OnMessage(first.items, answer.out[0]).items == [WelcomeItem(welcome).(audio := Some(env.synthesize(welcome).value))]
  {
  }

  /** A submitted text is shown and sent verbatim, and a second submit of the
      cleared box does nothing. */
  lemma SubmitOnce(items: seq<Item>, input: string)
    requires Text.Trim(input) != []
    ensures var r := SubmitText(items, input, Open);
      && r.sent == [TextMessage(input)] && r.input == ""
      && SubmitText(r.items, r.input, Open) == Composer(r.items, "", [])
  {
    assert Text.Trim("") == [];
  }
}
