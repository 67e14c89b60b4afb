/** `TextService.processText`: a typed learner turn on a session value. It
    makes no call on the store and, unlike the audio turn, lets a failure of
    the completion or speech service escape to its caller. */
module TextService {
  import opened Wrappers
  import opened Domain
  import ChatContext
  import Corrections

  /** The session after the turn, and the reply or the escaping error. */
  datatype TextTurn = TextTurn(session: Session, outcome: Result<Reply>)

  /** `processText(session, text)`: ask for the completion with the recent
      history; on success record the turn, then synthesize the reply. */
  function ProcessText(
    session: Session, text: string,
    complete: ChatRequest -> Result<string>, synthesize: string -> Result<string>): (r: TextTurn)
    ensures complete(ChatContext.Request(session, text)).Err? ==>
      r == TextTurn(session, Err(complete(ChatContext.Request(session, text)).message))
    ensures complete(ChatContext.Request(session, text)).Ok? ==>
      var reply := complete(ChatContext.Request(session, text)).value;
      && r.session == session.(conversation := ChatContext.RecordTurn(session.conversation, text, reply))
      && (synthesize(reply).Err? ==> r.outcome == Err(synthesize(reply).message))
      && (synthesize(reply).Ok? ==>
            r.outcome == Ok(Reply(TextResponse, Some(synthesize(reply).value), reply, None, Corrections.Extract(reply))))
  {
    match complete(ChatContext.Request(session, text))
    case Err(e) => TextTurn(session, Err(e))
    case Ok(reply) =>
      var recorded := session.(conversation := ChatContext.RecordTurn(session.conversation, text, reply));
      match synthesize(reply)
      case Err(e) => TextTurn(recorded, Err(e))
      case Ok(audio) => TextTurn(recorded, Ok(Reply(TextResponse, Some(audio), reply, None, Corrections.Extract(reply))))
  }

  /** Only the conversation can change, and only by exactly one recorded turn
      whose reply is the one sent back. */
  lemma TextTurnChangesOnlyTheConversation(
    session: Session, text: string,
    complete: ChatRequest -> Result<string>, synthesize: string -> Result<string>)
    ensures var r := ProcessText(session, text, complete, synthesize);
      && r.session.(conversation := session.conversation) == session
      && (r.session == session || |r.session.conversation| == |session.conversation| + 2)
      && (r.outcome.Ok? ==>
            r.session.conversation == ChatContext.RecordTurn(session.conversation, text, r.outcome.value.transcript))
  {
  }

  /** A successful turn was recorded, and a turn that left the session as it
      was failed. */
  lemma SuccessIsRecorded(
    session: Session, text: string,
    complete: ChatRequest -> Result<string>, synthesize: string -> Result<string>)
    ensures var r := ProcessText(session, text, complete, synthesize);
      r.session == session ==> r.outcome.Err?
  {
    var r := ProcessText(session, text, complete, synthesize);
    if complete(ChatContext.Request(session, text)).Ok? {
      assert |r.session.conversation| == |session.conversation| + 2;
    }
  }
}
