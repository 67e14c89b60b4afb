/** What both turn services share: the look-back window of recent
    conversation entries sent with each generation request, and the way a
    completed turn is recorded. */
module ChatContext {
  import opened Domain

  /** How many of the latest conversation entries accompany a request. */
  const LookBack := 10

  /** `conversation.slice(-10)`: the latest `min(10, |c|)` entries, in order. */
  function Window(c: seq<Message>): (r: seq<Message>)
    ensures |r| == if |c| < LookBack then |c| else LookBack
    ensures forall i :: 0 <= i < |r| ==> r[i] == c[|c| - |r| + i]
  {
    if |c| <= LookBack then c else c[|c| - LookBack..]
  }

  /** The chat request for a new user turn: the session's system prompt, the
      window of its history, then the user's text. */
  function Request(s: Session, text: string): (r: ChatRequest)
    ensures r.system == s.systemPrompt && r.user == Message(User, text)
    ensures |r.history| <= LookBack && r.history == Window(s.conversation)
  {
    ChatRequest(s.systemPrompt, Window(s.conversation), Message(User, text))
  }

  /** A completed turn: the user's text, then the assistant's reply. */
  function RecordTurn(c: seq<Message>, userText: string, reply: string): (r: seq<Message>)
    ensures |r| == |c| + 2 && r[..|c|] == c
    ensures r[|c|] == Message(User, userText) && r[|c| + 1] == Message(Assistant, reply)
  {
    c + [Message(User, userText), Message(Assistant, reply)]
  }

  /** A short history is sent whole. */
  lemma ShortHistorySentWhole(c: seq<Message>)
    requires |c| <= LookBack
    ensures Window(c) == c
  {
  }

  /** After a recorded turn the next request's window ends with that turn,
      and the window is the latest ten entries once the history is long. */
  lemma NextWindowEndsWithTurn(c: seq<Message>, userText: string, reply: string)
    ensures var w := Window(RecordTurn(c, userText, reply));
      |w| >= 2 && w[|w| - 2] == Message(User, userText) && w[|w| - 1] == Message(Assistant, reply)
  {
  }

  /** The window of a longer history is a suffix of ten entries that drops
      exactly the older ones. */
  lemma {:induction false} WindowOfExtension(c: seq<Message>, m: Message)
    requires |c| >= LookBack
    ensures Window(c + [m]) == Window(c)[1..] + [m]
  {
    var w, w1 := Window(c), Window(c + [m]);
    assert |w1| == LookBack && |w| == LookBack;
    forall i | 0 <= i < LookBack
      ensures w1[i] == (w[1..] + [m])[i]
    {
      if i < LookBack - 1 {
        assert w1[i] == (c + [m])[|c| + 1 - LookBack + i];
        assert w[i + 1] == c[|c| - LookBack + i + 1];
      }
    }
  }
}
