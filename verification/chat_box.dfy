/** The chat panel of `components/ChatBox.tsx`: asks gated on readiness, an
    append-only transcript, export and clear. `askQuestion` is an input: what
    it would return or throw for the question asked. */
module ChatBox {
  import opened Wrappers
  import Text
  import Api
  import opened Transcript

  datatype Chat = Chat(query: string, busy: bool, err: string, messages: seq<Message>)

  function Initial(): Chat {
    Chat("", false, "", [])
  }

  /** The number of sources asked for; this panel always asks for 3. */
  const AskK := 3
  const EmptyAnswer := "ERROR: Empty model response."

  /** `canAsk`, which enables the Ask button. */
  predicate CanAsk(c: Chat, ready: bool) {
    ready && !c.busy && Text.Trim(c.query) != ""
  }

  /** Typing into the input, which is disabled while not ready or busy. */
  function Type(c: Chat, ready: bool, text: string): (r: Chat)
    ensures !ready || c.busy ==> r == c
    ensures ready && !c.busy ==> r == c.(query := text)
  {
    if !ready || c.busy then c else c.(query := text)
  }

  datatype AskRequest = AskRequest(query: string, k: nat)

  /** The assistant message appended once `askQuestion` settles. */
  function AssistantReply(reply: Result<Api.AskResponse, Api.Error>): (m: Message)
    ensures m.Assistant?
    ensures reply.Success? ==>
              && m.content == reply.value.answer.GetOr(EmptyAnswer)
              && m.topScore == reply.value.topScore && m.topSources == reply.value.topSources
    ensures reply.Failure? ==> m == Assistant("ERROR: " + reply.error.message, None, None)
  {
    match reply
    case Success(r) => Assistant(r.answer.GetOr(EmptyAnswer), r.topScore, r.topSources)
    case Failure(e) => Assistant("ERROR: " + e.message, None, None)
  }

  /** The panel while the question is in flight. */
  function BeginAsk(c: Chat): (r: Chat)
    ensures r.busy && r.err == "" && r.query == ""
    ensures r.messages == c.messages + [User(Text.Trim(c.query))]
  {
    Chat("", true, "", c.messages + [User(Text.Trim(c.query))])
  }

  /** The panel after the question settles: one assistant message more, busy
      cleared, and on failure the error banner set to the message. */
  function SettleAsk(c: Chat, reply: Result<Api.AskResponse, Api.Error>): (r: Chat)
    ensures r.messages == c.messages + [AssistantReply(reply)]
    ensures !r.busy && r.query == c.query
    ensures r.err == (if reply.Success? then c.err else reply.error.message)
  {
    var after := c.(busy := false, messages := c.messages + [AssistantReply(reply)]);
    match reply
    case Success(_) => after
    case Failure(e) => after.(err := e.message)
  }

  /** The panel after `onAsk` and the request it sent, if any. */
  datatype Asked = Asked(chat: Chat, request: Option<AskRequest>)

  /** `onAsk()`: ignored unless ready, not busy and the trimmed question is
      non-empty; otherwise appends the user's trimmed question, clears the
      input, asks for 3 sources, and appends exactly one assistant message. */
  function OnAsk(c: Chat, ready: bool, reply: Result<Api.AskResponse, Api.Error>): (r: Asked)
    ensures !CanAsk(c, ready) ==> r == Asked(c, None)
    ensures CanAsk(c, ready) ==>
              && r.request == Some(AskRequest(Text.Trim(c.query), AskK))
              && r.chat.messages == c.messages + [User(Text.Trim(c.query)), AssistantReply(reply)]
              && r.chat.query == "" && !r.chat.busy
              && r.chat.err == (if reply.Success? then "" else reply.error.message)
  {
    var q := Text.Trim(c.query);
    if q == "" || !ready || c.busy then Asked(c, None)
    else
      var r := SettleAsk(BeginAsk(c), reply);
      assert r.messages == c.messages + [User(q), AssistantReply(reply)];
      Asked(r, Some(AskRequest(q, AskK)))
  }

  /** An accepted ask grows the transcript by exactly two messages and keeps
      every earlier message in place; a refused one changes nothing. */
  lemma AskAppendsTwo(c: Chat, ready: bool, reply: Result<Api.AskResponse, Api.Error>)
    ensures var r := OnAsk(c, ready, reply);
            && Extends(c.messages, r.chat.messages)
            && |r.chat.messages| == |c.messages| + (if CanAsk(c, ready) then 2 else 0)
            && !r.chat.busy == (CanAsk(c, ready) || !c.busy)
  {
  }

  /** A question of white space alone is never sent. */
  lemma BlankQuestionIgnored(c: Chat, ready: bool, reply: Result<Api.AskResponse, Api.Error>)
    requires Text.AllSpace(c.query)
    ensures OnAsk(c, ready, reply) == Asked(c, None)
  {
    Text.TrimEmptyIffAllSpace(c.query);
  }

  /** The sources and score of a reply stay attached to the one assistant
      message that answers it, and every earlier message stays in place. */
  lemma SourcesStayWithTheirAnswer(c: Chat, ready: bool, reply: Api.AskResponse)
    ensures CanAsk(c, ready) ==>
            var msgs := OnAsk(c, ready, Success(reply)).chat.messages;
            && msgs[|msgs| - 1] == Assistant(reply.answer.GetOr(EmptyAnswer), reply.topScore, reply.topSources)
            && msgs[..|c.messages|] == c.messages
  {
  }

  /** What the Export button writes: the file name, the session id and the
      transcript (the `exportedAt` clock reading is left out). */
  datatype Export = Export(fileName: string, sessionId: string, messages: seq<Message>)

  /** `exportSession()`, enabled only when there are messages. */
  function ExportSession(c: Chat, sessionId: string): (r: Option<Export>)
    ensures r.Some? <==> c.messages != []
    ensures r.Some? ==> r.value.sessionId == sessionId && r.value.messages == c.messages
                        && |r.value.messages| == |c.messages|
                        && r.value.fileName == "rag-session-" + sessionId + ".json"
  {
    if c.messages == [] then None
    else Some(Export("rag-session-" + sessionId + ".json", sessionId, c.messages))
  }

  /** The Clear button, disabled when there is nothing to clear or a question
      is in flight; otherwise it empties the transcript and nothing else. */
  function Clear(c: Chat): (r: Chat)
    ensures c.messages == [] || c.busy ==> r == c
    ensures c.messages != [] && !c.busy ==> r.messages == [] && r == c.(messages := [])
  {
    if c.messages == [] || c.busy then c else c.(messages := [])
  }

  /** Typing only edits the question: the transcript is untouched, and what
      was typed is what the next ask sends, trimmed; while the input is
      disabled the next ask sends nothing. */
  lemma TypedQuestionIsAsked(c: Chat, ready: bool, text: string, reply: Result<Api.AskResponse, Api.Error>)
    ensures Type(c, ready, text).messages == c.messages
    ensures ready && !c.busy ==>
              OnAsk(Type(c, ready, text), ready, reply).request ==
                (if Text.Trim(text) == "" then None else Some(AskRequest(Text.Trim(text), AskK)))
    ensures !ready || c.busy ==> OnAsk(Type(c, ready, text), ready, reply).request.None?
  {
  }

  /** After an accepted ask there is something to export, and it is the
      earlier transcript followed by the question and the reply. */
  lemma ExportAfterAsk(c: Chat, ready: bool, reply: Result<Api.AskResponse, Api.Error>, sessionId: string)
    ensures CanAsk(c, ready) ==>
              var e := ExportSession(OnAsk(c, ready, reply).chat, sessionId);
              && e.Some?
              && |e.value.messages| == |c.messages| + 2
              && e.value.messages[..|c.messages|] == c.messages
              && e.value.messages[|c.messages|] == User(Text.Trim(c.query))
              && e.value.messages == c.messages + [User(Text.Trim(c.query)), AssistantReply(reply)]
  {
  }

  /** The export's file name gives back the session it belongs to. */
  lemma ExportNameNamesSession(c: Chat, sessionId: string)
    ensures var e := ExportSession(c, sessionId);
            e.Some? ==> e.value.fileName[|"rag-session-"|..|e.value.fileName| - |".json"|] == sessionId
  {
  }

  /** After a clear there is nothing to export and nothing more to clear; a
      question in flight keeps its transcript. */
  lemma ClearLeavesNothingToExport(c: Chat, sessionId: string)
    ensures !c.busy ==> ExportSession(Clear(c), sessionId).None?
    ensures c.busy ==> ExportSession(Clear(c), sessionId) == ExportSession(c, sessionId)
    ensures Clear(Clear(c)) == Clear(c)
    ensures CanAsk(Clear(c), true) == CanAsk(c, true)
  {
  }
}
