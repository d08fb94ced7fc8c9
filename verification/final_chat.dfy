/** The question panel of the last pipeline view,
    `components/rag/FinalChatPanel.tsx`. Unlike the chat box it has no
    readiness gate, asks for a user-chosen number of sources, and falls back
    on empty strings (JavaScript `||`) rather than only on missing values. */
module FinalChat {
  import opened Wrappers
  import Text
  import Api
  import opened Transcript

  datatype Panel = Panel(query: string, messages: seq<Message>, loading: bool, topK: nat, error: string)

  /** The three choices of the "Results" selector. */
  datatype TopKChoice = Top3 | Top5 | Top10

  /** The number of sources each option asks for: `Number(e.target.value)`
      of the option's value. */
  function KValue(c: TopKChoice): (k: nat)
    ensures k in {3, 5, 10}
    ensures k == 3 <==> c == Top3
    ensures k == 5 <==> c == Top5
    ensures k == 10 <==> c == Top10
  {
    match c
    case Top3 => 3
    case Top5 => 5
    case Top10 => 10
  }

  /** The panel as first shown: five sources selected. */
  function Initial(): (p: Panel)
    ensures p.topK == KValue(Top5) && p.messages == [] && !p.loading
  {
    Panel("", [], false, 5, "")
  }

  function SetTopK(p: Panel, c: TopKChoice): (r: Panel)
    ensures r == p.(topK := KValue(c))
    ensures r.topK in {3, 5, 10}
  {
    p.(topK := KValue(c))
  }

  /** The selector offers exactly 3, 5 and 10, each through one option. */
  lemma KValueOffersThree(k: nat)
    ensures k in {3, 5, 10} <==> exists c :: KValue(c) == k
    ensures forall c, d :: KValue(c) == KValue(d) ==> c == d
  {
    if k == 3 { assert KValue(Top3) == k; }
    if k == 5 { assert KValue(Top5) == k; }
    if k == 10 { assert KValue(Top10) == k; }
  }

  const NoAnswer := "No answer received from the API."
  const QueryFailed := "Query failed"
  const ErrorAdvice := ". Please make sure documents are uploaded and the index is built."

  /** `handleSend`'s guard, which is also what the Send button and the Enter
      key test. */
  predicate CanSend(p: Panel) {
    Text.Trim(p.query) != "" && !p.loading
  }

  /** The text shown in the error banner for a thrown error: its message, or
      "Query failed" when that is empty. */
  function ErrorText(e: Api.Error): (t: string)
    ensures t != []
    ensures e.message != [] ==> t == e.message
    ensures e.message == [] ==> t == QueryFailed
  {
    Text.OrElse(e.message, QueryFailed)
  }

  /** The assistant message for a settled `askQuestion`. A successful reply
      shows the answer, else the echoed query, else a fixed notice; a missing
      and an empty string are treated alike. */
  function AssistantReply(reply: Result<Api.AskResponse, Api.Error>): (m: Message)
    ensures m.Assistant? && m.content != []
    ensures reply.Success? ==>
              var a := reply.value.answer.GetOr("");
              var q := reply.value.query.GetOr("");
              && (a != [] ==> m.content == a)
              && (a == [] && q != [] ==> m.content == q)
              && (a == [] && q == [] ==> m.content == NoAnswer)
              && m.topScore == reply.value.topScore && m.topSources == reply.value.topSources
    ensures reply.Failure? ==>
              m == Assistant("ERROR: " + ErrorText(reply.error) + ErrorAdvice, None, None)
  {
    match reply
    case Success(r) =>
      Assistant(Text.OrElse(r.answer.GetOr(""), Text.OrElse(r.query.GetOr(""), NoAnswer)),
                r.topScore, r.topSources)
    case Failure(e) =>
      Assistant("ERROR: " + ErrorText(e) + ErrorAdvice, None, None)
  }

  datatype AskRequest = AskRequest(query: string, k: nat)
  datatype Sent = Sent(panel: Panel, request: Option<AskRequest>)

  /** `handleSend()`: ignored while loading or when the trimmed question is
      empty; otherwise appends the question and exactly one reply, asks for
      the selected number of sources, and ends not loading. */
  function Send(p: Panel, reply: Result<Api.AskResponse, Api.Error>): (r: Sent)
    ensures !CanSend(p) ==> r == Sent(p, None)
    ensures CanSend(p) ==>
              && r.request == Some(AskRequest(Text.Trim(p.query), p.topK))
              && r.panel.messages == p.messages + [User(Text.Trim(p.query)), AssistantReply(reply)]
              && r.panel.query == "" && !r.panel.loading && r.panel.topK == p.topK
              && r.panel.error == (if reply.Success? then "" else ErrorText(reply.error))
  {
    var q := Text.Trim(p.query);
    if q == "" || p.loading then Sent(p, None)
    else
      var error := if reply.Success? then "" else ErrorText(reply.error);
      Sent(Panel("", p.messages + [User(q), AssistantReply(reply)], false, p.topK, error),
           Some(AskRequest(q, p.topK)))
  }

  /** Sending only ever appends, two messages at a time. */
  lemma SendAppendsTwo(p: Panel, reply: Result<Api.AskResponse, Api.Error>)
    ensures var r := Send(p, reply);
            && Extends(p.messages, r.panel.messages)
            && |r.panel.messages| == |p.messages| + (if CanSend(p) then 2 else 0)
  {
  }

  /** After any accepted send the banner and the transcript agree: the banner
      is empty exactly when the last message is not an error report. */
  lemma ErrorBannerMatchesLastMessage(p: Panel, reply: Result<Api.AskResponse, Api.Error>)
    ensures CanSend(p) ==>
            var r := Send(p, reply).panel;
            && (r.error == "" <==> reply.Success?)
            && (reply.Failure? ==> Text.StartsWith(r.messages[|r.messages| - 1].content, "ERROR: " + r.error))
  {
    if CanSend(p) && reply.Failure? {
      var c := "ERROR: " + ErrorText(reply.error) + ErrorAdvice;
      assert c[..|"ERROR: " + ErrorText(reply.error)|] == "ERROR: " + ErrorText(reply.error);
    }
  }

  /** The choice in the selector is what the next accepted send asks for,
      and choosing changes neither the transcript nor whether a send is
      accepted. */
  lemma TopKReachesRequest(p: Panel, c: TopKChoice, reply: Result<Api.AskResponse, Api.Error>)
    ensures CanSend(SetTopK(p, c)) == CanSend(p)
    ensures SetTopK(p, c).messages == p.messages
    ensures Send(SetTopK(p, c), reply).request.Some? ==> Send(SetTopK(p, c), reply).request.value.k == KValue(c)
    ensures Send(SetTopK(p, c), reply).request.Some? <==> CanSend(p)
  {
  }

  /** An empty answer falls through to the echoed query. */
  lemma EmptyAnswerShowsQuery(question: string)
    requires question != []
    ensures AssistantReply(Success(Api.AskResponse(Some(question), Some(""), None, None))).content == question
  {
  }
}
