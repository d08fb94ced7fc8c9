/** The status panel of `components/RoboticStatus.tsx`: a label derived from
    the last `/status` reply, refreshed on a timer while there is a session. */
module RoboticStatus {
  import opened Wrappers
  import Api
  import Session

  const CheckingLabel := "Checking session..."
  const AwaitingLabel := "Awaiting documents..."
  const ReceivedLabel := "Documents received. Build index to proceed."
  const ReadyLabel := "Ready! Ask questions with citations."

  /** The interval, in milliseconds, between two refreshes. */
  const PollMillis := 3000

  /** `label(status)`: documents are looked at before the index. */
  function Label(status: Option<Api.SessionStatus>): (l: string)
    ensures l == CheckingLabel <==> status.None?
    ensures l == AwaitingLabel <==> status.Some? && !status.value.hasDocs
    ensures l == ReceivedLabel <==> status.Some? && status.value.hasDocs && !status.value.hasIndex
    ensures l == ReadyLabel <==> status.Some? && status.value.hasDocs && status.value.hasIndex
  {
    match status
    case None => CheckingLabel
    case Some(s) =>
      if !s.hasDocs then AwaitingLabel
      else if !s.hasIndex then ReceivedLabel
      else ReadyLabel
  }

  datatype Panel = Panel(status: Option<Api.SessionStatus>, err: string)

  function Initial(): Panel {
    Panel(None, "")
  }

  /** `isReady`, which shows the "Online" badge: the index alone decides. */
  predicate IsReady(p: Panel) {
    p.status.Some? && p.status.value.hasIndex
  }

  /** The panel after `refresh()` and what it reported through
      `onReadyChange` (nothing on failure). */
  datatype Refreshed = Refreshed(panel: Panel, report: Option<bool>)

  /** `refresh()`: the error is cleared first; a reply replaces the status and
      reports whether the index exists; a failure keeps the previous status
      and shows the error's message. */
  function Refresh(p: Panel, reply: Result<Api.SessionStatus, Api.Error>): (r: Refreshed)
    ensures reply.Success? ==>
              && r.panel == Panel(Some(reply.value), "")
              && r.report == Some(reply.value.hasIndex)
              && r.report == Some(IsReady(r.panel))
    ensures reply.Failure? ==>
              && r.panel.status == p.status && r.panel.err == reply.error.message
              && r.report.None?
  {
    match reply
    case Success(s) => Refreshed(Panel(Some(s), ""), Some(s.hasIndex))
    case Failure(e) => Refreshed(p.(err := e.message), None)
  }

  /** The effect run when the session id changes: with an empty id there is
      no request and no timer; otherwise the session's status is asked for at
      once and then every `PollMillis`. */
  datatype Polling = Idle | Poll(sessionId: string, everyMillis: nat)

  function OnSession(sessionId: string): (r: Polling)
    ensures r.Idle? <==> sessionId == ""
    ensures r.Poll? ==> r.sessionId == sessionId && r.everyMillis == PollMillis
  {
    if sessionId == "" then Idle else Poll(sessionId, PollMillis)
  }

  /** The label says "Ready" only when the badge is on; the converse fails,
      because the label checks documents first. */
  lemma ReadyLabelImpliesReady(p: Panel)
    ensures Label(p.status) == ReadyLabel ==> IsReady(p)
    ensures IsReady(p) && !p.status.value.hasDocs ==> Label(p.status) == AwaitingLabel
  {
  }

  /** A failed refresh never loses a status already shown. */
  lemma FailureKeepsLabel(p: Panel, e: Api.Error)
    ensures Label(Refresh(p, Failure(e)).panel.status) == Label(p.status)
    ensures IsReady(Refresh(p, Failure(e)).panel) == IsReady(p)
  {
  }

  /** Every id a session source hands out starts polling: a generated
      `session-…` id, and any id the browser's session store returns. Only the
      server-side render's empty id leaves the panel idle. */
  lemma IssuedSessionsPoll(nowMillis: nat, suffix: string, env: Session.Env, uuid: Session.Uuid)
    ensures var id := Api.GenerateSessionId(nowMillis, suffix);
            OnSession(id) == Poll(id, PollMillis)
    ensures env.Browser? ==>
              var id := Session.GetOrCreateSessionId(env, uuid).id;
              OnSession(id) == Poll(id, PollMillis)
    ensures env.Server? ==> OnSession(Session.GetOrCreateSessionId(env, uuid).id) == Idle
  {
    if env.Browser? {
      Session.BrowserIdNonEmpty(env, uuid);
    }
  }
}
