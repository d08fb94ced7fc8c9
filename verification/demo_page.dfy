/** The page controller of `components/rag/RagDemoPage.tsx`: the
    welcome → pipeline → final view machine, the session id it hands down, and
    the statistics shown on the final view. */
module DemoPage {
  import opened Wrappers
  import Text
  import Api
  import Pipeline
  import RoboticStatus

  datatype View = Welcome | PipelineView | Final

  datatype Stats = Stats(documents: nat, hasIndex: bool, hasDocs: bool)

  datatype Page = Page(view: View, sessionId: string, stats: Stats, showFinalBubble: bool)

  const NoStats := Stats(0, false, false)

  /** The page as mounted; the session id is the one `generateSessionId`
      produces from the clock reading and random suffix it is given. */
  function Initial(nowMillis: nat, randomSuffix: string): (p: Page)
    ensures p.view == Welcome && p.stats == NoStats && !p.showFinalBubble
    ensures Text.StartsWith(p.sessionId, "session-") && Text.EndsWith(p.sessionId, randomSuffix)
  {
    Page(Welcome, Api.GenerateSessionId(nowMillis, randomSuffix), NoStats, false)
  }

  /** `fetchStats`: both replies are needed (`Promise.all`); on success the
      file count and the two flags are taken from them, on any failure the
      statistics stay as they were. */
  function FetchStats(stats: Stats, status: Result<Api.SessionStatus, Api.Error>,
                      files: Result<Api.SessionFiles, Api.Error>): (r: Stats)
    ensures status.Success? && files.Success? ==>
              r == Stats(|files.value.files|, status.value.hasIndex, status.value.hasDocs)
    ensures status.Failure? || files.Failure? ==> r == stats
  {
    if status.Success? && files.Success? then
      Stats(|files.value.files|, status.value.hasIndex, status.value.hasDocs)
    else stats
  }

  /** What can happen to the page. The pipeline board talks to it through its
      signals; the two replies of a completion are those of the statistics
      fetch that entering the final view starts. */
  datatype Event =
    | StartClicked
    | BoardSignal(signal: Pipeline.Signal,
                  status: Result<Api.SessionStatus, Api.Error>,
                  files: Result<Api.SessionFiles, Api.Error>)
    | BubbleDue

  /** The page after an event and the session whose statistics it asked for,
      if it asked. */
  datatype Stepped = Stepped(page: Page, statsFor: Option<string>)

  /** One event. The welcome screen's Start button exists only on the welcome
      view and the board only on the pipeline view, so their events change
      nothing elsewhere; the delayed bubble is only shown on the final view. */
  function Step(p: Page, e: Event): (r: Stepped)
    ensures r.page.view != p.view ==>
              (p.view == Welcome && r.page.view == PipelineView && e.StartClicked?) ||
              (p.view == PipelineView && r.page.view == Final && e.BoardSignal? && e.signal.Complete?)
    ensures r.statsFor.Some? <==> p.view != Final && r.page.view == Final
    ensures r.statsFor.Some? ==> r.statsFor.value == p.sessionId
    ensures r.page.stats != p.stats ==> r.statsFor.Some?
    ensures r.page.sessionId != p.sessionId ==>
              p.view == PipelineView && e.BoardSignal? && e.signal.SessionReset? &&
              r.page.sessionId == e.signal.newSessionId
  {
    match e
    case StartClicked =>
      if p.view == Welcome then Stepped(p.(view := PipelineView), None) else Stepped(p, None)
    case BoardSignal(signal, status, files) =>
      if p.view != PipelineView then Stepped(p, None)
      else (
        match signal
        case Quiet => Stepped(p, None)
        case Complete =>
          Stepped(p.(view := Final, stats := FetchStats(p.stats, status, files)), Some(p.sessionId))
        case SessionReset(id) => Stepped(p.(sessionId := id), None))
    case BubbleDue =>
      if p.view == Final then Stepped(p.(showFinalBubble := true), None) else Stepped(p, None)
  }

  /** The views are visited in order and never left backwards. */
  function Rank(v: View): nat {
    match v
    case Welcome => 0
    case PipelineView => 1
    case Final => 2
  }

  lemma ViewsOnlyMoveForward(p: Page, e: Event)
    ensures Rank(Step(p, e).page.view) == Rank(p.view) ||
            Rank(Step(p, e).page.view) == Rank(p.view) + 1
  {
  }

  /** A session reset from the board replaces the id with the one supplied
      and changes nothing else. */
  lemma SessionResetReplacesId(p: Page, id: string, status: Result<Api.SessionStatus, Api.Error>,
                               files: Result<Api.SessionFiles, Api.Error>)
    requires p.view == PipelineView
    ensures Step(p, BoardSignal(Pipeline.SessionReset(id), status, files)).page == p.(sessionId := id)
  {
  }

  /** The pipeline's own start-over reaches the page as the new id it made. */
  lemma StartOverReachesPage(p: Page, b: Pipeline.Board, nowMillis: nat, suffix: string,
                             status: Result<Api.SessionStatus, Api.Error>,
                             files: Result<Api.SessionFiles, Api.Error>)
    requires p.view == PipelineView
    ensures var id := Api.GenerateSessionId(nowMillis, suffix);
            Step(p, BoardSignal(Pipeline.StartOver(b, nowMillis, suffix).1, status, files)).page
              == p.(sessionId := id)
  {
  }

  /* ---------------- the three cards ---------------- */

  /** The Documents card: the file count in decimal. */
  function DocumentsCard(s: Stats): (t: string)
    ensures t != [] && forall i :: 0 <= i < |t| ==> Text.IsDigit(t[i])
    ensures Text.DecimalValue(t) == s.documents
  {
    Text.DecimalRoundTrip(s.documents);
    Text.Decimal(s.documents)
  }

  function IndexCard(s: Stats): (t: string)
    ensures t == "Built" <==> s.hasIndex
    ensures t == "Pending" <==> !s.hasIndex
  {
    if s.hasIndex then "Built" else "Pending"
  }

  function SystemCard(s: Stats): (t: string)
    ensures t == "Ready" <==> s.hasDocs && s.hasIndex
    ensures t == "Pending" <==> !(s.hasDocs && s.hasIndex)
  {
    if s.hasDocs && s.hasIndex then "Ready" else "Pending"
  }

  /** On the initial statistics every card reads as not ready. */
  lemma InitialCards()
    ensures DocumentsCard(NoStats) == "0" && IndexCard(NoStats) == "Pending" && SystemCard(NoStats) == "Pending"
  {
    assert Text.Decimal(0) == "0";
  }

  /** Fetching again with the same replies changes nothing. */
  lemma FetchStatsIdempotent(stats: Stats, status: Result<Api.SessionStatus, Api.Error>,
                             files: Result<Api.SessionFiles, Api.Error>)
    ensures FetchStats(FetchStats(stats, status, files), status, files) == FetchStats(stats, status, files)
  {
  }

  /** Entering the final view shows the replies on the cards: the Documents
      card reads back to the number of files listed, the Index card follows
      `has_index`, and the System card reads Ready exactly when the status
      panel's label for the same reply does; a failed fetch leaves all three
      cards as they were. */
  lemma FinalCardsShowReplies(p: Page, status: Result<Api.SessionStatus, Api.Error>,
                              files: Result<Api.SessionFiles, Api.Error>)
    requires p.view == PipelineView
    ensures var q := Step(p, BoardSignal(Pipeline.Complete, status, files)).page;
            status.Success? && files.Success? ==>
              && Text.DecimalValue(DocumentsCard(q.stats)) == |files.value.files|
              && (IndexCard(q.stats) == "Built" <==> status.value.hasIndex)
              && (SystemCard(q.stats) == "Ready" <==>
                    RoboticStatus.Label(Some(status.value)) == RoboticStatus.ReadyLabel)
    ensures var q := Step(p, BoardSignal(Pipeline.Complete, status, files)).page;
            status.Failure? || files.Failure? ==>
              && DocumentsCard(q.stats) == DocumentsCard(p.stats)
              && IndexCard(q.stats) == IndexCard(p.stats)
              && SystemCard(q.stats) == SystemCard(p.stats)
  {
  }

  /** The System card is never ahead of the Index card. */
  lemma SystemReadyNeedsIndex(s: Stats)
    ensures SystemCard(s) == "Ready" ==> IndexCard(s) == "Built"
    ensures IndexCard(s) == "Pending" ==> SystemCard(s) == "Pending"
  {
  }
}
