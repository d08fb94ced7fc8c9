/** The three-stage wizard of `components/rag/PipelineBoardV2.tsx`: stage 0
    uploads a document, stage 1 builds the index, stage 2 enters the chat.

    Each handler is a pure transition on the board state. Calls into the
    backend client are inputs (what `getStatus`, `buildIndex` and
    `uploadDocuments` returned or threw); what the board asks of its parent
    (`onComplete`, `onSessionReset`) is an output signal. Animation state
    (robot position and mode, narration, timers) is left out, and each
    handler runs to completion before the next event. */
module Pipeline {
  import opened Wrappers
  import Text
  import Api

  datatype StageStatus = Pending | Active | Processing | Done

  const StageCount := 3

  datatype Board = Board(statuses: seq<StageStatus>, activeStage: nat, error: string, uploadOpen: bool)

  /** What a handler asks of the parent page. */
  datatype Signal = Quiet | Complete | SessionReset(newSessionId: string)

  const InitialStatuses := [Active, Pending, Pending]

  function Initial(): Board {
    Board(InitialStatuses, 0, "", false)
  }

  predicate WellFormed(b: Board) {
    |b.statuses| == StageCount && b.activeStage < StageCount
  }

  const NoDocumentsHead := "No documents"
  const NoDocumentsMessage := NoDocumentsHead + " uploaded yet. Please upload documents first (Stage 1)."
  const UploadFailedDefault := "Upload failed"
  const StageFailedDefault := "An error occurred during processing"

  /** Copy the statuses and change the one at index `i`. */
  function SetStatus(ss: seq<StageStatus>, i: nat, v: StageStatus): (r: seq<StageStatus>)
    requires i < |ss|
    ensures |r| == |ss| && r[i] == v
    ensures forall j :: 0 <= j < |ss| && j != i ==> r[j] == ss[j]
  {
    ss[i := v]
  }

  /** `advanceToNextStage`: make the stage after the active one active, unless
      the active stage is the last. */
  function Advance(b: Board): (r: Board)
    requires WellFormed(b)
    ensures WellFormed(r)
    ensures b.activeStage + 1 >= StageCount ==> r == b
    ensures b.activeStage + 1 < StageCount ==>
              && r.activeStage == b.activeStage + 1
              && r.statuses[r.activeStage] == Active
              && (forall j :: 0 <= j < StageCount && j != r.activeStage ==> r.statuses[j] == b.statuses[j])
              && r.error == b.error && r.uploadOpen == b.uploadOpen
  {
    var next := b.activeStage + 1;
    if next >= StageCount then b
    else b.(activeStage := next, statuses := SetStatus(b.statuses, next, Active))
  }

  /** `handleUpload(files)`: close the dialog, mark stage 0 processing, then on
      success mark it done and advance; on failure record the message (or
      "Upload failed" when it is empty) and demote stage 0 to active. The
      error banner is not cleared first. */
  function HandleUpload(b: Board, upload: Outcome<Api.Error>): (r: Board)
    requires WellFormed(b)
    ensures WellFormed(r) && !r.uploadOpen
    ensures upload.Pass? ==> r == Advance(b.(uploadOpen := false, statuses := SetStatus(b.statuses, 0, Done)))
    ensures upload.Fail? ==>
              && r.statuses == SetStatus(b.statuses, 0, Active)
              && r.activeStage == b.activeStage
              && r.error == Text.OrElse(upload.error.message, UploadFailedDefault)
  {
    var begun := b.(uploadOpen := false, statuses := SetStatus(b.statuses, 0, Processing));
    match upload
    case Pass => Advance(begun.(statuses := SetStatus(begun.statuses, 0, Done)))
    case Fail(e) =>
      begun.(error := Text.OrElse(e.message, UploadFailedDefault), statuses := SetStatus(begun.statuses, 0, Active))
  }

  /** What stage 1 did: whether `buildIndex` was called, and how it ended. */
  datatype Stage1Run = Stage1Run(buildInvoked: bool, outcome: Outcome<Api.Error>)

  /** Stage 1's work: check `has_docs` first; a report of no documents ends
      the stage without building, and so does a failed check whose message
      mentions "No documents"; any other failed check is ignored and the
      build goes ahead. */
  function Stage1(status: Result<Api.SessionStatus, Api.Error>,
                  build: Result<Api.BuildReply, Api.Error>): (r: Stage1Run)
    ensures status.Success? && !status.value.hasDocs ==>
              r == Stage1Run(false, Fail(Api.Thrown(NoDocumentsMessage)))
    ensures status.Success? && status.value.hasDocs ==> r == Stage1Run(true, build.ToOutcome())
    ensures status.Failure? ==>
              r == if Text.Contains(status.error.message, NoDocumentsHead)
                   then Stage1Run(false, Fail(status.error))
                   else Stage1Run(true, build.ToOutcome())
  {
    var check: Outcome<Api.Error> :=
      match status
      case Success(s) => if !s.hasDocs then Fail(Api.Thrown(NoDocumentsMessage)) else Pass
      case Failure(e) => Fail(e);
    match check
    case Pass => Stage1Run(true, build.ToOutcome())
    case Fail(e) =>
      if Text.Contains(e.message, NoDocumentsHead) then Stage1Run(false, Fail(e))
      else Stage1Run(true, build.ToOutcome())
  }

  /** The board right after `handleStageAction(i)` starts work on a stage
      other than 0: the error is cleared and stage `i` is processing. */
  function BeginStage(b: Board, i: nat): (r: Board)
    requires WellFormed(b) && 1 <= i < StageCount
    ensures WellFormed(r) && r.error == ""
    ensures r.statuses[i] == Processing
    ensures forall j :: 0 <= j < StageCount && j != i ==> r.statuses[j] == b.statuses[j]
    ensures r.activeStage == b.activeStage && r.uploadOpen == b.uploadOpen
  {
    b.(error := "", statuses := SetStatus(b.statuses, i, Processing))
  }

  /** How `handleStageAction(i)` ends: on success stage `i` is done and the
      board advances, or signals completion after the last stage; on failure
      stage `i` is demoted to active and the message (or the default) shown. */
  function SettleStage(b: Board, i: nat, outcome: Outcome<Api.Error>): (r: (Board, Signal))
    requires WellFormed(b) && i < StageCount
    ensures WellFormed(r.0)
    ensures outcome.Pass? && i + 1 < StageCount ==>
              r == (Advance(b.(statuses := SetStatus(b.statuses, i, Done))), Quiet)
    ensures outcome.Pass? && i + 1 >= StageCount ==>
              r == (b.(statuses := SetStatus(b.statuses, i, Done)), Complete)
    ensures outcome.Fail? ==>
              && r.1 == Quiet
              && r.0.statuses == SetStatus(b.statuses, i, Active)
              && r.0.activeStage == b.activeStage && r.0.uploadOpen == b.uploadOpen
              && r.0.error == Text.OrElse(outcome.error.message, StageFailedDefault)
  {
    match outcome
    case Pass =>
      var done := b.(statuses := SetStatus(b.statuses, i, Done));
      if i + 1 < StageCount then (Advance(done), Quiet) else (done, Complete)
    case Fail(e) =>
      (b.(error := Text.OrElse(e.message, StageFailedDefault), statuses := SetStatus(b.statuses, i, Active)), Quiet)
  }

  /** A handler's result: the new board, the signal to the parent, and
      whether `buildIndex` was called. */
  datatype Run = Run(board: Board, signal: Signal, buildInvoked: bool)

  /** `handleStageAction(i)`. Stage 0 only opens the upload dialog. Stage 1
      runs the `has_docs` check and the build; stage 2 only waits. `status`
      and `build` are what `getStatus` and `buildIndex` would return or
      throw; only stage 1 consults them. */
  function StageAction(b: Board, i: nat, status: Result<Api.SessionStatus, Api.Error>,
                       build: Result<Api.BuildReply, Api.Error>): (r: Run)
    requires WellFormed(b) && i < StageCount
    ensures WellFormed(r.board)
    ensures i == 0 ==> r == Run(b.(uploadOpen := true), Quiet, false)
    ensures r.buildInvoked ==> i == 1
    ensures i >= 1 ==> r.board.uploadOpen == b.uploadOpen
    ensures i >= 1 && r.board.error != "" ==> r.board.statuses[i] == Active
    ensures r.signal == Complete ==> i == StageCount - 1 && r.board.statuses[i] == Done
  {
    if i == 0 then Run(b.(uploadOpen := true), Quiet, false)
    else
      var run := if i == 1 then Stage1(status, build) else Stage1Run(false, Pass);
      var (after, signal) := SettleStage(BeginStage(b, i), i, run.outcome);
      Run(after, signal, run.buildInvoked)
  }

  /** If the status check reports no documents, the build is never called and
      the "No documents uploaded yet" message is shown on a re-activated
      stage 1. */
  lemma NoDocumentsSkipsBuild(b: Board, s: Api.SessionStatus, build: Result<Api.BuildReply, Api.Error>)
    requires WellFormed(b) && !s.hasDocs
    ensures var r := StageAction(b, 1, Success(s), build);
            !r.buildInvoked && r.board.error == NoDocumentsMessage && r.board.statuses[1] == Active
            && r.signal == Quiet
  {
  }

  /** A status check that fails for any reason not mentioning "No documents"
      does not stop the build. */
  lemma FailedCheckStillBuilds(b: Board, e: Api.Error, build: Result<Api.BuildReply, Api.Error>)
    requires WellFormed(b) && !Text.Contains(e.message, NoDocumentsHead)
    ensures StageAction(b, 1, Failure(e), build).buildInvoked
  {
  }

  /** A successful stage 1 marks it done and activates stage 2 when stage 1 is
      the active stage. */
  lemma BuildSuccessAdvances(b: Board, s: Api.SessionStatus, v: Api.BuildReply)
    requires WellFormed(b) && b.activeStage == 1 && s.hasDocs
    ensures var r := StageAction(b, 1, Success(s), Success(v));
            r.buildInvoked && r.board.statuses[1] == Done && r.board.statuses[2] == Active
            && r.board.activeStage == 2 && r.board.error == "" && r.signal == Quiet
  {
  }

  /** A thrown build error is shown verbatim and stage 1 goes back to active. */
  lemma BuildFailureDemotes(b: Board, s: Api.SessionStatus, e: Api.Error)
    requires WellFormed(b) && s.hasDocs && e.message != ""
    ensures var r := StageAction(b, 1, Success(s), Failure(e));
            r.buildInvoked && r.board.statuses[1] == Active && r.board.error == e.message
            && r.board.activeStage == b.activeStage && r.signal == Quiet
  {
  }

  /** The START OVER button: generate `"session-<now>-<suffix>"`, hand it to the
      parent, and put the wizard back to its initial state with the error
      cleared. The upload dialog is left as it was. */
  function StartOver(b: Board, nowMillis: nat, randomSuffix: string): (r: (Board, Signal))
    ensures r.0 == Initial().(uploadOpen := b.uploadOpen)
    ensures r.1.SessionReset? && Text.StartsWith(r.1.newSessionId, "session-")
    ensures r.1.newSessionId == Api.GenerateSessionId(nowMillis, randomSuffix)
  {
    (Board(InitialStatuses, 0, "", b.uploadOpen), SessionReset(Api.GenerateSessionId(nowMillis, randomSuffix)))
  }

  /* ---------------- the wizard as an event-driven machine ---------------- */

  datatype Event =
    | StageButton(stage: nat, status: Result<Api.SessionStatus, Api.Error>, build: Result<Api.BuildReply, Api.Error>)
    | DialogUpload(upload: Outcome<Api.Error>)
    | DialogClose
    | DismissError
    | Retry(retryStatus: Result<Api.SessionStatus, Api.Error>, retryBuild: Result<Api.BuildReply, Api.Error>)
    | StartOverButton(nowMillis: nat, randomSuffix: string)

  /** Which events the rendered board can deliver: a stage's action button
      exists only on the expanded card, which is the one at the active index,
      and only while that stage's status is active; the error banner's buttons
      only while there is an error; the dialog's buttons only while it is open,
      and its full-screen overlay covers everything else. */
  predicate Enabled(b: Board, e: Event)
    requires WellFormed(b)
  {
    match e
    case StageButton(i, _, _) => !b.uploadOpen && i == b.activeStage && b.statuses[i] == Active
    case DialogUpload(_) => b.uploadOpen
    case DialogClose => b.uploadOpen
    case DismissError => !b.uploadOpen && b.error != ""
    case Retry(_, _) => !b.uploadOpen && b.error != ""
    case StartOverButton(_, _) => !b.uploadOpen && b.error != ""
  }

  /** The retry button as written: it always retries stage 1 (RETRY BUILD),
      whichever stage failed. */
  function RetryBuildAsWritten(b: Board, status: Result<Api.SessionStatus, Api.Error>,
                               build: Result<Api.BuildReply, Api.Error>): (r: Run)
    requires WellFormed(b)
    ensures WellFormed(r.board)
    ensures r.board.statuses[1] != Pending
  {
    StageAction(b, 1, status, build)
  }

  /** The retry button corrected: it retries the stage that is active, which is
      the stage that failed. */
  function RetryActiveStage(b: Board, status: Result<Api.SessionStatus, Api.Error>,
                            build: Result<Api.BuildReply, Api.Error>): (r: Run)
    requires WellFormed(b)
    ensures WellFormed(r.board)
    ensures b.activeStage == 1 ==> r == RetryBuildAsWritten(b, status, build)
  {
    StageAction(b, b.activeStage, status, build)
  }

  /** One event on the board as written: the banner's RETRY BUILD runs
      stage 1's action whichever stage failed. */
  function Step(b: Board, e: Event): (r: (Board, Signal))
    requires WellFormed(b)
    requires e.StageButton? ==> e.stage < StageCount
    ensures WellFormed(r.0)
    ensures e.Retry? ==> r == (RetryBuildAsWritten(b, e.retryStatus, e.retryBuild).board,
                               RetryBuildAsWritten(b, e.retryStatus, e.retryBuild).signal)
    ensures e.DialogUpload? || e.DialogClose? ==> !r.0.uploadOpen && r.1 == Quiet
    ensures e.DismissError? ==> r == (b.(error := ""), Quiet)
    ensures e.StartOverButton? ==> r.1.SessionReset? && r.0.statuses == InitialStatuses && r.0.error == ""
  {
    match e
    case StageButton(i, status, build) => var run := StageAction(b, i, status, build); (run.board, run.signal)
    case DialogUpload(upload) => (HandleUpload(b, upload), Quiet)
    case DialogClose => (b.(uploadOpen := false), Quiet)
    case DismissError => (b.(error := ""), Quiet)
    case Retry(status, build) => var run := RetryBuildAsWritten(b, status, build); (run.board, run.signal)
    case StartOverButton(now, suffix) => StartOver(b, now, suffix)
  }

  /** The same board with the retry button corrected to retry the stage that
      failed. */
  function StepCorrected(b: Board, e: Event): (r: (Board, Signal))
    requires WellFormed(b)
    requires e.StageButton? ==> e.stage < StageCount
    ensures WellFormed(r.0)
    ensures !e.Retry? || b.activeStage == 1 ==> r == Step(b, e)
  {
    match e
    case Retry(status, build) => var run := RetryActiveStage(b, status, build); (run.board, run.signal)
    case _ => Step(b, e)
  }

  /** The wizard's shape: stages before the active one are done, stages after
      it pending, the active one active (or done once the last stage has
      finished), and the upload dialog only open over an active stage 0. */
  predicate Shape(b: Board) {
    && WellFormed(b)
    && (forall j :: 0 <= j < b.activeStage ==> b.statuses[j] == Done)
    && (forall j :: b.activeStage < j < StageCount ==> b.statuses[j] == Pending)
    && (b.statuses[b.activeStage] == Active || (b.activeStage == StageCount - 1 && b.statuses[b.activeStage] == Done))
    && (b.uploadOpen ==> b.activeStage == 0 && b.statuses[0] == Active)
  }

  lemma InitialHasShape()
    ensures Shape(Initial())
  {
  }

  /** With the corrected retry, every event the board can deliver keeps its
      shape: at most one stage is interactive, and stages complete in order. */
  lemma {:induction false} StepKeepsShape(b: Board, e: Event)
    requires Shape(b) && Enabled(b, e)
    ensures e.StageButton? ==> e.stage < StageCount
    ensures Shape(StepCorrected(b, e).0)
  {
    match e
    case StageButton(i, status, build) =>
      ActionKeepsShape(b, status, build);
    case DialogUpload(upload) =>
      assert b.activeStage == 0;
    case DialogClose =>
    case DismissError =>
    case Retry(status, build) =>
      ActionKeepsShape(b, status, build);
    case StartOverButton(_, _) =>
  }

  /** The board as written keeps the shape for every event it can deliver
      except RETRY BUILD pressed while a stage other than 1 is active. */
  lemma AsWrittenKeepsShapeOffRetry(b: Board, e: Event)
    requires Shape(b) && Enabled(b, e)
    ensures !e.Retry? || b.activeStage == 1 ==> Shape(Step(b, e).0)
  {
    StepKeepsShape(b, e);
  }

  lemma ActionKeepsShape(b: Board, status: Result<Api.SessionStatus, Api.Error>,
                         build: Result<Api.BuildReply, Api.Error>)
    requires Shape(b) && !b.uploadOpen
    ensures Shape(StageAction(b, b.activeStage, status, build).board)
  {
    var i := b.activeStage;
    if i > 0 {
      var run := if i == 1 then Stage1(status, build) else Stage1Run(false, Pass);
      var begun := BeginStage(b, i);
      var (after, _) := SettleStage(begun, i, run.outcome);
      if run.outcome.Pass? && i + 1 < StageCount {
        var done := begun.(statuses := SetStatus(begun.statuses, i, Done));
        assert after == Advance(done);
        assert after.activeStage == i + 1;
      }
    }
  }

  /** The retry as written breaks the shape: after an upload failure the
      banner's RETRY BUILD runs stage 1 while stage 0 is still the active
      stage, leaving two stages active at once. */
  lemma RetryBuildAsWrittenBreaksShape()
    ensures var failed := HandleUpload(Initial().(uploadOpen := true), Fail(Api.Thrown("Upload failed (500): boom")));
            && Shape(failed) && failed.error != ""
            && var r := RetryBuildAsWritten(failed, Success(Api.SessionStatus("s", false, false)), Success(Api.DefaultSuccess));
            && r.board.statuses == [Active, Active, Pending]
            && !Shape(r.board)
  {
    var failed := HandleUpload(Initial().(uploadOpen := true), Fail(Api.Thrown("Upload failed (500): boom")));
    assert failed.statuses == [Active, Pending, Pending];
    var r := RetryBuildAsWritten(failed, Success(Api.SessionStatus("s", false, false)), Success(Api.DefaultSuccess));
    assert r.board.statuses == SetStatus(SetStatus(failed.statuses, 1, Processing), 1, Active);
  }

  /** The board as written only signals completion once the last stage is
      done, even from a board whose shape the retry has broken. */
  lemma CompleteOnlyAfterLastStage(b: Board, e: Event)
    requires WellFormed(b) && Enabled(b, e)
    ensures Step(b, e).1 == Complete ==> b.activeStage == StageCount - 1 && Step(b, e).0.statuses[StageCount - 1] == Done
  {
  }
}
