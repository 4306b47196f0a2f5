/** One parent job as every process sees it: the SQLite row, the Redis keys, the
    sub-jobs of every attempt ever enqueued, and the reaper passes in flight.
    Each callback, each report with its mirror, each enqueue and each SQL
    statement is one step; any enabled step may come next.

    Besides that atomicity, three assumptions of the code are visible here. A
    sub-job fires at most one callback and writes nothing after it (a SubState only
    moves forward). Marking a job FAILED and the bump after it are one step. Between
    a claim (or insert) and the end of its enqueue, and between listing a stale job
    and the UPDATE of the same reaper pass, less than the stale timeout elapses
    (guard of Tick) unless the request or the pass dies first (RequestDies, PassEnds). */
module AttemptProtocol {
  import opened Common
  import opened PipelineDag
  import Redis = RedisGates

  datatype Status = Pending | Queued | Processing | Completed | Failed

  datatype Row = Row(
    status: Status,
    progress: real,
    message: string,
    error: Option<string>,
    resultPath: Option<string>,
    qualityWarning: Option<string>,
    shareToken: Option<string>,
    updatedAt: int)

  const ERROR_DISPLAY_LENGTH := 200
  const LLM_CORRECTION_SKIPPED := "已跳過 LLM 文字校驗。"
  const UPLOAD_ENQUEUE_FAILED := "提交任務時發生錯誤，請稍後再試"
  const NO_TRANSCRIPT := "transcript_result missing"
  const TRANSCRIPT_KEY := "transcript_result"
  const WARNING_KEY := "quality_warning"

  predicate Active(status: Status) {
    status == Queued || status == Processing
  }

  predicate Terminal(status: Status) {
    status == Completed || status == Failed
  }

  /** Where a sub-job stands. `Running` carries the Job snapshot its stage holds in
      memory; `Returned` has left its stage but not yet fired its callback. */
  datatype SubState =
    | Waiting | Running(job: Row) | Returned(ok: bool) | Settled(ok: bool) | Cancelled

  datatype Attempt = Attempt(shape: Shape, subs: map<Stage, SubState>)

  /** A claimed (or inserted) row whose pipeline is not enqueued yet, with the Job
      snapshot its request holds. */
  datatype Claim = Claim(since: int, job: Row)

  /** A reaper pass that listed the job at `since`. */
  datatype Mark = Mark(since: int, bumped: bool)

  /** What the theorems count. */
  datatype History = History(commits: map<int, nat>, failures: nat, claims: nat, enqueued: nat)

  /** `owner` is the latest attempt enqueued, `holder` the attempt the row belongs to: 0
      from a claim or insert until its enqueue, and for good when the request dies. */
  datatype JobState = JobState(
    store: Redis.Store,
    row: Option<Row>,
    attempts: map<int, Attempt>,
    owner: int,
    holder: int,
    pending: Option<Claim>,
    marks: set<Mark>,
    now: int,
    timeout: nat,
    history: History)

  /** How saving a finished transcript went: the UPDATE went through, something
      failed (after the path was set, if one is given) and the job could be
      marked FAILED, or SQLite refused both writes. */
  datatype Persist = Saved(path: string) | NotSaved(reached: Option<string>, why: string) | DbDown

  /** Whether Redis answers the terminal write and the cleanup of a callback; the code
      swallows (or, past the last update, only re-raises) their errors. */
  datatype Reach = Reach(terminal: bool, cleanup: bool)

  datatype Label =
    | Enqueue(shape: Shape, seed: Redis.Context)
    | EnqueueFails(counted: bool)
    | RequestDies(counted: bool)
    | StartStage(gen: nat, stage: Stage)
    | Hook(hookUpdates: Redis.Context)
    | ReportProgress(gen: nat, stage: Stage, progress: real, message: string, redisUp: bool, dbUp: bool)
    | FinishStage(gen: nat, stage: Stage, ok: bool, outputs: Redis.Context)
    | SuccessCallback(gen: nat, stage: Stage, persist: Persist, reach: Reach)
    | FailureCallback(gen: nat, stage: Stage, error: string, persist: Persist, cancelled: set<Stage>,
                      dbUp: bool, reach: Reach)
    | CallbackLost(gen: nat, stage: Stage)
    | ClaimRetry(snapshot: Row)
    | DeleteRow
    | ReapList
    | ReapBump(mark: Mark)
    | ReapUpdate(mark: Mark, error: string)
    | PassEnds(mark: Mark)
    | ShareCreate(token: string)
    | ShareRevoke
    | Tick(seconds: nat)

  /* ---------------- small readers and writers ---------------- */

  function Counter(s: JobState): int {
    if s.store.counter.None? then 0 else s.store.counter.value
  }

  predicate Known(s: JobState, gen: int, stage: Stage) {
    gen in s.attempts && stage in s.attempts[gen].subs
  }

  function Sub(s: JobState, gen: int, stage: Stage): SubState
    requires Known(s, gen, stage)
  {
    s.attempts[gen].subs[stage]
  }

  function WithSub(s: JobState, gen: int, stage: Stage, sub: SubState): JobState
    requires Known(s, gen, stage)
  {
    var a := s.attempts[gen];
    s.(attempts := s.attempts[gen := a.(subs := a.subs[stage := sub])])
  }

  /** The stage returned normally: its dependents may start. */
  predicate Done(sub: SubState) {
    sub == Returned(true) || sub == Settled(true)
  }

  predicate DependenciesDone(a: Attempt, stage: Stage) {
    forall d :: d in DependsOn(a.shape, stage) ==> d in a.subs && Done(a.subs[d])
  }

  /** No sub-job of the attempt will write anything any more. */
  predicate Quiet(a: Attempt) {
    forall st :: st in a.subs ==> a.subs[st].Settled? || a.subs[st].Cancelled?
  }

  function Commits(h: History, gen: int): nat {
    if gen in h.commits then h.commits[gen] else 0
  }

  /** The only writer of a terminal status; every use is counted. */
  function Commit(s: JobState, gen: int, row: Row): JobState {
    s.(row := Some(row.(updatedAt := s.now)),
       history := s.history.(commits := s.history.commits[gen := Commits(s.history, gen) + 1]))
  }

  function Do(s: JobState, op: Redis.Op): JobState {
    s.(store := Redis.Apply(s.store, op).0)
  }

  function FailedRow(row: Row, error: string): Row {
    row.(status := Failed,
         error := Some(Redis.Truncate(error, Redis.ERROR_MAX_LENGTH)),
         message := "Failed: " + Redis.Truncate(error, ERROR_DISPLAY_LENGTH))
  }

  function CompletedRow(row: Row, message: string, path: string, warning: Option<string>): Row {
    row.(status := Completed, progress := 1.0, message := message,
         resultPath := Some(path), qualityWarning := warning)
  }

  /** A step on Redis that only happens when Redis answers. */
  function DoIf(up: bool, s: JobState, op: Redis.Op): JobState {
    if up then Do(s, op) else s
  }

  /** `mark_failed`: the row first, then the gated terminal write. */
  function MarkFailed(s: JobState, gen: nat, row: Row, error: string, up: bool): JobState {
    DoIf(up, Commit(s, gen, FailedRow(row, error)), Redis.Op.Fail(Some(gen), error))
  }

  /** `_persist_completion`. */
  function PersistCompletion(s: JobState, gen: nat, row: Row, message: string, persist: Persist,
                             reach: Reach): JobState {
    var warning := Redis.Lookup(s.store.context, WARNING_KEY);
    var written :=
      match persist
      case Saved(path) =>
        DoIf(reach.terminal, Commit(s, gen, CompletedRow(row, message, path, warning)),
             Redis.Op.Complete(Some(gen), path))
      case NotSaved(reached, why) =>
        var job := if reached.Some? then CompletedRow(row, message, reached.value, warning) else row;
        MarkFailed(s, gen, job, why, reach.terminal)
      case DbDown => s;
    DoIf(reach.cleanup, written, Redis.Op.DropContext)
  }

  predicate Stale(s: JobState, gen: int) {
    Redis.IsStaleCallback(s.store.counter, Some(gen))
  }

  /** `finalize_success`, after the sub-job has been settled. */
  function FinalizeSuccess(s: JobState, gen: nat, persist: Persist, reach: Reach): JobState {
    if Stale(s, gen) || s.row.None? || Terminal(s.row.value.status) then s
    else if TRANSCRIPT_KEY !in s.store.context then
      DoIf(reach.cleanup, MarkFailed(s, gen, s.row.value, NO_TRANSCRIPT, reach.terminal),
           Redis.Op.DropContext)
    else PersistCompletion(s, gen, s.row.value, Redis.PIPELINE_COMPLETE, persist, reach)
  }

  /** `finalize_failure`; note that it lets a COMPLETED row through. */
  function FinalizeFailure(s: JobState, gen: nat, stage: Stage, error: string, persist: Persist,
                           cancelled: set<Stage>, dbUp: bool, reach: Reach): JobState {
    if Stale(s, gen) || s.row.None? || s.row.value.status == Failed then s
    else if stage == LlmCorrection && TRANSCRIPT_KEY in s.store.context then
      PersistCompletion(s, gen, s.row.value, LLM_CORRECTION_SKIPPED, persist, reach)
    else
      FailAndBump(CancelSiblings(s, gen, stage, cancelled), gen, s.row.value, error, dbUp, reach)
  }

  /** FAILED, then the bump that fences zombie siblings; with SQLite down (or the list of
      siblings unreadable) the row is not marked and only the cleanup runs. */
  function FailAndBump(s: JobState, gen: nat, row: Row, error: string, dbUp: bool, reach: Reach): JobState {
    var marked := if dbUp then Do(MarkFailed(s, gen, row, error, reach.terminal), Redis.Op.BumpGeneration) else s;
    DoIf(reach.cleanup, marked, Redis.Op.DropContext)
  }

  /** Cancellation is best effort: any subset of the siblings that have not
      returned is stopped, the rest keeps waiting or running. */
  function CancelSiblings(s: JobState, gen: int, stage: Stage, cancelled: set<Stage>): JobState {
    if gen !in s.attempts then s
    else s.(attempts := s.attempts[gen := Stop(s.attempts[gen], stage, cancelled)])
  }

  function Stop(a: Attempt, stage: Stage, cancelled: set<Stage>): Attempt {
    a.(subs := map st | st in a.subs ::
                 if st in cancelled && st != stage && (a.subs[st].Waiting? || a.subs[st].Running?)
                 then Cancelled else a.subs[st])
  }

  /** The SQLite mirror of an accepted or degraded report. */
  function Mirror(row: Option<Row>, now: int, job: Row, degraded: bool): Option<Row> {
    if row.None? then None
    else if degraded then Some(row.value.(progress := job.progress, message := job.message, updatedAt := now))
    else Some(job.(updatedAt := now))
  }

  /* ---------------- the steps ---------------- */

  function EnqueueStep(s: JobState, shape: Shape, seed: Redis.Context): JobState {
    var gen := Redis.Bumped(s.store.counter);
    var hash := Redis.NO_HASH.(progress := Some(0.0), status := Some("queued"), generation := Some(gen));
    s.(store := Redis.Store(Some(gen), hash, seed),
       attempts := s.attempts[gen := Attempt(shape, map st | st in Stages(shape) :: Waiting)],
       owner := gen, holder := gen, pending := None,
       history := s.history.(enqueued := s.history.enqueued + 1))
  }

  function EnqueueFailsStep(s: JobState, counted: bool): JobState
    requires s.pending.Some?
  {
    var job := s.pending.value.job;
    var failed := job.(status := Failed, error := Some(UPLOAD_ENQUEUE_FAILED), updatedAt := s.now);
    DoIf(counted, s.(pending := None, row := Some(failed)), Redis.Op.BumpGeneration)
  }

  /** The request is gone before anything was queued, at most the bump was made; the row
      stays QUEUED with no attempt to work on it. */
  function RequestDiesStep(s: JobState, counted: bool): JobState {
    DoIf(counted, s.(pending := None), Redis.Op.BumpGeneration)
  }

  function StartStep(s: JobState, gen: nat, stage: Stage): JobState
    requires Known(s, gen, stage)
  {
    if s.row.None? then WithSub(s, gen, stage, Returned(false))
    else
      var job := if s.row.value.status == Queued then s.row.value.(status := Processing, updatedAt := s.now)
                 else s.row.value;
      WithSub(s, gen, stage, Running(job)).(row := Some(job))
  }

  function ReportStep(s: JobState, gen: nat, stage: Stage, progress: real, message: string,
                      redisUp: bool, dbUp: bool): JobState
    requires Known(s, gen, stage) && Sub(s, gen, stage).Running?
  {
    var op := Redis.Op.Report(Some(gen), progress, message);
    if redisUp && !Redis.Apply(s.store, op).1 then s
    else
      var job := Sub(s, gen, stage).job.(progress := progress, message := message);
      var held := if redisUp then job.(updatedAt := s.now) else job;
      var mirrored := if dbUp then Mirror(s.row, s.now, held, !redisUp) else s.row;
      WithSub(DoIf(redisUp, s, op), gen, stage, Running(held)).(row := mirrored)
  }

  function FinishStep(s: JobState, gen: nat, stage: Stage, ok: bool, outputs: Redis.Context): JobState
    requires Known(s, gen, stage)
  {
    if !ok then WithSub(s, gen, stage, Returned(false))
    else
      var next := if stage == Tail(s.attempts[gen].shape) then Returned(true) else Settled(true);
      Do(WithSub(s, gen, stage, next), Redis.Op.StageWrite(gen, outputs))
  }

  function Fresh(now: int, row: Row): Row {
    row.(status := Queued, error := None, progress := 0.0, message := "", resultPath := None, updatedAt := now)
  }

  /** The claim resets the row; the caller resets the snapshot it read earlier, and
      writes that one back should the enqueue fail. */
  function ClaimStep(s: JobState, snapshot: Row): JobState
    requires s.row.Some?
  {
    s.(row := Some(Fresh(s.now, s.row.value)), holder := 0,
       pending := Some(Claim(s.now, Fresh(s.now, snapshot))),
       history := s.history.(claims := s.history.claims + 1))
  }

  predicate MayReap(s: JobState) {
    s.row.Some? && Active(s.row.value.status) && s.row.value.updatedAt < s.now - s.timeout
  }

  function ReapBumpStep(s: JobState, mark: Mark): JobState {
    Do(s.(marks := s.marks - {mark} + {Mark(mark.since, true)}), Redis.Op.BumpGeneration)
  }

  function ReapUpdateStep(s: JobState, mark: Mark, error: string): JobState {
    var s' := s.(marks := s.marks - {mark});
    if MayReap(s) then Commit(s', s.holder, s.row.value.(status := Failed, error := Some(error))) else s'
  }

  function ShareStep(s: JobState, token: Option<string>): JobState
    requires s.row.Some?
  {
    s.(row := Some(s.row.value.(shareToken := token, updatedAt := s.now)))
  }

  predicate Enabled(s: JobState, l: Label) {
    match l
    case Enqueue(_, _) => s.pending.Some?
    case EnqueueFails(_) => s.pending.Some?
    case RequestDies(_) => s.pending.Some?
    case StartStage(gen, stage) =>
      Known(s, gen, stage) && Sub(s, gen, stage).Waiting? && DependenciesDone(s.attempts[gen], stage)
    case Hook(updates) => updates.Keys <= Redis.HOOK_KEYS
    case ReportProgress(gen, stage, _, _, _, _) => Known(s, gen, stage) && Sub(s, gen, stage).Running?
    case FinishStage(gen, stage, _, outputs) =>
      Known(s, gen, stage) && Sub(s, gen, stage).Running? && outputs.Keys <= Writes(stage)
    case SuccessCallback(gen, stage, _, _) => Known(s, gen, stage) && Sub(s, gen, stage) == Returned(true)
    case FailureCallback(gen, stage, _, _, _, _, _) => Known(s, gen, stage) && Sub(s, gen, stage) == Returned(false)
    case CallbackLost(gen, stage) => Known(s, gen, stage) && Sub(s, gen, stage).Returned?
    case ClaimRetry(_) => s.row.Some? && s.row.value.status == Failed
    case DeleteRow => s.row.Some? && Terminal(s.row.value.status)
    case ReapList => MayReap(s)
    case ReapBump(mark) => mark in s.marks && !mark.bumped
    case ReapUpdate(mark, _) => mark in s.marks && mark.bumped
    case PassEnds(mark) => mark in s.marks
    case ShareCreate(_) => s.row.Some? && s.row.value.status == Completed && s.row.value.shareToken.None?
    case ShareRevoke => s.row.Some? && s.row.value.shareToken.Some?
    case Tick(seconds) =>
      && (s.pending.Some? ==> s.now + seconds - s.pending.value.since <= s.timeout)
      && (forall m :: m in s.marks ==> s.now + seconds - m.since <= s.timeout)
  }

  function Step(s: JobState, l: Label): JobState
    requires Enabled(s, l)
  {
    match l
    case Enqueue(shape, seed) => EnqueueStep(s, shape, seed)
    case EnqueueFails(counted) => EnqueueFailsStep(s, counted)
    case RequestDies(counted) => RequestDiesStep(s, counted)
    case StartStage(gen, stage) => StartStep(s, gen, stage)
    case Hook(updates) => Do(s, Redis.Op.HookWrite(updates))
    case ReportProgress(gen, stage, progress, message, redisUp, dbUp) =>
      ReportStep(s, gen, stage, progress, message, redisUp, dbUp)
    case FinishStage(gen, stage, ok, outputs) => FinishStep(s, gen, stage, ok, outputs)
    case SuccessCallback(gen, stage, persist, reach) =>
      FinalizeSuccess(WithSub(s, gen, stage, Settled(true)), gen, persist, reach)
    case FailureCallback(gen, stage, error, persist, cancelled, dbUp, reach) =>
      FinalizeFailure(WithSub(s, gen, stage, Settled(false)), gen, stage, error, persist, cancelled, dbUp, reach)
    case CallbackLost(gen, stage) => WithSub(s, gen, stage, Settled(Sub(s, gen, stage).ok))
    case ClaimRetry(snapshot) => ClaimStep(s, snapshot)
    case DeleteRow => Do(s.(row := None), Redis.Op.DropProgress)
    case ReapList => s.(marks := s.marks + {Mark(s.now, false)})
    case ReapBump(mark) => ReapBumpStep(s, mark)
    case ReapUpdate(mark, error) => ReapUpdateStep(s, mark, error)
    case PassEnds(mark) => s.(marks := s.marks - {mark})
    case ShareCreate(token) => ShareStep(s, Some(token))
    case ShareRevoke => ShareStep(s, None)
    case Tick(seconds) => s.(now := s.now + seconds)
  }

  predicate IsFailed(row: Option<Row>) {
    row.Some? && row.value.status == Failed
  }

  /** Entries into FAILED are counted whoever caused them. */
  function Counted(before: Option<Row>, s: JobState): JobState {
    if !IsFailed(before) && IsFailed(s.row)
    then s.(history := s.history.(failures := s.history.failures + 1))
    else s
  }

  function Next(s: JobState, l: Label): JobState
    requires Enabled(s, l)
  {
    Counted(s.row, Step(s, l))
  }

  /** A job right after `insert_job`: queued, nothing in Redis, enqueue pending. */
  function Inserted(now: int, timeout: nat): JobState {
    var job := Row(Queued, 0.0, "", None, None, None, None, now);
    JobState(Redis.EMPTY_STORE, Some(job), map[], 0, 0, Some(Claim(now, job)), {}, now, timeout,
             History(map[], 0, 0, 0))
  }

  /** The job after a sequence of steps, or None when one of them was not enabled. */
  function After(s: JobState, labels: seq<Label>): Option<JobState> {
    if labels == [] then Some(s)
    else
      var before := After(s, labels[..|labels| - 1]);
      var last := labels[|labels| - 1];
      if before.Some? && Enabled(before.value, last) then Some(Next(before.value, last)) else None
  }
}
