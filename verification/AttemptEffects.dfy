/** What each step records, column by column and key by key: the rows, hashes and
    contexts it leaves behind, told from the state before it. */
module AttemptEffects {
  import opened Common
  import opened PipelineDag
  import opened AttemptProtocol
  import opened AttemptInvariant
  import opened AttemptOutcomes
  import Redis = RedisGates

  /** A row marked FAILED for that error: every other column is kept. */
  predicate FailedWith(before: Row, after: Row, error: string, now: int) {
    && after == before.(status := Failed, error := after.error, message := after.message, updatedAt := now)
    && after.error.Some? && Redis.IsCut(after.error.value, error, 1000)
    && |after.message| >= 8 && after.message[..8] == "Failed: " && Redis.IsCut(after.message[8..], error, 200)
  }

  /** A row completed with a saved transcript: the warning is the context's, and an old
      one goes when the context has none. */
  predicate CompletedWithAll(before: Row, after: Row, message: string, path: string, context: Redis.Context, now: int) {
    after == before.(status := Completed, progress := 1.0, message := message, resultPath := Some(path),
                     qualityWarning := if "quality_warning" in context then Some(context["quality_warning"]) else None,
                     updatedAt := now)
  }

  /** The progress hash of an attempt that ended FAILED, and of one that ended COMPLETED. */
  predicate HashFailedWith(before: Redis.ProgressHash, after: Redis.ProgressHash, gen: nat, error: string) {
    && after == before.(progress := Some(0.0), status := Some("failed"), generation := Some(gen),
                        message := after.message, error := after.error)
    && after.message.Some? && Redis.IsCut(after.message.value, error, 500)
    && after.error.Some? && Redis.IsCut(after.error.value, error, 1000)
  }

  predicate HashCompletedWith(before: Redis.ProgressHash, after: Redis.ProgressHash, gen: nat, path: string) {
    after == before.(progress := Some(1.0), message := Some("完成"), status := Some("completed"),
                     generation := Some(gen), resultPath := Some(path))
  }

  predicate FailedAs(s: JobState, t: JobState, gen: nat, before: Row, error: string, up: bool) {
    && t.row.Some? && FailedWith(before, t.row.value, error, s.now)
    && (up ==> HashFailedWith(s.store.hash, t.store.hash, gen, error))
    && (!up ==> t.store.hash == s.store.hash)
  }

  predicate CompletedAs(s: JobState, t: JobState, gen: nat, message: string, path: string, up: bool) {
    && s.row.Some? && t.row.Some?
    && CompletedWithAll(s.row.value, t.row.value, message, path, s.store.context, s.now)
    && (up ==> HashCompletedWith(s.store.hash, t.store.hash, gen, path))
    && (!up ==> t.store.hash == s.store.hash)
  }

  /** The Job object as far as it was filled in when saving broke off. */
  predicate PartlyFilled(before: Row, filled: Row, message: string, reached: Option<string>, context: Redis.Context) {
    if reached.None? then filled == before
    else CompletedWithAll(before, filled, message, reached.value, context, filled.updatedAt)
  }

  /** A save that broke off and left the job FAILED for the reason it broke off. */
  ghost predicate Broken(s: JobState, t: JobState, gen: nat, message: string, persist: Persist, reach: Reach)
    requires persist.NotSaved?
  {
    s.row.Some? &&
    exists filled :: PartlyFilled(s.row.value, filled, message, persist.reached, s.store.context)
                     && FailedAs(s, t, gen, filled, persist.why, reach.terminal)
  }

  /* ---------------- callbacks ---------------- */

  lemma MarkFailedRecords(s: JobState, gen: nat, row: Row, error: string, up: bool)
    requires Redis.EmbeddedBounded(s.store) && MayCommit(s, gen)
    ensures FailedAs(s, MarkFailed(s, gen, row, error, up), gen, row, error, up)
  {}

  lemma SavedRecords(s: JobState, gen: nat, message: string, path: string, reach: Reach)
    requires Redis.EmbeddedBounded(s.store) && MayCommit(s, gen)
    ensures CompletedAs(s, PersistCompletion(s, gen, s.row.value, message, Saved(path), reach), gen, message, path,
                        reach.terminal)
  {}

  lemma NotSavedRecords(s: JobState, gen: nat, message: string, reached: Option<string>, why: string, reach: Reach)
    returns (filled: Row)
    requires Redis.EmbeddedBounded(s.store) && MayCommit(s, gen)
    ensures PartlyFilled(s.row.value, filled, message, reached, s.store.context)
    ensures FailedAs(s, PersistCompletion(s, gen, s.row.value, message, NotSaved(reached, why), reach), gen,
                     filled, why, reach.terminal)
  {
    var warning := Redis.Lookup(s.store.context, WARNING_KEY);
    filled := if reached.Some? then CompletedRow(s.row.value, message, reached.value, warning) else s.row.value;
    MarkFailedRecords(s, gen, filled, why, reach.terminal);
  }

  lemma FinishedRecords(s: JobState, gen: nat, persist: Persist, reach: Reach)
    requires Redis.EmbeddedBounded(s.store) && MayCommit(s, gen)
    ensures var t := FinalizeSuccess(s, gen, persist, reach);
            if "transcript_result" !in s.store.context
            then FailedAs(s, t, gen, s.row.value, "transcript_result missing", reach.terminal)
            else && (persist.Saved? ==> CompletedAs(s, t, gen, "完成", persist.path, reach.terminal))
                 && (persist.NotSaved? ==> Broken(s, t, gen, "完成", persist, reach))
  {
    if "transcript_result" !in s.store.context {
      MarkFailedRecords(s, gen, s.row.value, NO_TRANSCRIPT, reach.terminal);
    } else if persist.Saved? {
      SavedRecords(s, gen, Redis.PIPELINE_COMPLETE, persist.path, reach);
    } else if persist.NotSaved? {
      var _ := NotSavedRecords(s, gen, Redis.PIPELINE_COMPLETE, persist.reached, persist.why, reach);
    }
  }

  /** The success callback of the latest attempt. */
  lemma SuccessRecords(s: JobState, l: Label)
    requires Inv(s) && Enabled(s, l) && l.SuccessCallback? && !Stale(s, l.gen)
    ensures s.row.Some?
    ensures "transcript_result" in s.store.context && l.persist.Saved? ==>
              CompletedAs(s, Next(s, l), l.gen, "完成", l.persist.path, l.reach.terminal)
    ensures "transcript_result" in s.store.context && l.persist.NotSaved? ==>
              Broken(s, Next(s, l), l.gen, "完成", l.persist, l.reach)
    ensures "transcript_result" !in s.store.context ==>
              FailedAs(s, Next(s, l), l.gen, s.row.value, "transcript_result missing", l.reach.terminal)
  {
    var settled := WithSub(s, l.gen, l.stage, Settled(true));
    CurrentMayCommit(s, l.gen, l.stage, Settled(true));
    CountedIsSilent(s.row, FinalizeSuccess(settled, l.gen, l.persist, l.reach));
    FinishedRecords(settled, l.gen, l.persist, l.reach);
  }

  /** The salvage branch: the llm_correction tail with a transcript at hand. */
  predicate Salvaging(s: JobState, stage: Stage) {
    stage == LlmCorrection && "transcript_result" in s.store.context
  }

  lemma SalvageRecords(s: JobState, gen: nat, error: string, persist: Persist, cancelled: set<Stage>, dbUp: bool,
                       reach: Reach)
    requires Redis.EmbeddedBounded(s.store) && MayCommit(s, gen) && "transcript_result" in s.store.context
    ensures var t := FinalizeFailure(s, gen, LlmCorrection, error, persist, cancelled, dbUp, reach);
            && (persist.Saved? ==> CompletedAs(s, t, gen, "已跳過 LLM 文字校驗。", persist.path, reach.terminal))
            && (persist.NotSaved? ==> Broken(s, t, gen, "已跳過 LLM 文字校驗。", persist, reach))
  {
    if persist.Saved? {
      SavedRecords(s, gen, LLM_CORRECTION_SKIPPED, persist.path, reach);
    } else if persist.NotSaved? {
      var _ := NotSavedRecords(s, gen, LLM_CORRECTION_SKIPPED, persist.reached, persist.why, reach);
    }
  }

  lemma FailingRecords(s: JobState, gen: nat, stage: Stage, error: string, persist: Persist, cancelled: set<Stage>,
                       reach: Reach)
    requires Redis.EmbeddedBounded(s.store) && MayCommit(s, gen) && !Salvaging(s, stage)
    ensures FailedAs(s, FinalizeFailure(s, gen, stage, error, persist, cancelled, true, reach), gen, s.row.value, error,
                     reach.terminal)
  {
    MarkFailedRecords(CancelSiblings(s, gen, stage, cancelled), gen, s.row.value, error, reach.terminal);
  }

  /** The failure callback of the latest attempt: the salvage branch completes the job, and
      any other failure is recorded with its error. */
  lemma FailureRecords(s: JobState, l: Label)
    requires Inv(s) && Enabled(s, l) && l.FailureCallback? && !Stale(s, l.gen)
    ensures s.row.Some?
    ensures Salvaging(s, l.stage) && l.persist.Saved? ==>
              CompletedAs(s, Next(s, l), l.gen, "已跳過 LLM 文字校驗。", l.persist.path, l.reach.terminal)
    ensures Salvaging(s, l.stage) && l.persist.NotSaved? ==>
              Broken(s, Next(s, l), l.gen, "已跳過 LLM 文字校驗。", l.persist, l.reach)
    ensures !Salvaging(s, l.stage) && l.dbUp ==>
              FailedAs(s, Next(s, l), l.gen, s.row.value, l.error, l.reach.terminal)
  {
    var settled := WithSub(s, l.gen, l.stage, Settled(false));
    CurrentMayCommit(s, l.gen, l.stage, Settled(false));
    CountedIsSilent(s.row, FinalizeFailure(settled, l.gen, l.stage, l.error, l.persist, l.cancelled, l.dbUp, l.reach));
    if Salvaging(s, l.stage) {
      SalvageRecords(settled, l.gen, l.error, l.persist, l.cancelled, l.dbUp, l.reach);
    } else if l.dbUp {
      FailingRecords(settled, l.gen, l.stage, l.error, l.persist, l.cancelled, l.reach);
    }
  }

  lemma FailingStops(s: JobState, gen: nat, stage: Stage, error: string, persist: Persist, cancelled: set<Stage>,
                     dbUp: bool, reach: Reach)
    requires MayCommit(s, gen) && gen in s.attempts && !Salvaging(s, stage)
    ensures var t := FinalizeFailure(s, gen, stage, error, persist, cancelled, dbUp, reach);
            t.attempts == s.attempts[gen := Stop(s.attempts[gen], stage, cancelled)]
  {}

  /** What becomes of a sub-job when one of its siblings is told to stop it. */
  predicate StoppedAs(before: SubState, after: SubState, obeys: bool) {
    after == if obeys && (before.Waiting? || before.Running?) then Cancelled else before
  }

  lemma StopStops(a: Attempt, stage: Stage, cancelled: set<Stage>, st: Stage)
    requires st in a.subs
    ensures st in Stop(a, stage, cancelled).subs
    ensures StoppedAs(a.subs[st], Stop(a, stage, cancelled).subs[st], st in cancelled && st != stage)
  {}

  lemma FailureStops(s: JobState, l: Label)
    requires Inv(s) && Enabled(s, l) && l.FailureCallback? && !Stale(s, l.gen) && !Salvaging(s, l.stage)
    ensures var settled := WithSub(s, l.gen, l.stage, Settled(false));
            Next(s, l).attempts == settled.attempts[l.gen := Stop(settled.attempts[l.gen], l.stage, l.cancelled)]
  {
    var settled := WithSub(s, l.gen, l.stage, Settled(false));
    CurrentMayCommit(s, l.gen, l.stage, Settled(false));
    FailingStops(settled, l.gen, l.stage, l.error, l.persist, l.cancelled, l.dbUp, l.reach);
  }

  /** Of the siblings of a sub-job that fails its attempt, those that obey and have not
      returned end cancelled; all others, of whatever attempt, stay as they are. */
  lemma FailureCancels(s: JobState, l: Label, gen: int, st: Stage)
    requires Inv(s) && Enabled(s, l) && l.FailureCallback? && !Stale(s, l.gen) && !Salvaging(s, l.stage)
    requires Known(s, gen, st)
    ensures Known(Next(s, l), gen, st)
    ensures if gen == l.gen && st == l.stage then Sub(Next(s, l), gen, st) == Settled(false)
            else StoppedAs(Sub(s, gen, st), Sub(Next(s, l), gen, st), gen == l.gen && st in l.cancelled)
  {
    FailureStops(s, l);
    if gen == l.gen { StopStops(WithSub(s, gen, l.stage, Settled(false)).attempts[gen], l.stage, l.cancelled, st); }
  }

  /* ---------------- stages ---------------- */

  /** A stage that starts promotes a QUEUED row, and takes the row as its snapshot. */
  lemma StartRecords(s: JobState, l: Label)
    requires Enabled(s, l) && l.StartStage?
    ensures Next(s, l).store == s.store
    ensures s.row.None? ==> Next(s, l).row.None? && Sub(Next(s, l), l.gen, l.stage) == Returned(false)
    ensures s.row.Some? ==>
              && Next(s, l).row == Some(if s.row.value.status == Queued
                                        then s.row.value.(status := Processing, updatedAt := s.now) else s.row.value)
              && Sub(Next(s, l), l.gen, l.stage) == Running(Next(s, l).row.value)
  {}

  /** A stage that returns well leaves its outputs in the context of its own attempt, and
      in no other. */
  lemma FinishRecords(s: JobState, l: Label)
    requires Inv(s) && Enabled(s, l) && l.FinishStage?
    ensures Known(Next(s, l), l.gen, l.stage)
    ensures Sub(Next(s, l), l.gen, l.stage) == (if !l.ok then Returned(false)
                                                else if l.stage == Tail(s.attempts[l.gen].shape) then Returned(true)
                                                else Settled(true))
    ensures var t := Next(s, l);
            t.row == s.row && t.store.hash == s.store.hash && t.store.counter == s.store.counter
    ensures var t, kept := Next(s, l), l.ok && s.store.counter == Some(l.gen);
            && (forall k :: k in t.store.context <==> k in s.store.context || (kept && k in l.outputs))
            && (forall k :: k in t.store.context ==>
                  t.store.context[k] == if kept && k in l.outputs then l.outputs[k] else s.store.context[k])
  {
    CountedIsSilent(s.row, FinishStep(s, l.gen, l.stage, l.ok, l.outputs));
    assert s.store.counter.Some?;
  }

  /** A report from an attempt that is not the latest changes nothing at all. */
  lemma RefusedReportRecords(s: JobState, l: Label)
    requires Inv(s) && Enabled(s, l) && l.ReportProgress? && l.redisUp && s.store.counter != Some(l.gen)
    ensures Next(s, l) == s
  {
    ReportLandsExactlyWhen(s, l.gen, l.stage, l.progress, l.message);
    CountedIsSilent(s.row, s);
  }

  /** One from the latest attempt is mirrored with all columns of the stage's snapshot. */
  lemma AcceptedReportRecords(s: JobState, l: Label)
    requires Inv(s) && Enabled(s, l) && l.ReportProgress? && l.redisUp && s.store.counter == Some(l.gen)
    ensures var t := Next(s, l);
            var job := Sub(s, l.gen, l.stage).job.(progress := l.progress, message := l.message, updatedAt := s.now);
            && Known(t, l.gen, l.stage) && Sub(t, l.gen, l.stage) == Running(job)
            && t.row == (if l.dbUp then Some(job) else s.row)
            && t.store.hash.message == Some(l.message) && t.store.hash.status == Some("processing")
            && t.store.hash.generation == Some(l.gen) && t.store.hash.progress.Some?
  {
    ReportLandsExactlyWhen(s, l.gen, l.stage, l.progress, l.message);
    MovingIsLive(s, l.gen, l.stage);
    CountedIsSilent(s.row, ReportStep(s, l.gen, l.stage, l.progress, l.message, l.redisUp, l.dbUp));
  }

  /** One made during an outage of Redis is mirrored with its progress, message and time
      alone, whatever the attempt. */
  lemma DegradedReportRecords(s: JobState, l: Label)
    requires Enabled(s, l) && l.ReportProgress? && !l.redisUp
    ensures var t := Next(s, l);
            && t.store == s.store && Known(t, l.gen, l.stage)
            && Sub(t, l.gen, l.stage)
               == Running(Sub(s, l.gen, l.stage).job.(progress := l.progress, message := l.message))
            && t.row == (if l.dbUp && s.row.Some?
                         then Some(s.row.value.(progress := l.progress, message := l.message, updatedAt := s.now))
                         else s.row)
  {}

  /** Redis takes the report of a running stage exactly when its attempt is the latest
      generation. */
  lemma ReportLandsExactlyWhen(s: JobState, gen: nat, stage: Stage, progress: real, message: string)
    requires Inv(s) && Known(s, gen, stage) && Sub(s, gen, stage).Running?
    ensures Redis.Apply(s.store, Redis.Op.Report(Some(gen), progress, message)).1 <==> s.store.counter == Some(gen)
  {
    assert s.store.counter.Some?;
    if Redis.Apply(s.store, Redis.Op.Report(Some(gen), progress, message)).1 {
      AcceptedIsLive(s, gen, stage, progress, message);
    }
  }

  /* ---------------- requests and the reaper ---------------- */

  /** An enqueue starts from nothing: a new generation, a fresh hash, the seed alone, and
      every stage of the shape waiting. */
  lemma EnqueueRecords(s: JobState, l: Label)
    requires Inv(s) && Enabled(s, l) && l.Enqueue?
    ensures var t := Next(s, l);
            && t.store.counter == Some(t.owner) && t.owner == Counter(s) + 1 && t.holder == t.owner
            && t.store.hash == Redis.ProgressHash(Some(0.0), None, Some("queued"), Some(t.owner), None, None)
            && t.store.context == l.seed && t.row == s.row && t.pending.None?
            && t.owner in t.attempts && t.attempts[t.owner].shape == l.shape
            && t.attempts[t.owner].subs.Keys == Stages(l.shape)
            && (forall st :: st in t.attempts[t.owner].subs ==> t.attempts[t.owner].subs[st] == Waiting)
            && (forall g :: g in s.attempts ==> g in t.attempts && t.attempts[g] == s.attempts[g])
  {}

  /** A claim resets a FAILED row and keeps its other columns; whoever claims works for no
      attempt yet. */
  lemma ClaimRecords(s: JobState, l: Label)
    requires Enabled(s, l) && l.ClaimRetry?
    ensures var t := Next(s, l);
            && t.row == Some(s.row.value.(status := Queued, error := None, progress := 0.0, message := "",
                                          resultPath := None, updatedAt := s.now))
            && t.store == s.store && t.attempts == s.attempts && t.holder == 0
            && t.pending.Some? && t.pending.value.since == s.now
            && t.pending.value.job == l.snapshot.(status := Queued, error := None, progress := 0.0, message := "",
                                                  resultPath := None, updatedAt := s.now)
  {}

  /** A refused enqueue writes the request's snapshot back as FAILED. */
  lemma EnqueueFailsRecords(s: JobState, l: Label)
    requires Enabled(s, l) && l.EnqueueFails?
    ensures var t := Next(s, l);
            && t.row == Some(s.pending.value.job.(status := Failed, error := Some("提交任務時發生錯誤，請稍後再試"),
                                                  updatedAt := s.now))
            && t.pending.None? && Counter(t) == Counter(s) + (if l.counted then 1 else 0)
            && t.store.hash == s.store.hash && t.store.context == s.store.context
  {}

  lemma RequestDiesRecords(s: JobState, l: Label)
    requires Enabled(s, l) && l.RequestDies?
    ensures var t := Next(s, l);
            && t.row == s.row && t.pending.None? && Counter(t) == Counter(s) + (if l.counted then 1 else 0)
            && t.store.hash == s.store.hash && t.store.context == s.store.context
  {}

  /** The reaper's UPDATE fails a row that is active and older than the timeout, with its
      error and nothing else changed, and leaves every other row alone. */
  lemma ReapUpdateRecords(s: JobState, l: Label)
    requires Enabled(s, l) && l.ReapUpdate?
    ensures Next(s, l).store == s.store && Next(s, l).attempts == s.attempts
    ensures Next(s, l).row ==
              if s.row.Some? && (s.row.value.status == Queued || s.row.value.status == Processing)
                 && s.now - s.row.value.updatedAt > s.timeout
              then Some(s.row.value.(status := Failed, error := Some(l.error), updatedAt := s.now)) else s.row
  {}

  /** Listing is open to active rows older than the timeout only; bumps and dying passes
      leave the row. */
  lemma ReaperTouchesOnlyOld(s: JobState, l: Label)
    requires Enabled(s, l)
    ensures l.ReapList? ==> s.row.Some? && (s.row.value.status == Queued || s.row.value.status == Processing)
                            && s.now - s.row.value.updatedAt > s.timeout
    ensures l.ReapList? || l.ReapBump? || l.PassEnds? ==> Next(s, l).row == s.row
    ensures l.ReapBump? ==> Counter(Next(s, l)) == Counter(s) + 1
  {}

  /** Share tokens come and go on a row without anything else changing. */
  lemma ShareRecords(s: JobState, l: Label)
    requires Enabled(s, l) && (l.ShareCreate? || l.ShareRevoke?)
    ensures Next(s, l).store == s.store && Next(s, l).attempts == s.attempts
    ensures Next(s, l).row == Some(s.row.value.(shareToken := if l.ShareCreate? then Some(l.token) else None,
                                                updatedAt := s.now))
  {}

  /* ---------------- what is counted ---------------- */

  predicate Over(row: Option<Row>) {
    row.Some? && (row.value.status == Completed || row.value.status == Failed)
  }

  predicate Fails(before: Option<Row>, after: Option<Row>) {
    && (before.Some? ==> before.value.status != Failed)
    && after.Some? && after.value.status == Failed
  }

  /** Failures, claims and pipelines are counted elsewhere than in the commits. */
  predicate SameTallies(h: History, h': History) {
    h'.failures == h.failures && h'.claims == h.claims && h'.enqueued == h.enqueued
  }

  lemma PersistTallies(s: JobState, gen: nat, row: Row, message: string, persist: Persist, reach: Reach)
    ensures SameTallies(s.history, PersistCompletion(s, gen, row, message, persist, reach).history)
  {}

  lemma CallbackTallies(s: JobState, l: Label)
    requires Enabled(s, l) && (l.SuccessCallback? || l.FailureCallback?)
    ensures SameTallies(s.history, Step(s, l).history)
  {
    if s.row.Some? {
      if l.SuccessCallback? {
        PersistTallies(WithSub(s, l.gen, l.stage, Settled(true)), l.gen, s.row.value, Redis.PIPELINE_COMPLETE,
                       l.persist, l.reach);
      } else {
        PersistTallies(WithSub(s, l.gen, l.stage, Settled(false)), l.gen, s.row.value, LLM_CORRECTION_SKIPPED,
                       l.persist, l.reach);
      }
    }
  }

  lemma OtherTallies(s: JobState, l: Label)
    requires Enabled(s, l) && !l.SuccessCallback? && !l.FailureCallback? && !l.ClaimRetry? && !l.Enqueue?
    ensures SameTallies(s.history, Step(s, l).history)
  {}

  /** The tallies count what their names say: a claim is a claim, a failure turns a row
      FAILED that was not, ... */
  lemma TalliesExactly(s: JobState, l: Label)
    requires Enabled(s, l)
    ensures var h, h' := s.history, Next(s, l).history;
            && h'.claims == h.claims + (if l.ClaimRetry? then 1 else 0)
            && h'.enqueued == h.enqueued + (if l.Enqueue? then 1 else 0)
            && h'.failures == h.failures + (if Fails(s.row, Next(s, l).row) then 1 else 0)
  {
    if l.SuccessCallback? || l.FailureCallback? {
      CallbackTallies(s, l);
    } else if !l.ClaimRetry? && !l.Enqueue? {
      OtherTallies(s, l);
    }
    assert Next(s, l).row == Step(s, l).row;
  }

  /** What a step from s to t commits for an attempt. */
  predicate CountsTheEnd(s: JobState, t: JobState, gen: int) {
    Commits(t.history, gen)
    == Commits(s.history, gen) + (if !Over(s.row) && Over(t.row) && gen == s.holder then 1 else 0)
  }

  /** ... and a commit is a step, other than a refused enqueue, that ends a row: it goes to
      the attempt the row belongs to. */
  lemma CommitsExactly(s: JobState, l: Label, gen: int)
    requires Inv(s) && Enabled(s, l) && !l.EnqueueFails?
    ensures CountsTheEnd(s, Next(s, l), gen)
  {
    CountedIsSilent(s.row, Step(s, l));
    if l.SuccessCallback? || l.FailureCallback? {
      CallbackCommits(s, l, gen);
    } else if l.ReportProgress? {
      ReportCommits(s, l.gen, l.stage, l.progress, l.message, l.redisUp, l.dbUp, gen);
    } else {
      OthersCommit(s, l, gen);
    }
  }

  lemma PersistCommits(s: JobState, gen: nat, message: string, persist: Persist, reach: Reach, g: int)
    requires MayCommit(s, gen)
    ensures CountsTheEnd(s, PersistCompletion(s, gen, s.row.value, message, persist, reach), g)
  {}

  lemma SuccessCommits(s: JobState, gen: nat, persist: Persist, reach: Reach, g: int)
    requires MayCommit(s, gen)
    ensures CountsTheEnd(s, FinalizeSuccess(s, gen, persist, reach), g)
  {
    PersistCommits(s, gen, Redis.PIPELINE_COMPLETE, persist, reach, g);
  }

  lemma FailureCommits(s: JobState, gen: nat, stage: Stage, error: string, persist: Persist, cancelled: set<Stage>,
                       dbUp: bool, reach: Reach, g: int)
    requires MayCommit(s, gen)
    ensures CountsTheEnd(s, FinalizeFailure(s, gen, stage, error, persist, cancelled, dbUp, reach), g)
  {
    PersistCommits(s, gen, LLM_CORRECTION_SKIPPED, persist, reach, g);
  }

  lemma CallbackCommits(s: JobState, l: Label, gen: int)
    requires Inv(s) && Enabled(s, l) && (l.SuccessCallback? || l.FailureCallback?)
    ensures CountsTheEnd(s, Step(s, l), gen)
  {
    if !Stale(s, l.gen) {
      CurrentMayCommit(s, l.gen, l.stage, Settled(l.SuccessCallback?));
      var settled := WithSub(s, l.gen, l.stage, Settled(l.SuccessCallback?));
      if l.SuccessCallback? {
        SuccessCommits(settled, l.gen, l.persist, l.reach, gen);
      } else {
        FailureCommits(settled, l.gen, l.stage, l.error, l.persist, l.cancelled, l.dbUp, l.reach, gen);
      }
    }
  }

  lemma ReportCommits(s: JobState, gen: nat, stage: Stage, progress: real, message: string, redisUp: bool, dbUp: bool,
                      g: int)
    requires Inv(s) && Known(s, gen, stage) && Sub(s, gen, stage).Running?
    ensures CountsTheEnd(s, ReportStep(s, gen, stage, progress, message, redisUp, dbUp), g)
  {
    ReportLeavesHistory(s, gen, stage, progress, message, redisUp, dbUp);
    if redisUp {
      ReportLandsExactlyWhen(s, gen, stage, progress, message);
      if s.store.counter == Some(gen) { MovingIsLive(s, gen, stage); }
    }
  }

  lemma ReportLeavesHistory(s: JobState, gen: nat, stage: Stage, progress: real, message: string, redisUp: bool,
                            dbUp: bool)
    requires Known(s, gen, stage) && Sub(s, gen, stage).Running?
    ensures var t := ReportStep(s, gen, stage, progress, message, redisUp, dbUp);
            && t.history == s.history
            && (t.row == s.row || (s.row.Some? && t.row.Some? &&
                  t.row.value.status == (if redisUp then Sub(s, gen, stage).job.status else s.row.value.status)))
            && (redisUp && !Redis.Apply(s.store, Redis.Op.Report(Some(gen), progress, message)).1 ==> t == s)
  {}

  lemma OthersCommit(s: JobState, l: Label, gen: int)
    requires Enabled(s, l) && !l.SuccessCallback? && !l.FailureCallback? && !l.ReportProgress? && !l.EnqueueFails?
    ensures CountsTheEnd(s, Step(s, l), gen)
  {}

  /* ---------------- what may happen ---------------- */

  /** A stage of the attempt failed or was cancelled for good. */
  predicate BrokenAt(s: JobState, gen: nat, stage: Stage) {
    Known(s, gen, stage) && (Sub(s, gen, stage).Cancelled? || Sub(s, gen, stage) == Settled(false))
  }

  /** The end of a sub-job that has nothing left to wait for, as it comes: `ok` is how its
      stage returns. */
  function NextOf(s: JobState, gen: nat, stage: Stage, ok: bool, outputs: Redis.Context, persist: Persist,
                  error: string, reach: Reach): Label
    requires Known(s, gen, stage)
  {
    match Sub(s, gen, stage)
    case Running(_) => FinishStage(gen, stage, ok, outputs)
    case Returned(done) =>
      if done then SuccessCallback(gen, stage, persist, reach)
      else FailureCallback(gen, stage, error, persist, {}, true, reach)
    case _ => StartStage(gen, stage)
  }

  predicate CanMove(s: JobState, gen: nat, stage: Stage) {
    && Known(s, gen, stage)
    && var sub := Sub(s, gen, stage);
       sub.Running? || sub.Returned? || (sub.Waiting? && DependenciesDone(s.attempts[gen], stage))
  }

  lemma MoveIsEnabled(s: JobState, gen: nat, stage: Stage, ok: bool, outputs: Redis.Context, persist: Persist,
                      error: string, reach: Reach)
    requires CanMove(s, gen, stage) && outputs.Keys <= Writes(stage)
    ensures Enabled(s, NextOf(s, gen, stage, ok, outputs, persist, error, reach))
  {}

  lemma {:induction false} SomebodyCanMove(s: JobState, gen: nat, stage: Stage) returns (st: Stage)
    requires Inv(s) && Known(s, gen, stage) && !Sub(s, gen, stage).Settled? && !Sub(s, gen, stage).Cancelled?
    ensures BrokenAt(s, gen, st) || CanMove(s, gen, st)
    decreases Position(s.attempts[gen].shape, stage)
  {
    var a := s.attempts[gen];
    if CanMove(s, gen, stage) || a.subs[stage] == Settled(false) { return stage; }
    var d :| d in DependsOn(a.shape, stage) && !(d in a.subs && Done(a.subs[d]));
    DagPositions(a.shape, stage);
    if BrokenAt(s, gen, d) || CanMove(s, gen, d) { return d; }
    st := SomebodyCanMove(s, gen, d);
  }

  /** No attempt deadlocks: while one of its sub-jobs has not ended, some sub-job of it can
      take its next step, however its stage and its callback turn out, unless the attempt
      holds one that failed or was cancelled for good. */
  lemma NoDeadlock(s: JobState, gen: nat, stage: Stage, ok: bool, outputs: Redis.Context, persist: Persist,
                   error: string, reach: Reach)
    returns (st: Stage)
    requires Inv(s) && Known(s, gen, stage) && !Sub(s, gen, stage).Settled? && !Sub(s, gen, stage).Cancelled?
    ensures Known(s, gen, st)
    ensures BrokenAt(s, gen, st)
            || (outputs.Keys <= Writes(st) ==> Enabled(s, NextOf(s, gen, st, ok, outputs, persist, error, reach)))
  {
    st := SomebodyCanMove(s, gen, stage);
    if !BrokenAt(s, gen, st) && outputs.Keys <= Writes(st) {
      MoveIsEnabled(s, gen, st, ok, outputs, persist, error, reach);
    }
  }
}
