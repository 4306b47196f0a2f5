/** What the callbacks leave behind in all stores at once, and what a row always is. */
module AttemptOutcomes {
  import opened Common
  import opened PipelineDag
  import opened AttemptProtocol
  import opened AttemptInvariant
  import Redis = RedisGates

  /** The row records the end of attempt gen, once. */
  predicate RowEnded(s: JobState, gen: nat, completed: bool) {
    && s.row.Some? && s.row.value.status == (if completed then Completed else Failed)
    && Commits(s.history, gen) == 1
  }

  /** The progress hash tells the same end. */
  predicate HashEnded(s: JobState, gen: nat, completed: bool) {
    && s.store.hash.status == Some(if completed then "completed" else "failed")
    && s.store.hash.generation == Some(gen)
    && (completed ==> s.row.Some? && s.store.hash.resultPath == s.row.value.resultPath)
  }

  /** After the end of an attempt: the row has it in any case; the progress hash follows
      and the context is gone as far as Redis answered, and is untouched otherwise. */
  predicate Ended(s: JobState, before: Redis.Store, gen: nat, completed: bool, reach: Reach) {
    && RowEnded(s, gen, completed)
    && (if reach.terminal then HashEnded(s, gen, completed) else s.store.hash == before.hash)
    && s.store.context == if reach.cleanup then map[] else before.context
  }

  predicate Written(persist: Persist) { !persist.DbDown? }

  lemma FailedEnds(s: JobState, gen: nat, row: Row, error: string, reach: Reach)
    requires Redis.EmbeddedBounded(s.store) && MayCommit(s, gen)
    ensures var s' := DoIf(reach.cleanup, MarkFailed(s, gen, row, error, reach.terminal), Redis.Op.DropContext);
            Ended(s', s.store, gen, false, reach) && s'.store.counter == s.store.counter
  {}

  lemma PersistEnds(s: JobState, gen: nat, row: Row, message: string, persist: Persist, reach: Reach)
    requires Redis.EmbeddedBounded(s.store) && MayCommit(s, gen) && Written(persist)
    ensures var s' := PersistCompletion(s, gen, row, message, persist, reach);
            && Ended(s', s.store, gen, persist.Saved?, reach) && s'.store.counter == s.store.counter
            && (persist.Saved? ==> s'.row.value.resultPath == Some(persist.path))
  {
    if persist.NotSaved? {
      var warning := Redis.Lookup(s.store.context, WARNING_KEY);
      var job := if persist.reached.Some? then CompletedRow(row, message, persist.reached.value, warning) else row;
      FailedEnds(s, gen, job, persist.why, reach);
    }
  }

  /** Counting entries into FAILED changes nothing else. */
  lemma CountedIsSilent(before: Option<Row>, s: JobState)
    ensures Counted(before, s).row == s.row && Counted(before, s).store == s.store
    ensures Counted(before, s).history.commits == s.history.commits
  {}

  lemma FinalizeSuccessEnds(s: JobState, gen: nat, persist: Persist, reach: Reach)
    requires Redis.EmbeddedBounded(s.store) && MayCommit(s, gen)
    requires TRANSCRIPT_KEY in s.store.context ==> Written(persist)
    ensures var s' := FinalizeSuccess(s, gen, persist, reach);
            var saved := TRANSCRIPT_KEY in s.store.context && persist.Saved?;
            && Ended(s', s.store, gen, saved, reach) && s'.store.counter == s.store.counter
            && (saved ==> s'.row.value.resultPath == Some(persist.path))
  {
    if TRANSCRIPT_KEY in s.store.context {
      PersistEnds(s, gen, s.row.value, Redis.PIPELINE_COMPLETE, persist, reach);
    } else {
      FailedEnds(s, gen, s.row.value, NO_TRANSCRIPT, reach);
    }
  }

  /** The success callback of a superseded attempt only settles its sub-job. That of
      the latest attempt, unless SQLite refuses, ends it, and completes it exactly when
      there is a transcript and it could be saved; the row says so whether or not Redis
      answers, and the Redis keys agree as far as it does. */
  lemma SuccessCallbackOutcome(s: JobState, l: Label)
    requires Inv(s) && Enabled(s, l) && l.SuccessCallback?
    ensures Stale(s, l.gen) ==> Next(s, l).row == s.row && Next(s, l).store == s.store
    ensures var s' := Next(s, l);
            var saved := TRANSCRIPT_KEY in s.store.context && l.persist.Saved?;
            !Stale(s, l.gen) && (TRANSCRIPT_KEY in s.store.context ==> Written(l.persist)) ==>
              && Ended(s', s.store, l.gen, saved, l.reach) && s'.store.counter == s.store.counter
              && (saved ==> s'.row.value.resultPath == Some(l.persist.path))
  {
    var settled := WithSub(s, l.gen, l.stage, Settled(true));
    CountedIsSilent(s.row, FinalizeSuccess(settled, l.gen, l.persist, l.reach));
    if !Stale(s, l.gen) {
      CurrentMayCommit(s, l.gen, l.stage, Settled(true));
      if TRANSCRIPT_KEY in s.store.context ==> Written(l.persist) {
        FinalizeSuccessEnds(settled, l.gen, l.persist, l.reach);
      }
    }
  }

  predicate Salvages(s: JobState, stage: Stage) {
    stage == LlmCorrection && TRANSCRIPT_KEY in s.store.context
  }

  lemma FinalizeFailureEnds(s: JobState, gen: nat, stage: Stage, error: string, persist: Persist,
                            cancelled: set<Stage>, dbUp: bool, reach: Reach)
    requires Redis.EmbeddedBounded(s.store) && MayCommit(s, gen)
    ensures var s' := FinalizeFailure(s, gen, stage, error, persist, cancelled, dbUp, reach);
            && (Salvages(s, stage) && Written(persist) ==>
                  Ended(s', s.store, gen, persist.Saved?, reach) && s'.store.counter == s.store.counter)
            && (!Salvages(s, stage) && dbUp ==> Ended(s', s.store, gen, false, reach) && Stale(s', gen))
            && (!Salvages(s, stage) && !dbUp ==>
                  s'.row == s.row && s'.store == if reach.cleanup then s.store.(context := map[]) else s.store)
  {
    if Salvages(s, stage) {
      if Written(persist) { PersistEnds(s, gen, s.row.value, LLM_CORRECTION_SKIPPED, persist, reach); }
    } else if dbUp {
      FailedEnds(CancelSiblings(s, gen, stage, cancelled), gen, s.row.value, error, reach);
    }
  }

  /** The failure callback of the latest attempt ends it likewise. Only the optional tail
      with a transcript at hand may end it COMPLETED, and then the counter stays; any
      other failure fences the attempt by a bump. */
  lemma FailureCallbackOutcome(s: JobState, l: Label)
    requires Inv(s) && Enabled(s, l) && l.FailureCallback?
    ensures var s' := Next(s, l);
            && (Stale(s, l.gen) ==> s'.row == s.row && s'.store == s.store)
            && (!Stale(s, l.gen) && Salvages(s, l.stage) && Written(l.persist) ==>
                  Ended(s', s.store, l.gen, l.persist.Saved?, l.reach) && s'.store.counter == s.store.counter)
            && (!Stale(s, l.gen) && !Salvages(s, l.stage) && l.dbUp ==>
                  Ended(s', s.store, l.gen, false, l.reach) && Stale(s', l.gen))
            && (!Stale(s, l.gen) && !Salvages(s, l.stage) && !l.dbUp ==>
                  s'.row == s.row && s'.store == if l.reach.cleanup then s.store.(context := map[]) else s.store)
  {
    var settled := WithSub(s, l.gen, l.stage, Settled(false));
    CountedIsSilent(s.row, FinalizeFailure(settled, l.gen, l.stage, l.error, l.persist, l.cancelled, l.dbUp, l.reach));
    if !Stale(s, l.gen) {
      CurrentMayCommit(s, l.gen, l.stage, Settled(false));
      FinalizeFailureEnds(settled, l.gen, l.stage, l.error, l.persist, l.cancelled, l.dbUp, l.reach);
    }
  }

  /** Why marking FAILED and bumping count as one step: with the bump lost, a report of a
      sibling that runs on is accepted and its mirror takes the row back to PROCESSING;
      with it, the report is refused. */
  lemma LostBumpWouldResurrect(s: JobState, gen: nat, stage: Stage, error: string, reach: Reach,
                               progress: real, message: string)
    requires Inv(s) && Known(s, gen, stage) && Sub(s, gen, stage).Running? && gen == Counter(s) && s.row.Some?
    ensures var marked := MarkFailed(s, gen, s.row.value, error, reach.terminal);
            var bumped := Do(marked, Redis.Op.BumpGeneration);
            && IsFailed(marked.row)
            && HasStatus(ReportStep(marked, gen, stage, progress, message, true, true), Processing)
            && ReportStep(bumped, gen, stage, progress, message, true, true) == bumped
  {
    MovingIsLive(s, gen, stage);
    OnlyTheBumpRefuses(s.store, gen, error, reach.terminal, Redis.Op.Report(Some(gen), progress, message));
  }

  lemma OnlyTheBumpRefuses(store: Redis.Store, gen: nat, error: string, up: bool, report: Redis.Op)
    requires Redis.EmbeddedBounded(store) && store.counter == Some(gen) && report.Report? && report.gen == Some(gen)
    ensures var marked := if up then Redis.Apply(store, Redis.Op.Fail(Some(gen), error)).0 else store;
            && Redis.Apply(marked, report).1
            && !Redis.Apply(Redis.Apply(marked, Redis.Op.BumpGeneration).0, report).1
  {
  }

  predicate HasStatus(s: JobState, status: Status) { s.row.Some? && s.row.value.status == status }

  /* ---------------- rows ---------------- */

  /** A COMPLETED row has a result, a FAILED row an error, an active row no result. */
  predicate RowOk(row: Option<Row>) {
    row.Some? ==>
      && (row.value.status == Completed ==> row.value.resultPath.Some?)
      && (row.value.status == Failed ==> row.value.error.Some?)
      && (Active(row.value.status) ==> row.value.resultPath.None?)
  }

  lemma PersistKeepsRowOk(s: JobState, gen: nat, row: Row, message: string, persist: Persist, reach: Reach)
    requires RowOk(s.row) && s.row == Some(row)
    ensures RowOk(PersistCompletion(s, gen, row, message, persist, reach).row)
  {}

  lemma SuccessKeepsRowOk(s: JobState, gen: nat, persist: Persist, reach: Reach)
    requires RowOk(s.row)
    ensures RowOk(Counted(s.row, FinalizeSuccess(s, gen, persist, reach)).row)
  {
    CountedIsSilent(s.row, FinalizeSuccess(s, gen, persist, reach));
    if s.row.Some? { PersistKeepsRowOk(s, gen, s.row.value, Redis.PIPELINE_COMPLETE, persist, reach); }
  }

  lemma FailAndBumpKeepsRowOk(s: JobState, gen: nat, row: Row, error: string, dbUp: bool, reach: Reach)
    requires RowOk(s.row)
    ensures RowOk(FailAndBump(s, gen, row, error, dbUp, reach).row)
  {}

  lemma FailureKeepsRowOk(s: JobState, gen: nat, stage: Stage, error: string, persist: Persist,
                          cancelled: set<Stage>, dbUp: bool, reach: Reach)
    requires RowOk(s.row)
    ensures RowOk(Counted(s.row, FinalizeFailure(s, gen, stage, error, persist, cancelled, dbUp, reach)).row)
  {
    CountedIsSilent(s.row, FinalizeFailure(s, gen, stage, error, persist, cancelled, dbUp, reach));
    if s.row.Some? {
      PersistKeepsRowOk(s, gen, s.row.value, LLM_CORRECTION_SKIPPED, persist, reach);
      FailAndBumpKeepsRowOk(CancelSiblings(s, gen, stage, cancelled), gen, s.row.value, error, dbUp, reach);
    }
  }

  lemma ReportKeepsRowOk(s: JobState, gen: nat, stage: Stage, progress: real, message: string,
                         redisUp: bool, dbUp: bool)
    requires Inv(s) && RowOk(s.row) && Known(s, gen, stage) && Sub(s, gen, stage).Running?
    ensures RowOk(Counted(s.row, ReportStep(s, gen, stage, progress, message, redisUp, dbUp)).row)
  {
    CountedIsSilent(s.row, ReportStep(s, gen, stage, progress, message, redisUp, dbUp));
    if redisUp && Redis.Apply(s.store, Redis.Op.Report(Some(gen), progress, message)).1 {
      AcceptedIsLive(s, gen, stage, progress, message);
    }
  }

  lemma OthersKeepRowOk(s: JobState, l: Label)
    requires Inv(s) && RowOk(s.row) && Enabled(s, l)
    requires !l.ReportProgress? && !l.SuccessCallback? && !l.FailureCallback?
    ensures RowOk(Next(s, l).row)
  {
    CountedIsSilent(s.row, Step(s, l));
  }

  lemma StepKeepsRowOk(s: JobState, l: Label)
    requires Inv(s) && RowOk(s.row) && Enabled(s, l)
    ensures RowOk(Next(s, l).row)
  {
    match l
    case ReportProgress(gen, stage, progress, message, redisUp, dbUp) =>
      ReportKeepsRowOk(s, gen, stage, progress, message, redisUp, dbUp);
    case SuccessCallback(gen, stage, persist, reach) =>
      SuccessKeepsRowOk(WithSub(s, gen, stage, Settled(true)), gen, persist, reach);
    case FailureCallback(gen, stage, error, persist, cancelled, dbUp, reach) =>
      FailureKeepsRowOk(WithSub(s, gen, stage, Settled(false)), gen, stage, error, persist, cancelled, dbUp, reach);
    case _ => OthersKeepRowOk(s, l);
  }

  /** ... in every state of every run, however stale the writers and whatever fails. */
  lemma {:induction false} RowsAreAlwaysOk(now: int, timeout: nat, labels: seq<Label>)
    requires After(Inserted(now, timeout), labels).Some?
    ensures RowOk(After(Inserted(now, timeout), labels).value.row)
  {
    if labels != [] {
      var front := labels[..|labels| - 1];
      RowsAreAlwaysOk(now, timeout, front);
      InsertedInv(now, timeout);
      InvAfter(Inserted(now, timeout), front);
      StepKeepsRowOk(After(Inserted(now, timeout), front).value, labels[|labels| - 1]);
    }
  }
}
