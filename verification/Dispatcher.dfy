/** The callbacks of the dispatcher as they are written: branches, early returns and
    updates in place of one job's row, sub-jobs and Redis keys. Each method is
    proved to perform exactly the protocol step whose whole-run consequences are
    proved in AttemptTheorems. */
module Dispatcher {
  import opened Common
  import opened PipelineDag
  import opened AttemptProtocol
  import Redis = RedisGates
  import opened RedisStore

  class JobProcess {
    const keys: JobKeys
    var row: Option<Row>
    var attempts: map<int, Attempt>
    var now: int
    ghost var history: History

    /** The protocol state, with the parts no callback touches taken from `base`. */
    ghost function State(base: JobState): JobState
      reads this, keys
    {
      base.(store := keys.View(), row := row, attempts := attempts, now := now, history := history)
    }

    constructor (keys: JobKeys, row: Option<Row>, attempts: map<int, Attempt>, now: int, ghost history: History)
      ensures this.keys == keys && this.row == row && this.attempts == attempts
      ensures this.now == now && this.history == history
    {
      this.keys, this.row, this.attempts, this.now, this.history := keys, row, attempts, now, history;
    }

    /** `update_job` with a terminal status: every column, and a fresh updated_at. */
    method WriteTerminal(gen: int, job: Row, ghost base: JobState)
      modifies this`row, this`history
      ensures State(base) == Commit(old(State(base)), gen, job)
    {
      row := Some(job.(updatedAt := now));
      history := history.(commits := history.commits[gen := Commits(history, gen) + 1]);
    }

    /** `fail` swallows a Redis outage; `up` is whether Redis answers. */
    method MarkFailed(gen: nat, job: Row, error: string, up: bool, ghost base: JobState)
      modifies this`row, this`history, keys
      ensures State(base) == AttemptProtocol.MarkFailed(old(State(base)), gen, job, error, up)
    {
      var failed := job.(status := Failed);
      failed := failed.(error := Some(Redis.Truncate(error, Redis.ERROR_MAX_LENGTH)));
      failed := failed.(message := "Failed: " + Redis.Truncate(error, ERROR_DISPLAY_LENGTH));
      WriteTerminal(gen, failed, base);
      var _ := keys.Fail(Some(gen), error, up);
    }

    /** Best-effort housekeeping. */
    method DropContext(up: bool, ghost base: JobState)
      modifies keys
      ensures State(base) == DoIf(up, old(State(base)), Redis.Op.DropContext)
    {
      if up {
        keys.DeleteContext();
      }
    }

    method PersistCompletion(gen: nat, job: Row, message: string, persist: Persist, reach: Reach, ghost base: JobState)
      modifies this`row, this`history, keys
      ensures State(base) == AttemptProtocol.PersistCompletion(old(State(base)), gen, job, message, persist, reach)
    {
      var warning := Redis.Lookup(keys.context, WARNING_KEY);
      match persist {
        case Saved(path) =>
          WriteTerminal(gen, CompletedRow(job, message, path, warning), base);
          var _ := keys.Complete(Some(gen), path, reach.terminal);
        case NotSaved(reached, why) =>
          var failing := job;
          if reached.Some? {
            failing := CompletedRow(job, message, reached.value, warning);
          }
          MarkFailed(gen, failing, why, reach.terminal, base);
        case DbDown =>
      }
      DropContext(reach.cleanup, base);
    }

    /** A sub-job or a counter without a generation is not stale. */
    method IsStale(gen: Option<int>) returns (stale: bool)
      ensures stale <==> Redis.IsStaleCallback(keys.View().counter, gen)
    {
      if gen.None? || keys.counter.None? {
        return false;
      }
      return gen.value < keys.counter.value;
    }

    method FinalizeSuccess(gen: nat, persist: Persist, reach: Reach, ghost base: JobState)
      modifies this`row, this`history, keys
      ensures State(base) == AttemptProtocol.FinalizeSuccess(old(State(base)), gen, persist, reach)
    {
      var stale := IsStale(Some(gen));
      if stale {
        return;
      }
      if row.None? {
        return;
      }
      if row.value.status == Completed || row.value.status == Failed {
        return;
      }
      if TRANSCRIPT_KEY !in keys.context {
        MarkFailed(gen, row.value, NO_TRANSCRIPT, reach.terminal, base);
        DropContext(reach.cleanup, base);
        return;
      }
      PersistCompletion(gen, row.value, Redis.PIPELINE_COMPLETE, persist, reach, base);
    }

    /** `cancel_remaining_subjobs`: one sibling after the other; a cancel that fails,
        or comes too late, is skipped. `obeys` are the siblings that do stop. */
    method CancelRemainingSubjobs(gen: int, siblings: seq<Stage>, exclude: Stage, obeys: set<Stage>)
      requires gen in attempts
      requires forall st :: st in siblings <==> st in attempts[gen].subs
      modifies this`attempts
      ensures attempts == old(attempts)[gen := Stop(old(attempts[gen]), exclude, obeys)]
    {
      var before := attempts[gen];
      var subs := before.subs;
      for i := 0 to |siblings|
        invariant subs.Keys == before.subs.Keys
        invariant forall st :: st in subs ==>
                    subs[st] == if st in siblings[..i] then Stop(before, exclude, obeys).subs[st] else before.subs[st]
      {
        var st := siblings[i];
        if st != exclude && st in obeys && (subs[st].Waiting? || subs[st].Running?) {
          subs := subs[st := Cancelled];
        }
      }
      assert forall st :: st in subs ==> st in siblings[..|siblings|];
      assert subs == Stop(before, exclude, obeys).subs;
      attempts := attempts[gen := before.(subs := subs)];
    }

    method FinalizeFailure(gen: nat, stage: Stage, error: string, persist: Persist, siblings: seq<Stage>,
                           obeys: set<Stage>, dbUp: bool, reach: Reach, ghost base: JobState)
      requires gen in attempts
      requires forall st :: st in siblings <==> st in attempts[gen].subs
      modifies this`row, this`history, this`attempts, keys
      ensures State(base) ==
              AttemptProtocol.FinalizeFailure(old(State(base)), gen, stage, error, persist, obeys, dbUp, reach)
    {
      var stale := IsStale(Some(gen));
      if stale {
        return;
      }
      if row.None? {
        return;
      }
      if row.value.status == Failed {
        return;
      }
      if stage == LlmCorrection && TRANSCRIPT_KEY in keys.context {
        PersistCompletion(gen, row.value, LLM_CORRECTION_SKIPPED, persist, reach, base);
        return;
      }
      var job := row.value;
      CancelRemainingSubjobs(gen, siblings, stage, obeys);
      FailAndBump(gen, job, error, dbUp, reach, base);
    }

    /** The end of the failing branch. `dbUp` is whether the row could be marked at all;
        the cleanup happens either way. */
    method FailAndBump(gen: nat, job: Row, error: string, dbUp: bool, reach: Reach, ghost base: JobState)
      modifies this`row, this`history, keys
      ensures State(base) == AttemptProtocol.FailAndBump(old(State(base)), gen, job, error, dbUp, reach)
    {
      if dbUp {
        MarkFailed(gen, job, error, reach.terminal, base);
        var _ := keys.BumpGeneration();
      }
      DropContext(reach.cleanup, base);
    }

    /** The mirror half of a throttled report: returns the Job snapshot the stage
        holds afterwards. */
    method ReportAndMirror(gen: nat, job: Row, progress: real, message: string, redisUp: bool, dbUp: bool)
      returns (written: bool, held: Row)
      modifies this`row, keys
      ensures written <==> !redisUp || Redis.Apply(old(keys.View()), Redis.Op.Report(Some(gen), progress, message)).1
      ensures !written ==> row == old(row) && keys.View() == old(keys.View()) && held == job
      ensures written ==>
                && held == job.(progress := progress, message := message,
                                updatedAt := if redisUp then now else job.updatedAt)
                && row == (if dbUp then Mirror(old(row), now, held, !redisUp) else old(row))
      ensures keys.View() == if redisUp
                             then Redis.Apply(old(keys.View()), Redis.Op.Report(Some(gen), progress, message)).0
                             else old(keys.View())
    {
      var outcome := keys.Report(Some(gen), progress, message, redisUp);
      if outcome == Rejected {
        return false, job;
      }
      held := job.(progress := progress, message := message);
      if outcome == Degraded {
        if dbUp && row.Some? {
          row := Some(row.value.(progress := progress, message := message, updatedAt := now));
        }
      } else {
        held := held.(updatedAt := now);
        if dbUp && row.Some? {
          row := Some(held);
        }
      }
      written := true;
    }
  }
}
