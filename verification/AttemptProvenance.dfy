/** Whose transcript an attempt completes with, over whole runs. */
module AttemptProvenance {
  import opened Common
  import opened PipelineDag
  import opened AttemptProtocol
  import opened AttemptInvariant
  import opened AttemptOutcomes
  import Redis = RedisGates

  /** Step i of the run gave attempt g this context value: a stage of g returned it as a
      declared output, or g was enqueued with it. */
  ghost predicate Gives(start: JobState, labels: seq<Label>, i: nat, g: int, k: string, v: string)
    requires i < |labels|
  {
    match labels[i]
    case FinishStage(gen, stage, ok, outputs) =>
      gen == g && ok && k in Writes(stage) && k in outputs && outputs[k] == v
    case Enqueue(_, seed) =>
      var after := After(start, labels[..i + 1]);
      k in seed && seed[k] == v && after.Some? && after.value.owner == g
    case _ => false
  }

  ghost predicate Given(start: JobState, labels: seq<Label>, g: int, k: string, v: string) {
    exists i: nat :: i < |labels| && Gives(start, labels, i, g, k, v)
  }

  /** While the latest attempt owns the counter, the context is its own, hook keys aside. */
  ghost predicate OwnContext(start: JobState, labels: seq<Label>, s: JobState) {
    Counter(s) == s.owner > 0 ==>
      forall k :: k in s.store.context && k !in Redis.HOOK_KEYS ==>
        Given(start, labels, s.owner, k, s.store.context[k])
  }

  lemma GivenStays(start: JobState, front: seq<Label>, l: Label, g: int, k: string, v: string)
    requires Given(start, front, g, k, v)
    ensures Given(start, front + [l], g, k, v)
  {
    var labels := front + [l];
    var i: nat :| i < |front| && Gives(start, front, i, g, k, v);
    assert labels[i] == front[i] && labels[..i + 1] == front[..i + 1];
    assert Gives(start, labels, i, g, k, v);
  }

  predicate Kept(s: JobState, t: JobState, k: string)
    requires k in t.store.context
  {
    k in s.store.context && s.store.context[k] == t.store.context[k] && t.owner == s.owner == Counter(s)
  }

  /** What a step may do to a context value the latest attempt can see: keep it, or bring
      it in as that attempt's seed or as an output of one of its stages. */
  predicate Explained(s: JobState, l: Label, t: JobState, k: string)
    requires k in t.store.context
  {
    var v := t.store.context[k];
    || Kept(s, t, k)
    || (l.Enqueue? && k in l.seed && l.seed[k] == v)
    || (l.FinishStage? && l.gen == t.owner && l.ok && k in Writes(l.stage) && k in l.outputs && l.outputs[k] == v)
  }

  ghost predicate AllExplained(s: JobState, l: Label, t: JobState) {
    Counter(t) == t.owner > 0 ==>
      forall k :: k in t.store.context && k !in Redis.HOOK_KEYS ==> Explained(s, l, t, k)
  }

  lemma FinishExplains(s: JobState, l: Label)
    requires Inv(s) && Enabled(s, l) && l.FinishStage?
    ensures AllExplained(s, l, Next(s, l))
  {
    CountedIsSilent(s.row, Step(s, l));
  }

  /** A store that only lost context, or whose counter only moved on. */
  predicate NothingNew(before: Redis.Store, after: Redis.Store) {
    && (forall k :: k in after.context ==> k in before.context && after.context[k] == before.context[k])
    && (after.counter == before.counter || (after.counter.Some? && after.counter.value == Redis.Bumped(before.counter)))
  }

  lemma SuccessBringsNothing(s: JobState, gen: nat, persist: Persist, reach: Reach)
    ensures NothingNew(s.store, FinalizeSuccess(s, gen, persist, reach).store)
    ensures FinalizeSuccess(s, gen, persist, reach).owner == s.owner
  {
    if s.row.Some? { PersistBringsNothing(s, gen, s.row.value, Redis.PIPELINE_COMPLETE, persist, reach); }
  }

  lemma PersistBringsNothing(s: JobState, gen: nat, row: Row, message: string, persist: Persist, reach: Reach)
    ensures var t := PersistCompletion(s, gen, row, message, persist, reach);
            NothingNew(s.store, t.store) && t.owner == s.owner
  {}

  lemma FailAndBumpBringsNothing(s: JobState, gen: nat, row: Row, error: string, dbUp: bool, reach: Reach)
    ensures var t := FailAndBump(s, gen, row, error, dbUp, reach);
            NothingNew(s.store, t.store) && t.owner == s.owner
  {}

  lemma FailureBringsNothing(s: JobState, gen: nat, stage: Stage, error: string, persist: Persist,
                             cancelled: set<Stage>, dbUp: bool, reach: Reach)
    ensures var t := FinalizeFailure(s, gen, stage, error, persist, cancelled, dbUp, reach);
            NothingNew(s.store, t.store) && t.owner == s.owner
  {
    if s.row.Some? {
      PersistBringsNothing(s, gen, s.row.value, LLM_CORRECTION_SKIPPED, persist, reach);
      FailAndBumpBringsNothing(CancelSiblings(s, gen, stage, cancelled), gen, s.row.value, error, dbUp, reach);
    }
  }

  lemma NothingNewIsExplained(s: JobState, l: Label, t: JobState)
    requires StoreInv(s.store, s.owner) && NothingNew(s.store, t.store) && t.owner == s.owner
    ensures AllExplained(s, l, t)
  {}

  lemma CallbackExplains(s: JobState, l: Label)
    requires Inv(s) && Enabled(s, l) && (l.SuccessCallback? || l.FailureCallback?)
    ensures AllExplained(s, l, Next(s, l))
  {
    var settled := WithSub(s, l.gen, l.stage, Settled(l.SuccessCallback?));
    if l.SuccessCallback? {
      SuccessBringsNothing(settled, l.gen, l.persist, l.reach);
    } else {
      FailureBringsNothing(settled, l.gen, l.stage, l.error, l.persist, l.cancelled, l.dbUp, l.reach);
    }
    CountedIsSilent(s.row, Step(s, l));
    NothingNewIsExplained(s, l, Next(s, l));
  }

  lemma ReportBringsNothing(s: JobState, gen: nat, stage: Stage, progress: real, message: string,
                            redisUp: bool, dbUp: bool)
    requires Known(s, gen, stage) && Sub(s, gen, stage).Running?
    ensures var t := ReportStep(s, gen, stage, progress, message, redisUp, dbUp);
            NothingNew(s.store, t.store) && t.owner == s.owner
  {}

  lemma ReportExplains(s: JobState, l: Label)
    requires Inv(s) && Enabled(s, l) && l.ReportProgress?
    ensures AllExplained(s, l, Next(s, l))
  {
    ReportBringsNothing(s, l.gen, l.stage, l.progress, l.message, l.redisUp, l.dbUp);
    CountedIsSilent(s.row, Step(s, l));
    NothingNewIsExplained(s, l, Next(s, l));
  }

  lemma EnqueueExplains(s: JobState, l: Label)
    requires Inv(s) && Enabled(s, l) && l.Enqueue?
    ensures AllExplained(s, l, Next(s, l))
  {
    CountedIsSilent(s.row, EnqueueStep(s, l.shape, l.seed));
  }

  /** The hooks write their three keys and nothing else. */
  lemma HookExplains(s: JobState, l: Label)
    requires Inv(s) && Enabled(s, l) && l.Hook?
    ensures AllExplained(s, l, Next(s, l))
  {
    CountedIsSilent(s.row, Do(s, Redis.Op.HookWrite(l.hookUpdates)));
  }

  lemma OthersBringNothing(s: JobState, l: Label)
    requires Enabled(s, l) && (IsRequest(l) || IsReaperOrClock(l) || l.StartStage? || l.CallbackLost?) && !l.Enqueue?
    ensures NothingNew(s.store, Step(s, l).store) && Step(s, l).owner == s.owner
  {}

  lemma OthersExplain(s: JobState, l: Label)
    requires Inv(s) && Enabled(s, l)
    requires (IsRequest(l) || IsReaperOrClock(l) || l.StartStage? || l.CallbackLost?) && !l.Enqueue?
    ensures AllExplained(s, l, Next(s, l))
  {
    OthersBringNothing(s, l);
    CountedIsSilent(s.row, Step(s, l));
    NothingNewIsExplained(s, l, Next(s, l));
  }

  lemma StepExplains(s: JobState, l: Label)
    requires Inv(s) && Enabled(s, l)
    ensures AllExplained(s, l, Next(s, l))
  {
    if l.FinishStage? {
      FinishExplains(s, l);
    } else if l.SuccessCallback? || l.FailureCallback? {
      CallbackExplains(s, l);
    } else if l.ReportProgress? {
      ReportExplains(s, l);
    } else if l.Enqueue? {
      EnqueueExplains(s, l);
    } else if l.Hook? {
      HookExplains(s, l);
    } else {
      OthersExplain(s, l);
    }
  }

  lemma SnocOwnContext(start: JobState, front: seq<Label>, l: Label, s: JobState)
    requires After(start, front) == Some(s) && Inv(s) && Enabled(s, l) && OwnContext(start, front, s)
    ensures OwnContext(start, front + [l], Next(s, l))
  {
    var labels, t := front + [l], Next(s, l);
    assert labels[..|front|] == front && labels[..|front| + 1] == labels;
    StepExplains(s, l);
    if Counter(t) == t.owner > 0 {
      forall k | k in t.store.context && k !in Redis.HOOK_KEYS
        ensures Given(start, labels, t.owner, k, t.store.context[k])
      {
        assert Explained(s, l, t, k);
        if Kept(s, t, k) {
          GivenStays(start, front, l, t.owner, k, t.store.context[k]);
        } else {
          assert Gives(start, labels, |front|, t.owner, k, t.store.context[k]);
        }
      }
    }
  }

  lemma {:induction false} ContextIsOwn(now: int, timeout: nat, labels: seq<Label>)
    requires After(Inserted(now, timeout), labels).Some?
    ensures OwnContext(Inserted(now, timeout), labels, After(Inserted(now, timeout), labels).value)
  {
    if labels != [] {
      var start, front := Inserted(now, timeout), labels[..|labels| - 1];
      ContextIsOwn(now, timeout, front);
      InsertedInv(now, timeout);
      InvAfter(start, front);
      assert labels == front + [labels[|labels| - 1]];
      SnocOwnContext(start, front, labels[|labels| - 1], After(start, front).value);
    }
  }

  /* ---------------- completion ---------------- */

  predicate IsCompleted(row: Option<Row>) { row.Some? && row.value.status == Completed }

  predicate IsCallback(l: Label) { l.SuccessCallback? || l.FailureCallback? }

  lemma ReportDoesNotComplete(s: JobState, l: Label)
    requires Inv(s) && Enabled(s, l) && l.ReportProgress? && !IsCompleted(s.row)
    ensures !IsCompleted(Next(s, l).row)
  {
    CountedIsSilent(s.row, Step(s, l));
    if l.redisUp && Redis.Apply(s.store, Redis.Op.Report(Some(l.gen), l.progress, l.message)).1 {
      AcceptedIsLive(s, l.gen, l.stage, l.progress, l.message);
    }
  }

  lemma OthersDoNotComplete(s: JobState, l: Label)
    requires Inv(s) && Enabled(s, l) && !l.ReportProgress? && !IsCallback(l) && !IsCompleted(s.row)
    ensures !IsCompleted(Next(s, l).row)
  {
    CountedIsSilent(s.row, Step(s, l));
  }

  lemma CallbackCompletes(s: JobState, l: Label)
    requires Inv(s) && Enabled(s, l) && IsCallback(l) && !IsCompleted(s.row) && IsCompleted(Next(s, l).row)
    ensures l.gen == s.owner == Counter(s) > 0 && TRANSCRIPT_KEY in s.store.context && l.persist.Saved?
  {
    CountedIsSilent(s.row, Step(s, l));
    var settled := WithSub(s, l.gen, l.stage, Settled(l.SuccessCallback?));
    if !Stale(s, l.gen) { CurrentMayCommit(s, l.gen, l.stage, Settled(l.SuccessCallback?)); }
  }

  lemma OnlyCallbacksComplete(s: JobState, l: Label)
    requires Inv(s) && Enabled(s, l) && !IsCompleted(s.row) && IsCompleted(Next(s, l).row)
    ensures IsCallback(l) && l.gen == s.owner == Counter(s) > 0
    ensures TRANSCRIPT_KEY in s.store.context && l.persist.Saved?
  {
    if l.ReportProgress? {
      ReportDoesNotComplete(s, l);
    } else if IsCallback(l) {
      CallbackCompletes(s, l);
    } else {
      OthersDoNotComplete(s, l);
    }
  }

  /** Only a callback completes a job, and then with a transcript that the very attempt it
      belongs to was given: by its own postprocess or llm_correction stage, or by the seed
      it was enqueued with. Never with that of an earlier attempt, however late its
      stages, hooks and callbacks arrive. */
  lemma CompletedWithOwnTranscript(now: int, timeout: nat, labels: seq<Label>, s: JobState, l: Label)
    requires After(Inserted(now, timeout), labels) == Some(s) && Enabled(s, l)
    requires !IsCompleted(s.row) && IsCompleted(Next(s, l).row)
    ensures IsCallback(l) && l.persist.Saved? && TRANSCRIPT_KEY in s.store.context
    ensures Given(Inserted(now, timeout), labels, l.gen, TRANSCRIPT_KEY, s.store.context[TRANSCRIPT_KEY])
  {
    RunFacts(now, timeout, labels, s);
    OnlyCallbacksComplete(s, l);
    OwnContextGives(Inserted(now, timeout), labels, s, TRANSCRIPT_KEY);
  }

  lemma RunFacts(now: int, timeout: nat, labels: seq<Label>, s: JobState)
    requires After(Inserted(now, timeout), labels) == Some(s)
    ensures Inv(s) && OwnContext(Inserted(now, timeout), labels, s)
  {
    InsertedInv(now, timeout);
    InvAfter(Inserted(now, timeout), labels);
    ContextIsOwn(now, timeout, labels);
  }

  lemma OwnContextGives(start: JobState, labels: seq<Label>, s: JobState, k: string)
    requires OwnContext(start, labels, s) && Counter(s) == s.owner > 0
    requires k in s.store.context && k !in Redis.HOOK_KEYS
    ensures Given(start, labels, s.owner, k, s.store.context[k])
  {}

  /** With seeds that hold no transcript, as those of `enqueue_pipeline`, the transcript is
      an output of that attempt's postprocess or llm_correction. */
  lemma GivenByItsTail(start: JobState, labels: seq<Label>, g: int, v: string) returns (i: nat)
    requires Given(start, labels, g, TRANSCRIPT_KEY, v)
    requires forall j :: 0 <= j < |labels| && labels[j].Enqueue? ==> TRANSCRIPT_KEY !in labels[j].seed
    ensures i < |labels| && labels[i].FinishStage? && labels[i].gen == g && labels[i].ok
    ensures labels[i].stage == Postprocess || labels[i].stage == LlmCorrection
    ensures TRANSCRIPT_KEY in labels[i].outputs && labels[i].outputs[TRANSCRIPT_KEY] == v
  {
    i :| i < |labels| && Gives(start, labels, i, g, TRANSCRIPT_KEY, v);
  }
}
