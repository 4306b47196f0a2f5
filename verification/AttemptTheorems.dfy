/** What the attempt protocol guarantees over whole runs, for one job and for any
    number of jobs at once. */
module AttemptTheorems {
  import opened Common
  import opened PipelineDag
  import opened AttemptProtocol
  import opened AttemptInvariant
  import Redis = RedisGates

  /** States of a job that some run can produce. */
  ghost predicate Reachable(s: JobState) {
    exists now: int, timeout: nat, labels: seq<Label> :: After(Inserted(now, timeout), labels) == Some(s)
  }

  lemma ReachableInv(s: JobState)
    requires Reachable(s)
    ensures Inv(s)
  {
    var now: int, timeout: nat, labels: seq<Label> :| After(Inserted(now, timeout), labels) == Some(s);
    InsertedInv(now, timeout);
    InvAfter(Inserted(now, timeout), labels);
  }

  /** Whatever retries, zombie siblings, reaper passes and outages a run contains, and
      whoever dies in the middle, no attempt ever commits more than one terminal status. */
  lemma AtMostOneTerminalStatus(s: JobState, gen: nat)
    requires Reachable(s) && gen >= 1
    ensures Commits(s.history, gen) <= 1
  {
    ReachableInv(s);
  }

  /** A terminal row keeps its status and result path under every step except the
      two that are meant to change it: a claimed retry (of a FAILED row) and a delete. */
  lemma TerminalRowIsKept(s: JobState, l: Label)
    requires Inv(s) && Enabled(s, l) && s.row.Some? && Terminal(s.row.value.status)
    requires !l.ClaimRetry? && !l.DeleteRow?
    ensures Next(s, l).row.Some?
    ensures Next(s, l).row.value.status == s.row.value.status
    ensures Next(s, l).row.value.resultPath == s.row.value.resultPath
  {
    if l.ReportProgress? {
      ReportKeepsTerminal(s, l.gen, l.stage, l.progress, l.message, l.redisUp, l.dbUp);
    } else if l.SuccessCallback? || l.FailureCallback? {
      CallbackOfTerminalIsStale(s, l.gen, l.stage);
    } else {
      OthersKeepTerminal(s, l);
    }
  }

  lemma OthersKeepTerminal(s: JobState, l: Label)
    requires Inv(s) && Enabled(s, l) && s.row.Some? && Terminal(s.row.value.status)
    requires !l.ClaimRetry? && !l.DeleteRow? && !l.ReportProgress? && !l.SuccessCallback? && !l.FailureCallback?
    ensures Next(s, l).row.Some?
    ensures Next(s, l).row.value.status == s.row.value.status
    ensures Next(s, l).row.value.resultPath == s.row.value.resultPath
  {
  }

  /** The attempt that owns a terminal row has no callback left to fire. */
  lemma CallbackOfTerminalIsStale(s: JobState, gen: nat, stage: Stage)
    requires Inv(s) && s.row.Some? && Terminal(s.row.value.status)
    requires Known(s, gen, stage) && Sub(s, gen, stage).Returned?
    ensures Stale(s, gen)
  {
    if gen == Counter(s) { MovingIsLive(s, gen, stage); }
  }

  lemma ReportKeepsTerminal(s: JobState, gen: nat, stage: Stage, progress: real, message: string,
                            redisUp: bool, dbUp: bool)
    requires Inv(s) && s.row.Some? && Terminal(s.row.value.status)
    requires Known(s, gen, stage) && Sub(s, gen, stage).Running?
    ensures var row := ReportStep(s, gen, stage, progress, message, redisUp, dbUp).row;
            row.Some? && row.value.status == s.row.value.status && row.value.resultPath == s.row.value.resultPath
  {
    if redisUp && Redis.Apply(s.store, Redis.Op.Report(Some(gen), progress, message)).1 {
      AcceptedIsLive(s, gen, stage, progress, message);
    }
  }

  predicate CompletedWith(row: Option<Row>, path: Option<string>) {
    row.Some? && row.value.status == Completed && row.value.resultPath == path
  }

  predicate NoDelete(labels: seq<Label>) {
    forall i :: 0 <= i < |labels| ==> !labels[i].DeleteRow?
  }

  /** Once COMPLETED, the row keeps its status and result path in every later state
      until it is deleted, and it is never re-created. */
  lemma {:induction false} CompletedUntilDeleted(s: JobState, labels: seq<Label>)
    requires Inv(s) && s.row.Some? && s.row.value.status == Completed && After(s, labels).Some?
    ensures CompletedWith(After(s, labels).value.row, s.row.value.resultPath)
            || (After(s, labels).value.row.None? && !NoDelete(labels))
  {
    if labels != [] {
      var front, last := labels[..|labels| - 1], labels[|labels| - 1];
      CompletedUntilDeleted(s, front);
      InvAfter(s, front);
      if NoDelete(labels) { assert forall i :: 0 <= i < |front| ==> front[i] == labels[i]; }
      CompletedStep(After(s, front).value, last, s.row.value.resultPath);
    }
  }

  lemma CompletedStep(s: JobState, l: Label, path: Option<string>)
    requires Inv(s) && Enabled(s, l) && (CompletedWith(s.row, path) || s.row.None?)
    ensures CompletedWith(Next(s, l).row, path) || Next(s, l).row.None?
    ensures s.row.None? ==> Next(s, l).row.None?
    ensures s.row.Some? && Next(s, l).row.None? ==> l.DeleteRow?
  {
    if s.row.None? {
      DeletedStaysDeleted(s, l);
    } else if !l.DeleteRow? {
      TerminalRowIsKept(s, l);
    }
  }

  lemma DeletedStaysDeleted(s: JobState, l: Label)
    requires Inv(s) && Enabled(s, l) && s.row.None?
    ensures Next(s, l).row.None?
  {
  }

  /** Over whole runs: a row that is gone was deleted while it was terminal, never
      while it was QUEUED or PROCESSING. */
  lemma {:induction false} DeletedWasTerminal(s: JobState, labels: seq<Label>) returns (k: nat)
    requires s.row.Some? && After(s, labels).Some? && After(s, labels).value.row.None?
    ensures k < |labels| && labels[k].DeleteRow?
    ensures After(s, labels[..k]).Some? && After(s, labels[..k]).value.row.Some?
    ensures Terminal(After(s, labels[..k]).value.row.value.status)
  {
    var last := |labels| - 1;
    if After(s, labels[..last]).value.row.None? {
      k := DeletedWasTerminal(s, labels[..last]);
      assert labels[..last][..k] == labels[..k];
    } else {
      k := last;
      OnlyDeleteRemoves(After(s, labels[..last]).value, labels[last]);
    }
  }

  lemma OnlyDeleteRemoves(s: JobState, l: Label)
    requires Enabled(s, l) && s.row.Some? && Next(s, l).row.None?
    ensures l.DeleteRow? && Terminal(s.row.value.status)
  {
  }

  /** Retries never outnumber failures, and pipelines never outnumber retries: each
      entry into FAILED buys at most one claim, each claim at most one attempt. */
  lemma ClaimsBoundedByFailures(s: JobState)
    requires Reachable(s)
    ensures s.history.claims <= s.history.failures
    ensures |s.attempts| <= s.history.enqueued <= s.history.claims + 1
  {
    ReachableInv(s);
  }

  /** A reaper UPDATE that hits the row hits an attempt that was fenced before: the
      counter is past it, so none of its gated writes or callbacks lands any more. */
  lemma ReapedAttemptIsFenced(s: JobState, l: Label, gen: int)
    requires Inv(s) && Enabled(s, l) && l.ReapUpdate? && Next(s, l).row != s.row
    requires gen in s.attempts
    ensures Stale(s, gen) && IsFailed(Next(s, l).row)
    ensures s.pending.None?
  {
    assert MarkOk(l.mark, s.row, s.pending.None?, Fenced(s), s.now, s.timeout);
  }

  /** A row that nobody has touched for longer than the timeout is within reach of one
      pass, whoever died before: a request that never enqueued, a worker, or passes that
      bumped and never got to their UPDATE. */
  lemma OnePassRecovers(s: JobState, error: string)
    requires MayReap(s)
    ensures var listed := Mark(s.now, false);
            var after := After(s, [ReapList, ReapBump(listed), ReapUpdate(Mark(s.now, true), error)]);
            after.Some? && IsFailed(after.value.row)
  {
    var list, bump := ReapList, ReapBump(Mark(s.now, false));
    var update := ReapUpdate(Mark(s.now, true), error);
    AfterSnoc(s, [], list);
    assert [] + [list] == [list] && [list] + [bump] == [list, bump] && [list, bump] + [update] == [list, bump, update];
    var listed := Next(s, list);
    AfterSnoc(s, [list], bump);
    var bumped := Next(listed, bump);
    assert MayReap(bumped) && Mark(s.now, true) in bumped.marks;
    AfterSnoc(s, [list, bump], update);
  }

  /** Such rows come about: a request dies after its insert, then a pass bumps and dies
      too, and time goes by as long as it likes. */
  lemma StrandedIsReachable(timeout: nat, seconds: nat) returns (s: JobState)
    requires seconds > timeout
    ensures Reachable(s) && MayReap(s) && s.row.value.status == Queued && s.marks == {} && s.attempts == map[]
  {
    var start := Inserted(0, timeout);
    var labels := [RequestDies(false)];
    AfterSnoc(start, [], RequestDies(false));
    assert [] + [RequestDies(false)] == labels;
    labels := Extend(start, labels, Tick(seconds));
    labels := DeadPass(start, labels);
    labels := Extend(start, labels, Tick(seconds));
    s := After(start, labels).value;
  }

  /** A pass that lists the job, bumps, and dies. */
  lemma DeadPass(start: JobState, labels: seq<Label>) returns (longer: seq<Label>)
    requires After(start, labels).Some? && MayReap(After(start, labels).value)
    requires After(start, labels).value.marks == {}
    ensures After(start, longer).Some?
    ensures After(start, longer).value == Do(After(start, labels).value, Redis.Op.BumpGeneration)
  {
    var now := After(start, labels).value.now;
    longer := Extend(start, labels, ReapList);
    longer := Extend(start, longer, ReapBump(Mark(now, false)));
    longer := Extend(start, longer, PassEnds(Mark(now, true)));
  }

  lemma Extend(s: JobState, labels: seq<Label>, l: Label) returns (longer: seq<Label>)
    requires After(s, labels).Some? && Enabled(After(s, labels).value, l)
    ensures longer == labels + [l] && After(s, longer) == Some(Next(After(s, labels).value, l))
  {
    AfterSnoc(s, labels, l);
    longer := labels + [l];
  }

  /** However an attempt reached its terminal status, from then on it is fenced by
      the counter or has no sub-job left that could write. */
  lemma CommittedAttemptIsOver(s: JobState, gen: int)
    requires Reachable(s) && gen in s.attempts && Commits(s.history, gen) > 0
    ensures Stale(s, gen) || Quiet(s.attempts[gen])
  {
    ReachableInv(s);
    CommittedIsNotLive(s, gen);
  }

  lemma CommittedIsNotLive(s: JobState, gen: int)
    requires Inv(s) && gen in s.attempts && Commits(s.history, gen) > 0
    ensures Stale(s, gen) || Quiet(s.attempts[gen])
  {
    if !Stale(s, gen) && !Quiet(s.attempts[gen]) {
      assert gen == s.owner && Live(s);
    }
  }

  /** `finalize_failure` only guards against FAILED: when a second, non-stale callback
      would demote a COMPLETED row. */
  lemma SecondCallbackWouldDemote(s: JobState, gen: nat, stage: Stage, error: string, persist: Persist,
                                  cancelled: set<Stage>, reach: Reach)
    requires s.row.Some? && s.row.value.status == Completed
    ensures IsFailed(FinalizeFailure(s, gen, stage, error, persist, cancelled, true, reach).row) <==>
            !Stale(s, gen) && (stage == LlmCorrection && TRANSCRIPT_KEY in s.store.context ==> persist.NotSaved?)
  {
  }

  /* ---------------- any number of jobs ---------------- */

  datatype Event = Insert(id: string, now: int, timeout: nat) | On(id: string, step: Label)

  function WorldAfter(events: seq<Event>): Option<map<string, JobState>> {
    if events == [] then Some(map[])
    else
      var before := WorldAfter(events[..|events| - 1]);
      if before.None? then None
      else
        var w := before.value;
        match events[|events| - 1]
        case Insert(id, now, timeout) => if id in w then None else Some(w[id := Inserted(now, timeout)])
        case On(id, step) =>
          if id in w && Enabled(w[id], step) then Some(w[id := Next(w[id], step)]) else None
  }

  /** The steps of one job, and the insert they start from. */
  function Own(events: seq<Event>, id: string): seq<Label> {
    if events == [] then []
    else
      var own := Own(events[..|events| - 1], id);
      var last := events[|events| - 1];
      if last.On? && last.id == id then own + [last.step] else own
  }

  function Born(events: seq<Event>, id: string): Option<JobState> {
    if events == [] then None
    else
      var last := events[|events| - 1];
      if last.Insert? && last.id == id then Some(Inserted(last.now, last.timeout))
      else Born(events[..|events| - 1], id)
  }

  /** Jobs do not interfere: in any interleaving each job is exactly where its own
      steps alone would have taken it. */
  lemma {:induction false} JobsDoNotInterfere(events: seq<Event>, id: string)
    requires WorldAfter(events).Some?
    ensures id in WorldAfter(events).value ==>
              Born(events, id).Some? &&
              After(Born(events, id).value, Own(events, id)) == Some(WorldAfter(events).value[id])
    ensures id !in WorldAfter(events).value ==> Own(events, id) == []
  {
    if events != [] {
      var front, last := events[..|events| - 1], events[|events| - 1];
      JobsDoNotInterfere(front, id);
      var own := Own(front, id);
      if last.On? && last.id == id {
        assert (own + [last.step])[..|own|] == own;
      }
    }
  }

  lemma {:induction false} BornIsInserted(events: seq<Event>, id: string)
    requires Born(events, id).Some?
    ensures exists now: int, timeout: nat :: Born(events, id).value == Inserted(now, timeout)
  {
    var last := events[|events| - 1];
    if last.Insert? && last.id == id {
      assert Born(events, id).value == Inserted(last.now, last.timeout);
    } else {
      BornIsInserted(events[..|events| - 1], id);
    }
  }

  /** Hence the single-job theorems hold for every job of every mixed run. */
  lemma EveryJobIsReachable(events: seq<Event>, id: string)
    requires WorldAfter(events).Some? && id in WorldAfter(events).value
    ensures Reachable(WorldAfter(events).value[id])
    ensures forall gen: nat :: gen >= 1 ==> Commits(WorldAfter(events).value[id].history, gen) <= 1
  {
    var s := WorldAfter(events).value[id];
    JobsDoNotInterfere(events, id);
    BornIsInserted(events, id);
    var now: int, timeout: nat :| Born(events, id).value == Inserted(now, timeout);
    assert After(Inserted(now, timeout), Own(events, id)) == Some(s);
    ReachableInv(s);
  }

  /* ---------------- runs exist ---------------- */

  lemma AfterSnoc(s: JobState, labels: seq<Label>, l: Label)
    requires After(s, labels).Some? && Enabled(After(s, labels).value, l)
    ensures After(s, labels + [l]) == Some(Next(After(s, labels).value, l))
  {
    assert (labels + [l])[..|labels|] == labels;
  }

  const SMALLEST := Shape(false, false, false)

  /** The first attempt of an active job stands at these sub-job states. */
  predicate Stands(s: JobState, subs: map<Stage, SubState>, context: Redis.Context) {
    && s.row.Some? && Active(s.row.value.status)
    && s.store.counter == Some(1) && s.store.context == context
    && 1 in s.attempts && s.attempts[1] == Attempt(SMALLEST, subs)
  }

  /** A run has brought it there. */
  predicate At(labels: seq<Label>, subs: map<Stage, SubState>, context: Redis.Context) {
    var s := After(Inserted(0, 0), labels);
    s.Some? && Stands(s.value, subs, context)
  }

  lemma Starts(s: JobState, subs: map<Stage, SubState>, context: Redis.Context, stage: Stage) returns (job: Row)
    requires Stands(s, subs, context)
    requires stage in subs && subs[stage] == Waiting && DependenciesDone(Attempt(SMALLEST, subs), stage)
    ensures Enabled(s, StartStage(1, stage))
    ensures Stands(Next(s, StartStage(1, stage)), subs[stage := Running(job)], context)
  {
    job := Sub(StartStep(s, 1, stage), 1, stage).job;
  }

  lemma Finishes(s: JobState, subs: map<Stage, SubState>, context: Redis.Context, stage: Stage, outputs: Redis.Context)
    requires Stands(s, subs, context) && outputs.Keys <= Writes(stage)
    requires stage in subs && subs[stage].Running?
    ensures Enabled(s, FinishStage(1, stage, true, outputs))
    ensures Stands(Next(s, FinishStage(1, stage, true, outputs)),
                   subs[stage := if stage == Postprocess then Returned(true) else Settled(true)], context + outputs)
  {
  }

  /** One stage of it runs to its end. */
  lemma StageRuns(labels: seq<Label>, subs: map<Stage, SubState>, context: Redis.Context,
                  stage: Stage, outputs: Redis.Context) returns (longer: seq<Label>)
    requires At(labels, subs, context) && outputs.Keys <= Writes(stage)
    requires stage in subs && subs[stage] == Waiting && DependenciesDone(Attempt(SMALLEST, subs), stage)
    ensures At(longer, subs[stage := if stage == Postprocess then Returned(true) else Settled(true)],
               context + outputs)
  {
    var s := After(Inserted(0, 0), labels).value;
    var job := Starts(s, subs, context, stage);
    AfterSnoc(Inserted(0, 0), labels, StartStage(1, stage));
    longer := labels + [StartStage(1, stage)];
    var started := subs[stage := Running(job)];
    Finishes(Next(s, StartStage(1, stage)), started, context, stage, outputs);
    AfterSnoc(Inserted(0, 0), longer, FinishStage(1, stage, true, outputs));
    longer := longer + [FinishStage(1, stage, true, outputs)];
    var done := if stage == Postprocess then Returned(true) else Settled(true);
    assert started[stage := done] == subs[stage := done];
  }

  lemma EnqueueRuns(seed: Redis.Context) returns (labels: seq<Label>)
    ensures At(labels, Chain(0), seed)
  {
    AfterSnoc(Inserted(0, 0), [], Enqueue(SMALLEST, seed));
    labels := [] + [Enqueue(SMALLEST, seed)];
  }

  predicate CompletedAt(labels: seq<Label>, path: string) {
    var s := After(Inserted(0, 0), labels);
    s.Some? && CompletedWith(s.value.row, Some(path)) && s.value.store.counter == Some(1)
  }

  lemma TailCompletes(labels: seq<Label>, subs: map<Stage, SubState>, context: Redis.Context, path: string,
                      reach: Reach)
    returns (longer: seq<Label>)
    requires At(labels, subs, context) && Postprocess in subs && subs[Postprocess] == Returned(true)
    requires TRANSCRIPT_KEY in context
    ensures CompletedAt(longer, path)
  {
    AfterSnoc(Inserted(0, 0), labels, SuccessCallback(1, Postprocess, Saved(path), reach));
    longer := labels + [SuccessCallback(1, Postprocess, Saved(path), reach)];
  }

  function Progressed(preprocess: SubState, align: SubState, assign: SubState, post: SubState): map<Stage, SubState> {
    map[Preprocess := preprocess, TranscribeAlign := align, AssignSpeakers := assign, Postprocess := post]
  }

  /** The stages of the chain are done as far as k, with the tail about to call back. */
  function Chain(k: nat): map<Stage, SubState> {
    Progressed(if k >= 1 then Settled(true) else Waiting, if k >= 2 then Settled(true) else Waiting,
               if k >= 3 then Settled(true) else Waiting, if k >= 4 then Returned(true) else Waiting)
  }

  function Link(k: nat): Stage
  {
    if k == 0 then Preprocess else if k == 1 then TranscribeAlign else if k == 2 then AssignSpeakers else Postprocess
  }

  lemma NextLink(k: nat)
    requires k < 4
    ensures Link(k) in Chain(k) && Chain(k)[Link(k)] == Waiting
    ensures Chain(k + 1) == Chain(k)[Link(k) := if Link(k) == Postprocess then Returned(true) else Settled(true)]
    ensures DependenciesDone(Attempt(SMALLEST, Chain(k)), Link(k))
  {
  }

  lemma {:induction false} ChainRuns(seed: Redis.Context, k: nat) returns (labels: seq<Label>)
    requires k < 4
    ensures At(labels, Chain(k), seed)
  {
    if k == 0 {
      labels := EnqueueRuns(seed);
    } else {
      labels := ChainRuns(seed, k - 1);
      NextLink(k - 1);
      labels := StageRuns(labels, Chain(k - 1), seed, Link(k - 1), map[]);
      assert seed + map[] == seed;
    }
  }

  lemma TailRuns(seed: Redis.Context, transcript: string) returns (labels: seq<Label>)
    ensures At(labels, Chain(4), seed + map[TRANSCRIPT_KEY := transcript])
  {
    labels := ChainRuns(seed, 3);
    NextLink(3);
    labels := StageRuns(labels, Chain(3), seed, Postprocess, map[TRANSCRIPT_KEY := transcript]);
  }

  /** Runs that end COMPLETED exist, so the theorems above are not about nothing. */
  lemma CompletionIsReachable(seed: Redis.Context, transcript: string, path: string, reach: Reach)
    returns (labels: seq<Label>)
    ensures CompletedAt(labels, path)
  {
    labels := TailRuns(seed, transcript);
    labels := TailCompletes(labels, Chain(4), seed + map[TRANSCRIPT_KEY := transcript], path, reach);
  }

  /** Why one callback per sub-job matters: there is a reachable COMPLETED state in
      which one more failure callback of the same attempt would turn the row FAILED. */
  lemma CompletedCanBeDemoted(seed: Redis.Context, transcript: string, path: string, error: string, reach: Reach)
    returns (s: JobState)
    ensures Reachable(s) && CompletedWith(s.row, Some(path))
    ensures forall persist: Persist, cancelled: set<Stage> ::
              IsFailed(FinalizeFailure(s, 1, Postprocess, error, persist, cancelled, true, reach).row)
  {
    var labels := CompletionIsReachable(seed, transcript, path, reach);
    s := After(Inserted(0, 0), labels).value;
    forall persist: Persist, cancelled: set<Stage>
      ensures IsFailed(FinalizeFailure(s, 1, Postprocess, error, persist, cancelled, true, reach).row)
    {
      SecondCallbackWouldDemote(s, 1, Postprocess, error, persist, cancelled, reach);
    }
  }
}
