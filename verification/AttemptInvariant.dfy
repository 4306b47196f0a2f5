/** The invariant of the attempt protocol and its preservation by every step. */
module AttemptInvariant {
  import opened Common
  import opened PipelineDag
  import opened AttemptProtocol
  import Redis = RedisGates

  predicate Started(sub: SubState) {
    sub.Running? || sub.Returned? || sub.Settled?
  }

  predicate AttemptWf(a: Attempt) {
    && a.subs.Keys == Stages(a.shape)
    && (forall st :: st in a.subs && Started(a.subs[st]) ==> DependenciesDone(a, st))
    && (forall st :: st in a.subs && st != Tail(a.shape) ==> a.subs[st] != Returned(true))
  }

  /* Each conjunct speaks of the few components it is about, so that a step keeps the
     conjuncts of what it does not touch. */

  predicate StoreInv(store: Redis.Store, owner: int) {
    && Redis.EmbeddedBounded(store)
    && 0 <= owner <= (if store.counter.None? then 0 else store.counter.value)
  }

  predicate AllWf(attempts: map<int, Attempt>, owner: int) {
    && (owner > 0 ==> owner in attempts)
    && (forall g :: g in attempts ==> 1 <= g <= owner && AttemptWf(attempts[g]))
  }

  predicate SnapshotOk(sub: SubState) {
    sub.Running? ==> sub.job.status == Processing && sub.job.resultPath.None?
  }

  predicate SnapshotsOk(a: Attempt) {
    forall st :: st in a.subs ==> SnapshotOk(a.subs[st])
  }

  /** The latest attempt may still write. */
  predicate Live(s: JobState) {
    s.owner > 0 && s.owner in s.attempts && Counter(s) == s.owner && !Quiet(s.attempts[s.owner])
  }

  predicate LiveInv(s: JobState) {
    Live(s) ==>
      && s.row.Some? && Active(s.row.value.status) && s.row.value.resultPath.None?
      && s.pending.None? && s.holder == s.owner
      && Commits(s.history, s.owner) == 0
      && SnapshotsOk(s.attempts[s.owner])
  }

  /** Only attempts are counted here: commits to 0 are those of rows nobody holds. */
  predicate CommitInv(history: History, owner: int, holder: int, row: Option<Row>) {
    && (holder == 0 || holder == owner)
    && (forall g :: g in history.commits && g >= 1 ==> history.commits[g] <= 1 && g <= owner)
    && (holder >= 1 && Commits(history, holder) == 1 ==> row.None? || Terminal(row.value.status))
  }

  predicate PendingInv(pending: Option<Claim>, row: Option<Row>, now: int, timeout: nat) {
    pending.Some? ==>
      && row.Some? && Active(row.value.status) && row.value.resultPath.None?
      && pending.value.since <= row.value.updatedAt
      && now - pending.value.since <= timeout
      && pending.value.job.status == Queued && pending.value.job.resultPath.None?
  }

  /** A pass in flight is younger than the timeout, and if the row has not been touched
      since its listing, nobody is about to enqueue it and a bump has fenced it. */
  predicate MarkOk(m: Mark, row: Option<Row>, idle: bool, fenced: bool, now: int, timeout: nat) {
    && m.since <= now && now - m.since <= timeout
    && (row.Some? && row.value.updatedAt < m.since ==> idle && (m.bumped ==> fenced))
  }

  predicate MarksInv(marks: set<Mark>, row: Option<Row>, idle: bool, fenced: bool, now: int, timeout: nat) {
    && (row.Some? ==> row.value.updatedAt <= now)
    && (forall m :: m in marks ==> MarkOk(m, row, idle, fenced, now, timeout))
  }

  predicate CountInv(history: History, row: Option<Row>, pending: Option<Claim>, attempts: nat) {
    && history.claims + (if IsFailed(row) then 1 else 0) <= history.failures
    && history.enqueued + (if pending.Some? then 1 else 0) <= history.claims + 1
    && attempts <= history.enqueued
  }

  predicate Fenced(s: JobState) {
    Counter(s) > s.owner
  }

  predicate Inv(s: JobState) {
    && StoreInv(s.store, s.owner)
    && AllWf(s.attempts, s.owner)
    && LiveInv(s)
    && CommitInv(s.history, s.owner, s.holder, s.row)
    && PendingInv(s.pending, s.row, s.now, s.timeout)
    && MarksInv(s.marks, s.row, s.pending.None?, Fenced(s), s.now, s.timeout)
    && CountInv(s.history, s.row, s.pending, |s.attempts|)
  }

  lemma InsertedInv(now: int, timeout: nat)
    ensures Inv(Inserted(now, timeout))
  {
  }

  /* ---------------- requests, reaper and clock ---------------- */

  lemma FreshAttemptWf(shape: Shape)
    ensures AttemptWf(Attempt(shape, map st | st in Stages(shape) :: Waiting))
  {
  }

  lemma WfExtends(attempts: map<int, Attempt>, owner: int, gen: int, a: Attempt)
    requires AllWf(attempts, owner) && AttemptWf(a) && gen >= 1 && (gen in attempts || gen > owner)
    ensures AllWf(attempts[gen := a], if gen > owner then gen else owner)
  {
    var more := attempts[gen := a];
    forall g | g in more
      ensures 1 <= g <= (if gen > owner then gen else owner) && AttemptWf(more[g])
    {
      if g != gen { assert g in attempts; }
    }
  }

  lemma OneMoreAttempt(attempts: map<int, Attempt>, gen: int, a: Attempt)
    ensures |attempts[gen := a]| == |attempts| + if gen in attempts then 0 else 1
  {
    if gen in attempts {
      assert attempts[gen := a].Keys == attempts.Keys;
    }
  }

  /** While a request is about to enqueue, the row is younger than every listing. */
  lemma MarksWhilePending(s: JobState, fenced: bool)
    requires Inv(s) && s.pending.Some?
    ensures MarksInv(s.marks, s.row, true, fenced, s.now, s.timeout)
  {
    forall m | m in s.marks
      ensures MarkOk(m, s.row, true, fenced, s.now, s.timeout)
    {
      assert MarkOk(m, s.row, s.pending.None?, Fenced(s), s.now, s.timeout);
    }
  }

  lemma FreshAttemptIsOk(shape: Shape)
    ensures SnapshotsOk(Attempt(shape, map st | st in Stages(shape) :: Waiting))
  {
  }

  lemma EnqueueKeepsCommits(s: JobState, shape: Shape, seed: Redis.Context)
    requires Inv(s) && s.pending.Some?
    ensures var s' := EnqueueStep(s, shape, seed);
            LiveInv(s') && CommitInv(s'.history, s'.owner, s'.holder, s'.row)
  {
    FreshAttemptIsOk(shape);
  }

  lemma EnqueueKeeps(s: JobState, shape: Shape, seed: Redis.Context)
    requires Inv(s) && s.pending.Some?
    ensures Inv(Counted(s.row, EnqueueStep(s, shape, seed)))
  {
    FreshAttemptWf(shape);
    WfExtends(s.attempts, s.owner, Redis.Bumped(s.store.counter),
              Attempt(shape, map st | st in Stages(shape) :: Waiting));
    OneMoreAttempt(s.attempts, Redis.Bumped(s.store.counter),
                   Attempt(shape, map st | st in Stages(shape) :: Waiting));
    EnqueueKeepsCommits(s, shape, seed);
    MarksWhilePending(s, Fenced(EnqueueStep(s, shape, seed)));
  }

  lemma EnqueueFailsKeeps(s: JobState, counted: bool)
    requires Inv(s) && s.pending.Some?
    ensures Inv(Counted(s.row, EnqueueFailsStep(s, counted)))
  {
    var s' := EnqueueFailsStep(s, counted);
    assert IsFailed(s'.row) && !IsFailed(s.row);
    EnqueueFailsKeepsMarks(s, counted);
    assert LiveInv(s');
  }

  lemma EnqueueFailsKeepsMarks(s: JobState, counted: bool)
    requires Inv(s) && s.pending.Some?
    ensures var s' := EnqueueFailsStep(s, counted);
            MarksInv(s'.marks, s'.row, s'.pending.None?, Fenced(s'), s'.now, s'.timeout)
  {
    forall m | m in s.marks
      ensures m.since <= s.now && s.now - m.since <= s.timeout
    {
      assert MarkOk(m, s.row, s.pending.None?, Fenced(s), s.now, s.timeout);
    }
  }

  lemma RequestDiesKeeps(s: JobState, counted: bool)
    requires Inv(s) && s.pending.Some?
    ensures Inv(Counted(s.row, RequestDiesStep(s, counted)))
  {
  }

  lemma ClaimKeeps(s: JobState, snapshot: Row)
    requires Inv(s) && s.row.Some? && s.row.value.status == Failed
    ensures Inv(Counted(s.row, ClaimStep(s, snapshot)))
  {
  }

  lemma DeleteKeeps(s: JobState)
    requires Inv(s) && s.row.Some? && Terminal(s.row.value.status)
    ensures Inv(Counted(s.row, Do(s.(row := None), Redis.Op.DropProgress)))
  {
  }

  lemma ReapListKeeps(s: JobState)
    requires Inv(s) && MayReap(s)
    ensures Inv(Counted(s.row, s.(marks := s.marks + {Mark(s.now, false)})))
  {
  }

  lemma ReapBumpKeeps(s: JobState, mark: Mark)
    requires Inv(s) && mark in s.marks && !mark.bumped
    ensures Inv(Counted(s.row, ReapBumpStep(s, mark)))
  {
  }

  lemma ReapUpdateKeeps(s: JobState, mark: Mark, error: string)
    requires Inv(s) && mark in s.marks && mark.bumped
    ensures Inv(Counted(s.row, ReapUpdateStep(s, mark, error)))
  {
  }

  lemma PassEndsKeeps(s: JobState, mark: Mark)
    requires Inv(s)
    ensures Inv(Counted(s.row, s.(marks := s.marks - {mark})))
  {
  }

  lemma ShareKeeps(s: JobState, token: Option<string>)
    requires Inv(s) && s.row.Some?
    requires s.row.value.status == Completed || s.row.value.shareToken.Some?
    ensures Inv(Counted(s.row, ShareStep(s, token)))
  {
  }

  lemma TickKeeps(s: JobState, seconds: nat)
    requires Inv(s) && Enabled(s, Tick(seconds))
    ensures Inv(Counted(s.row, s.(now := s.now + seconds)))
  {
  }

  /* ---------------- sub-jobs ---------------- */

  /** What may replace a sub-job's state without breaking its attempt. */
  predicate Advances(a: Attempt, stage: Stage, sub: SubState) {
    && stage in a.subs
    && (Done(a.subs[stage]) ==> Done(sub))
    && (Started(sub) ==> DependenciesDone(a, stage))
    && (sub == Returned(true) ==> stage == Tail(a.shape))
  }

  lemma DependenciesStayDone(a: Attempt, stage: Stage, sub: SubState, st: Stage)
    requires stage in a.subs && (Done(a.subs[stage]) ==> Done(sub)) && DependenciesDone(a, st)
    ensures DependenciesDone(a.(subs := a.subs[stage := sub]), st)
  {}

  lemma AdvanceKeepsWf(a: Attempt, stage: Stage, sub: SubState)
    requires AttemptWf(a) && Advances(a, stage, sub)
    ensures AttemptWf(a.(subs := a.subs[stage := sub]))
  {
    var a' := a.(subs := a.subs[stage := sub]);
    assert a'.subs.Keys == a.subs.Keys;
    forall st | st in a'.subs && Started(a'.subs[st])
      ensures DependenciesDone(a', st)
    {
      DependenciesStayDone(a, stage, sub, st);
    }
  }

  /** Once the tail has started, every other sub-job of its attempt has settled. */
  lemma TailStartsLast(a: Attempt)
    requires AttemptWf(a) && Tail(a.shape) in a.subs && Started(a.subs[Tail(a.shape)])
    ensures forall st :: st in a.subs && st != Tail(a.shape) ==> a.subs[st] == Settled(true)
  {
    var tail := Tail(a.shape);
    var done := {tail} + set st | st in a.subs && Done(a.subs[st]);
    forall st, d | st in done && d in DependsOn(a.shape, st)
      ensures d in done
    {
      assert DependenciesDone(a, st);
    }
    TailDominates(a.shape, done);
  }

  lemma SnapshotsStayOk(a: Attempt, stage: Stage, sub: SubState)
    requires SnapshotsOk(a) && SnapshotOk(sub)
    ensures SnapshotsOk(a.(subs := a.subs[stage := sub]))
  {
  }

  /** Moving one sub-job forward, nothing else. */
  lemma WithSubKeeps(s: JobState, gen: int, stage: Stage, sub: SubState)
    requires Inv(s) && Known(s, gen, stage)
    requires Advances(s.attempts[gen], stage, sub) && !Sub(s, gen, stage).Settled? && !Sub(s, gen, stage).Cancelled?
    requires gen == Counter(s) ==> SnapshotOk(sub)
    ensures Inv(WithSub(s, gen, stage, sub))
  {
    var a := s.attempts[gen];
    AdvanceKeepsWf(a, stage, sub);
    WfExtends(s.attempts, s.owner, gen, a.(subs := a.subs[stage := sub]));
    OneMoreAttempt(s.attempts, gen, a.(subs := a.subs[stage := sub]));
    assert !Quiet(a);
    WithSubKeepsLive(s, gen, stage, sub);
  }

  lemma WithSubKeepsLive(s: JobState, gen: int, stage: Stage, sub: SubState)
    requires LiveInv(s) && Known(s, gen, stage) && !Quiet(s.attempts[gen])
    requires gen == Counter(s) ==> SnapshotOk(sub)
    ensures LiveInv(WithSub(s, gen, stage, sub))
  {
    var s' := WithSub(s, gen, stage, sub);
    if Live(s') {
      assert Live(s);
      if gen == s.owner { SnapshotsStayOk(s.attempts[gen], stage, sub); }
    }
  }

  /** What may replace the row while no terminal status is involved. */
  predicate RowAdvances(before: Option<Row>, after: Option<Row>, now: int) {
    && before.Some? == after.Some?
    && (before.Some? ==>
          var b, a := before.value, after.value;
          && b.updatedAt <= a.updatedAt <= now
          && (a.status == b.status || (Active(a.status) && Active(b.status)))
          && (Active(a.status) ==> a.resultPath == b.resultPath))
  }

  lemma RowAndStoreKeep(s: JobState, row: Option<Row>, store: Redis.Store)
    requires Inv(s) && RowAdvances(s.row, row, s.now)
    requires Redis.EmbeddedBounded(store) && store.counter == s.store.counter
    ensures Inv(s.(row := row, store := store))
  {
    MarksStayOk(s.marks, s.row, row, s.pending.None?, Fenced(s), s.now, s.timeout);
  }

  lemma MarksStayOk(marks: set<Mark>, row: Option<Row>, later: Option<Row>, idle: bool, fenced: bool,
                    now: int, timeout: nat)
    requires MarksInv(marks, row, idle, fenced, now, timeout)
    requires row.Some? == later.Some? && (row.Some? ==> row.value.updatedAt <= later.value.updatedAt <= now)
    ensures MarksInv(marks, later, idle, fenced, now, timeout)
  {
    forall m | m in marks
      ensures MarkOk(m, later, idle, fenced, now, timeout)
    {
      assert MarkOk(m, row, idle, fenced, now, timeout);
    }
  }

  lemma HookKeeps(s: JobState, updates: Redis.Context)
    requires Inv(s)
    ensures Inv(Counted(s.row, Do(s, Redis.Op.HookWrite(updates))))
  {
  }

  /** A step that moves one sub-job forward and, with it, an active row or the store. */
  lemma SubStepKeeps(s: JobState, gen: nat, stage: Stage, sub: SubState, row: Option<Row>, store: Redis.Store)
    requires Inv(s) && Known(s, gen, stage)
    requires Advances(s.attempts[gen], stage, sub) && !Sub(s, gen, stage).Settled? && !Sub(s, gen, stage).Cancelled?
    requires gen == Counter(s) ==> SnapshotOk(sub)
    requires RowAdvances(s.row, row, s.now)
    requires Redis.EmbeddedBounded(store) && store.counter == s.store.counter
    ensures Inv(Counted(s.row, WithSub(s, gen, stage, sub).(row := row, store := store)))
  {
    WithSubKeeps(s, gen, stage, sub);
    RowAndStoreKeep(WithSub(s, gen, stage, sub), row, store);
    NotFailing(s.row, WithSub(s, gen, stage, sub).(row := row, store := store));
  }

  lemma NotFailing(before: Option<Row>, s: JobState)
    requires RowAdvances(before, s.row, s.now)
    ensures Counted(before, s) == s
  {
  }

  /** A sub-job that can still move belongs to a superseded attempt or to the live one. */
  lemma MovingIsLive(s: JobState, gen: nat, stage: Stage)
    requires Inv(s) && Known(s, gen, stage) && gen == Counter(s)
    requires !Sub(s, gen, stage).Settled? && !Sub(s, gen, stage).Cancelled?
    ensures Live(s) && gen == s.owner
    ensures s.row.Some? && Active(s.row.value.status) && s.row.value.resultPath.None?
    ensures SnapshotsOk(s.attempts[gen])
  {
    assert !Quiet(s.attempts[gen]);
  }

  lemma StartKeeps(s: JobState, gen: nat, stage: Stage)
    requires Inv(s) && Known(s, gen, stage) && Sub(s, gen, stage).Waiting? && DependenciesDone(s.attempts[gen], stage)
    ensures Inv(Counted(s.row, StartStep(s, gen, stage)))
  {
    if gen == Counter(s) { MovingIsLive(s, gen, stage); }
    if s.row.None? {
      SubStepKeeps(s, gen, stage, Returned(false), s.row, s.store);
      assert StartStep(s, gen, stage) == WithSub(s, gen, stage, Returned(false)).(row := s.row, store := s.store);
    } else {
      var job := if s.row.value.status == Queued then s.row.value.(status := Processing, updatedAt := s.now)
                 else s.row.value;
      SubStepKeeps(s, gen, stage, Running(job), Some(job), s.store);
      assert StartStep(s, gen, stage) == WithSub(s, gen, stage, Running(job)).(row := Some(job), store := s.store);
    }
  }

  lemma StageWriteKeepsStore(store: Redis.Store, gen: nat, outputs: Redis.Context)
    requires Redis.EmbeddedBounded(store)
    ensures var store' := Redis.Apply(store, Redis.Op.StageWrite(gen, outputs)).0;
            Redis.EmbeddedBounded(store') && store'.counter == store.counter
  {
  }

  lemma FinishKeeps(s: JobState, gen: nat, stage: Stage, ok: bool, outputs: Redis.Context)
    requires Inv(s) && Known(s, gen, stage) && Sub(s, gen, stage).Running?
    ensures Inv(Counted(s.row, FinishStep(s, gen, stage, ok, outputs)))
  {
    if !ok {
      SubStepKeeps(s, gen, stage, Returned(false), s.row, s.store);
      assert FinishStep(s, gen, stage, ok, outputs)
          == WithSub(s, gen, stage, Returned(false)).(row := s.row, store := s.store);
    } else {
      var next := if stage == Tail(s.attempts[gen].shape) then Returned(true) else Settled(true);
      var store := Redis.Apply(s.store, Redis.Op.StageWrite(gen, outputs)).0;
      StageWriteKeepsStore(s.store, gen, outputs);
      SubStepKeeps(s, gen, stage, next, s.row, store);
      assert FinishStep(s, gen, stage, ok, outputs) == WithSub(s, gen, stage, next).(row := s.row, store := store);
    }
  }

  lemma CallbackLostKeeps(s: JobState, gen: nat, stage: Stage)
    requires Inv(s) && Known(s, gen, stage) && Sub(s, gen, stage).Returned?
    ensures Inv(Counted(s.row, WithSub(s, gen, stage, Settled(Sub(s, gen, stage).ok))))
  {
    WithSubKeeps(s, gen, stage, Settled(Sub(s, gen, stage).ok));
  }

  /** A report that Redis accepts comes from the live attempt. */
  lemma AcceptedIsLive(s: JobState, gen: nat, stage: Stage, progress: real, message: string)
    requires Inv(s) && Known(s, gen, stage) && Sub(s, gen, stage).Running?
    requires Redis.Apply(s.store, Redis.Op.Report(Some(gen), progress, message)).1
    ensures Live(s) && gen == s.owner
  {
    assert !Quiet(s.attempts[gen]);
  }

  lemma ReportKeeps(s: JobState, gen: nat, stage: Stage, progress: real, message: string, redisUp: bool, dbUp: bool)
    requires Inv(s) && Known(s, gen, stage) && Sub(s, gen, stage).Running?
    ensures Inv(Counted(s.row, ReportStep(s, gen, stage, progress, message, redisUp, dbUp)))
  {
    var op := Redis.Op.Report(Some(gen), progress, message);
    if redisUp && !Redis.Apply(s.store, op).1 {
      return;
    }
    if redisUp { AcceptedIsLive(s, gen, stage, progress, message); }
    if gen == Counter(s) { MovingIsLive(s, gen, stage); }
    var job := Sub(s, gen, stage).job.(progress := progress, message := message);
    var held := if redisUp then job.(updatedAt := s.now) else job;
    var row := if dbUp then Mirror(s.row, s.now, held, !redisUp) else s.row;
    var store := if redisUp then Redis.Apply(s.store, op).0 else s.store;
    ReportKeepsStore(s, op, store, redisUp);
    SubStepKeeps(s, gen, stage, Running(held), row, store);
    assert ReportStep(s, gen, stage, progress, message, redisUp, dbUp)
        == WithSub(s, gen, stage, Running(held)).(row := row, store := store);
  }

  lemma ReportKeepsStore(s: JobState, op: Redis.Op, store: Redis.Store, redisUp: bool)
    requires StoreInv(s.store, s.owner) && op.Report? && op.gen.Some?
    requires store == if redisUp then Redis.Apply(s.store, op).0 else s.store
    requires redisUp ==> Redis.Apply(s.store, op).1 && s.store.counter == Some(op.gen.value) && op.gen.value >= 1
    ensures Redis.EmbeddedBounded(store) && store.counter == s.store.counter
  {
    if redisUp { Redis.EmbeddedBoundedStep(s.store, op); }
  }

  /* ---------------- callbacks ---------------- */

  /** The attempt that owns the counter is about to commit its first terminal status. */
  predicate MayCommit(s: JobState, gen: int) {
    && gen == s.owner == Counter(s) > 0
    && s.pending.None? && s.holder == gen && Commits(s.history, gen) == 0
    && s.row.Some? && Active(s.row.value.status)
  }

  lemma CommitKeeps(s: JobState, gen: nat, row: Row, store: Redis.Store)
    requires Inv(s) && MayCommit(s, gen) && Terminal(row.status)
    requires Redis.EmbeddedBounded(store) && store.counter.Some?
    requires store.counter.value > gen || (store.counter == s.store.counter && Quiet(s.attempts[gen]))
    ensures Inv(Counted(s.row, Commit(s, gen, row).(store := store)))
  {
    var s' := Counted(s.row, Commit(s, gen, row).(store := store));
    assert MarksInv(s'.marks, s'.row, s'.pending.None?, Fenced(s'), s'.now, s'.timeout) by {
      forall m | m in s.marks
        ensures MarkOk(m, s'.row, s'.pending.None?, Fenced(s'), s'.now, s'.timeout)
      {
        assert MarkOk(m, s.row, s.pending.None?, Fenced(s), s.now, s.timeout);
      }
    }
  }

  /** A callback that is not stale belongs to the live attempt. */
  lemma CurrentMayCommit(s: JobState, gen: nat, stage: Stage, sub: SubState)
    requires Inv(s) && Known(s, gen, stage) && Sub(s, gen, stage).Returned? && !Stale(s, gen)
    ensures MayCommit(WithSub(s, gen, stage, sub), gen)
  {
    assert !Quiet(s.attempts[gen]);
  }

  lemma PersistKeeps(s: JobState, gen: nat, row: Row, message: string, persist: Persist, reach: Reach)
    requires Inv(s) && MayCommit(s, gen) && Quiet(s.attempts[gen]) && s.row == Some(row)
    ensures Inv(Counted(s.row, PersistCompletion(s, gen, row, message, persist, reach)))
  {
    var s' := PersistCompletion(s, gen, row, message, persist, reach);
    var warning := Redis.Lookup(s.store.context, WARNING_KEY);
    match persist
    case Saved(path) =>
      CommitKeeps(s, gen, CompletedRow(row, message, path, warning), s'.store);
    case NotSaved(reached, why) =>
      var job := if reached.Some? then CompletedRow(row, message, reached.value, warning) else row;
      CommitKeeps(s, gen, FailedRow(job, why), s'.store);
    case DbDown => RowAndStoreKeep(s, s.row, s'.store);
  }

  lemma FinalizeSuccessKeeps(s: JobState, gen: nat, persist: Persist, reach: Reach)
    requires Inv(s) && gen in s.attempts
    requires Stale(s, gen) || (MayCommit(s, gen) && Quiet(s.attempts[gen]))
    ensures Inv(Counted(s.row, FinalizeSuccess(s, gen, persist, reach)))
  {
    if !Stale(s, gen) {
      if TRANSCRIPT_KEY in s.store.context {
        PersistKeeps(s, gen, s.row.value, Redis.PIPELINE_COMPLETE, persist, reach);
      } else {
        MissingTranscriptKeeps(s, gen, reach);
      }
    }
  }

  lemma MissingTranscriptKeeps(s: JobState, gen: nat, reach: Reach)
    requires Inv(s) && MayCommit(s, gen) && Quiet(s.attempts[gen])
    ensures Inv(Counted(s.row, DoIf(reach.cleanup, MarkFailed(s, gen, s.row.value, NO_TRANSCRIPT, reach.terminal),
                                    Redis.Op.DropContext)))
  {
    var s' := DoIf(reach.cleanup, MarkFailed(s, gen, s.row.value, NO_TRANSCRIPT, reach.terminal), Redis.Op.DropContext);
    CommitKeeps(s, gen, FailedRow(s.row.value, NO_TRANSCRIPT), s'.store);
  }

  lemma ReturnedSubSettles(s: JobState, gen: nat, stage: Stage, ok: bool)
    requires Inv(s) && Known(s, gen, stage) && Sub(s, gen, stage) == Returned(ok)
    ensures var s' := WithSub(s, gen, stage, Settled(ok));
            && Inv(s') && gen in s'.attempts
            && (Stale(s', gen) || (MayCommit(s', gen) && (ok || stage == LlmCorrection ==> Quiet(s'.attempts[gen]))))
  {
    WithSubKeeps(s, gen, stage, Settled(ok));
    if !Stale(s, gen) { CurrentMayCommit(s, gen, stage, Settled(ok)); }
    if ok || stage == LlmCorrection { SettledTailIsQuiet(s.attempts[gen], stage, ok); }
  }

  lemma SettledTailIsQuiet(a: Attempt, stage: Stage, ok: bool)
    requires AttemptWf(a) && stage in a.subs && a.subs[stage] == Returned(ok) && (ok || stage == LlmCorrection)
    ensures Quiet(a.(subs := a.subs[stage := Settled(ok)]))
  {
    TailStartsLast(a);
  }

  lemma SuccessCallbackKeeps(s: JobState, gen: nat, stage: Stage, persist: Persist, reach: Reach)
    requires Inv(s) && Known(s, gen, stage) && Sub(s, gen, stage) == Returned(true)
    ensures Inv(Counted(s.row, FinalizeSuccess(WithSub(s, gen, stage, Settled(true)), gen, persist, reach)))
  {
    ReturnedSubSettles(s, gen, stage, true);
    FinalizeSuccessKeeps(WithSub(s, gen, stage, Settled(true)), gen, persist, reach);
  }

  lemma StopKeepsDependencies(a: Attempt, stage: Stage, cancelled: set<Stage>, st: Stage)
    requires DependenciesDone(a, st)
    ensures DependenciesDone(Stop(a, stage, cancelled), st)
  {
  }

  lemma StopKeepsWf(a: Attempt, stage: Stage, cancelled: set<Stage>)
    requires AttemptWf(a)
    ensures AttemptWf(Stop(a, stage, cancelled))
  {
    var a' := Stop(a, stage, cancelled);
    assert a'.subs.Keys == a.subs.Keys;
    forall st | st in a'.subs && Started(a'.subs[st])
      ensures DependenciesDone(a', st)
    {
      assert Started(a.subs[st]);
      StopKeepsDependencies(a, stage, cancelled, st);
    }
  }

  lemma StopKeepsQuiet(a: Attempt, stage: Stage, cancelled: set<Stage>)
    requires Quiet(a)
    ensures Quiet(Stop(a, stage, cancelled))
  {
  }

  lemma StopKeepsSnapshots(a: Attempt, stage: Stage, cancelled: set<Stage>)
    requires SnapshotsOk(a)
    ensures SnapshotsOk(Stop(a, stage, cancelled))
  {
  }

  lemma CancelKeeps(s: JobState, gen: int, stage: Stage, cancelled: set<Stage>)
    requires Inv(s) && gen in s.attempts
    ensures Inv(CancelSiblings(s, gen, stage, cancelled))
  {
    var a := s.attempts[gen];
    StopKeepsWf(a, stage, cancelled);
    WfExtends(s.attempts, s.owner, gen, Stop(a, stage, cancelled));
    OneMoreAttempt(s.attempts, gen, Stop(a, stage, cancelled));
    if Quiet(a) { StopKeepsQuiet(a, stage, cancelled); }
    if SnapshotsOk(a) { StopKeepsSnapshots(a, stage, cancelled); }
  }

  lemma FailAndBumpKeeps(s: JobState, gen: nat, row: Row, error: string, dbUp: bool, reach: Reach)
    requires Inv(s) && MayCommit(s, gen) && s.row == Some(row)
    ensures Inv(Counted(s.row, FailAndBump(s, gen, row, error, dbUp, reach)))
  {
    var s' := FailAndBump(s, gen, row, error, dbUp, reach);
    if dbUp {
      CommitKeeps(s, gen, FailedRow(row, error), s'.store);
    } else {
      RowAndStoreKeep(s, s.row, s'.store);
    }
  }

  lemma FinalizeFailureKeeps(s: JobState, gen: nat, stage: Stage, error: string, persist: Persist,
                             cancelled: set<Stage>, dbUp: bool, reach: Reach)
    requires Inv(s) && gen in s.attempts
    requires Stale(s, gen) || (MayCommit(s, gen) && (stage == LlmCorrection ==> Quiet(s.attempts[gen])))
    ensures Inv(Counted(s.row, FinalizeFailure(s, gen, stage, error, persist, cancelled, dbUp, reach)))
  {
    if !Stale(s, gen) {
      if stage == LlmCorrection && TRANSCRIPT_KEY in s.store.context {
        PersistKeeps(s, gen, s.row.value, LLM_CORRECTION_SKIPPED, persist, reach);
      } else {
        FailingKeeps(s, gen, stage, error, cancelled, dbUp, reach);
      }
    }
  }

  lemma FailingKeeps(s: JobState, gen: nat, stage: Stage, error: string, cancelled: set<Stage>, dbUp: bool,
                     reach: Reach)
    requires Inv(s) && gen in s.attempts && MayCommit(s, gen)
    ensures Inv(Counted(s.row, FailAndBump(CancelSiblings(s, gen, stage, cancelled), gen, s.row.value, error,
                                           dbUp, reach)))
  {
    var cancelling := CancelSiblings(s, gen, stage, cancelled);
    CancelKeeps(s, gen, stage, cancelled);
    assert MayCommit(cancelling, gen) && cancelling.row == s.row;
    FailAndBumpKeeps(cancelling, gen, s.row.value, error, dbUp, reach);
  }

  lemma FailureCallbackKeeps(s: JobState, gen: nat, stage: Stage, error: string, persist: Persist,
                             cancelled: set<Stage>, dbUp: bool, reach: Reach)
    requires Inv(s) && Known(s, gen, stage) && Sub(s, gen, stage) == Returned(false)
    ensures Inv(Counted(s.row, FinalizeFailure(WithSub(s, gen, stage, Settled(false)), gen, stage, error,
                                               persist, cancelled, dbUp, reach)))
  {
    ReturnedSubSettles(s, gen, stage, false);
    FinalizeFailureKeeps(WithSub(s, gen, stage, Settled(false)), gen, stage, error, persist, cancelled, dbUp, reach);
  }

  predicate IsRequest(l: Label) {
    l.Enqueue? || l.EnqueueFails? || l.RequestDies? || l.ClaimRetry? || l.DeleteRow? || l.ShareCreate? || l.ShareRevoke?
  }

  predicate IsReaperOrClock(l: Label) {
    l.ReapList? || l.ReapBump? || l.ReapUpdate? || l.PassEnds? || l.Tick?
  }

  lemma RequestStepKeeps(s: JobState, l: Label)
    requires Inv(s) && Enabled(s, l) && IsRequest(l)
    ensures Inv(Next(s, l))
  {
    match l
    case Enqueue(shape, seed) => EnqueueKeeps(s, shape, seed);
    case EnqueueFails(counted) => EnqueueFailsKeeps(s, counted);
    case RequestDies(counted) => RequestDiesKeeps(s, counted);
    case ClaimRetry(snapshot) => ClaimKeeps(s, snapshot);
    case DeleteRow => DeleteKeeps(s);
    case ShareCreate(token) => ShareKeeps(s, Some(token));
    case ShareRevoke => ShareKeeps(s, None);
    case _ =>
  }

  lemma ReaperStepKeeps(s: JobState, l: Label)
    requires Inv(s) && Enabled(s, l) && IsReaperOrClock(l)
    ensures Inv(Next(s, l))
  {
    match l
    case ReapList => ReapListKeeps(s);
    case ReapBump(mark) => ReapBumpKeeps(s, mark);
    case ReapUpdate(mark, error) => ReapUpdateKeeps(s, mark, error);
    case PassEnds(mark) => PassEndsKeeps(s, mark);
    case Tick(seconds) => TickKeeps(s, seconds);
    case _ =>
  }

  lemma SubJobStepKeeps(s: JobState, l: Label)
    requires Inv(s) && Enabled(s, l) && !IsRequest(l) && !IsReaperOrClock(l)
    ensures Inv(Next(s, l))
  {
    match l
    case StartStage(gen, stage) => StartKeeps(s, gen, stage);
    case Hook(updates) => HookKeeps(s, updates);
    case ReportProgress(gen, stage, progress, message, redisUp, dbUp) =>
      ReportKeeps(s, gen, stage, progress, message, redisUp, dbUp);
    case FinishStage(gen, stage, ok, outputs) => FinishKeeps(s, gen, stage, ok, outputs);
    case SuccessCallback(gen, stage, persist, reach) => SuccessCallbackKeeps(s, gen, stage, persist, reach);
    case FailureCallback(gen, stage, error, persist, cancelled, dbUp, reach) =>
      FailureCallbackKeeps(s, gen, stage, error, persist, cancelled, dbUp, reach);
    case CallbackLost(gen, stage) => CallbackLostKeeps(s, gen, stage);
    case _ =>
  }

  /** Every step keeps the invariant. */
  lemma InvStep(s: JobState, l: Label)
    requires Inv(s) && Enabled(s, l)
    ensures Inv(Next(s, l))
  {
    if IsRequest(l) {
      RequestStepKeeps(s, l);
    } else if IsReaperOrClock(l) {
      ReaperStepKeeps(s, l);
    } else {
      SubJobStepKeeps(s, l);
    }
  }

  lemma {:induction false} InvAfter(s: JobState, labels: seq<Label>)
    requires Inv(s) && After(s, labels).Some?
    ensures Inv(After(s, labels).value)
  {
    if labels != [] {
      InvAfter(s, labels[..|labels| - 1]);
      InvStep(After(s, labels[..|labels| - 1]).value, labels[|labels| - 1]);
    }
  }
}
