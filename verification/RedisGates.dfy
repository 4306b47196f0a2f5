/** The Redis half of the attempt protocol, one atomic step per Lua script or
    command, together with the gating theorems over every interleaving of those
    steps. Everything here concerns the keys of one parent job.

    Floats are reals and TTLs are events: `ExpireCounter` is the moment at which
    the central generation counter disappears. */
module RedisGates {
  import opened Common

  /** The hash `job:{id}`; an absent field is None, an absent hash has no field. */
  datatype ProgressHash = ProgressHash(
    progress: Option<real>,
    message: Option<string>,
    status: Option<string>,
    generation: Option<int>,
    resultPath: Option<string>,
    error: Option<string>)

  const NO_HASH := ProgressHash(None, None, None, None, None, None)

  /** A pickled context value: the scripts only ever see opaque bytes. */
  type Value = string
  type Context = map<string, Value>

  datatype Store = Store(counter: Option<int>, hash: ProgressHash, context: Context)

  const EMPTY_STORE := Store(None, NO_HASH, map[])

  /** The sentinel that switches generation checks off in the Lua scripts. */
  const NO_GENERATION := -1
  const MESSAGE_MAX_LENGTH := 500
  const ERROR_MAX_LENGTH := 1000
  const PIPELINE_COMPLETE := "完成"

  /** The only keys the ungated stage hooks ever write. */
  const HOOK_KEYS: set<string> := {"source_url", "download_dir", "input_path"}

  function CallerGen(gen: Option<nat>): int {
    if gen.None? then NO_GENERATION else gen.value
  }

  function Truncate(s: string, n: nat): string {
    if |s| <= n then s else s[..n]
  }

  /* ---------------- the gates ---------------- */

  /** Strictly behind a generation that may be unknown. */
  predicate Behind(gen: int, bound: Option<int>) {
    bound.Some? && gen < bound.value
  }

  /** The terminal gate: behind the counter or behind the hash-embedded generation. */
  predicate TerminalRejects(s: Store, gen: int) {
    Behind(gen, s.counter) || Behind(gen, s.hash.generation)
  }

  /** The stage-output gate is an equality gate on the counter alone. */
  predicate StageRejects(s: Store, gen: int) {
    s.counter.Some? && s.counter.value != gen
  }

  predicate IsStaleCallback(current: Option<int>, meta: Option<int>) {
    if meta.None? || current.None? then false else meta.value < current.value
  }

  /* ---------------- the scripts ---------------- */

  function WithProgress(h: ProgressHash, progress: real, message: string): ProgressHash {
    var advanced := if h.progress.None? || progress >= h.progress.value then Some(progress) else h.progress;
    h.(progress := advanced, message := Some(message), status := Some("processing"))
  }

  function MaxWrite(s: Store, gen: int, progress: real, message: string): (Store, bool) {
    if gen < 0 then
      (s.(hash := WithProgress(s.hash, progress, message)), true)
    else if Behind(gen, s.counter) then
      (s, false)
    else if s.hash.generation.None? || gen > s.hash.generation.value then
      (s.(hash := s.hash.(progress := Some(progress), message := Some(message),
                          status := Some("processing"), generation := Some(gen))), true)
    else if gen < s.hash.generation.value then
      (s, false)
    else
      (s.(hash := WithProgress(s.hash, progress, message)), true)
  }

  function Terminal(s: Store, gen: int, h: ProgressHash): (Store, bool) {
    if gen >= 0 && TerminalRejects(s, gen) then (s, false)
    else (s.(hash := if gen >= 0 then h.(generation := Some(gen)) else h), true)
  }

  function CompleteWrite(s: Store, gen: int, path: string): (Store, bool) {
    Terminal(s, gen, s.hash.(progress := Some(1.0), message := Some(PIPELINE_COMPLETE),
                             status := Some("completed"), resultPath := Some(path)))
  }

  function FailWrite(s: Store, gen: int, error: string): (Store, bool) {
    Terminal(s, gen, s.hash.(progress := Some(0.0), message := Some(Truncate(error, MESSAGE_MAX_LENGTH)),
                             status := Some("failed"), error := Some(Truncate(error, ERROR_MAX_LENGTH))))
  }

  function GatedHset(s: Store, gen: int, updates: Context): (Store, bool) {
    if StageRejects(s, gen) then (s, false) else (s.(context := s.context + updates), true)
  }

  /** INCR creates a missing counter at zero first. */
  function Bumped(counter: Option<int>): int {
    if counter.None? then 1 else counter.value + 1
  }

  datatype Op =
    | Report(gen: Option<nat>, progress: real, message: string)
    | Complete(gen: Option<nat>, path: string)
    | Fail(gen: Option<nat>, error: string)
    | StageWrite(stageGen: nat, updates: Context)
    | HookWrite(hookUpdates: Context)
    | BumpGeneration
    | DropProgress
    | SeedProgress(seedGen: nat)
    | DropContext
    | SeedContext(seed: Context)
    | ExpireCounter

  function Apply(s: Store, op: Op): (Store, bool) {
    match op
    case Report(gen, progress, message) => MaxWrite(s, CallerGen(gen), progress, message)
    case Complete(gen, path) => CompleteWrite(s, CallerGen(gen), path)
    case Fail(gen, error) => FailWrite(s, CallerGen(gen), error)
    case StageWrite(gen, updates) => GatedHset(s, gen, updates)
    case HookWrite(updates) => (s.(context := s.context + updates), true)
    case BumpGeneration => (s.(counter := Some(Bumped(s.counter))), true)
    case DropProgress => (s.(hash := NO_HASH), true)
    case SeedProgress(gen) =>
      (s.(hash := s.hash.(progress := Some(0.0), status := Some("queued"), generation := Some(gen))), true)
    case DropContext => (s.(context := map[]), true)
    case SeedContext(seed) => (s.(context := s.context + seed), true)
    case ExpireCounter => (s.(counter := None), true)
  }

  function Run(s: Store, ops: seq<Op>): Store {
    if ops == [] then s else Apply(Run(s, ops[..|ops| - 1]), ops[|ops| - 1]).0
  }

  /* ---------------- what a script leaves behind ---------------- */

  /** The first n characters of a text. */
  predicate IsCut(cut: string, text: string, n: nat) {
    cut <= text && |cut| == if |text| <= n then |text| else n
  }

  /** A report takes the hash over when its generation is news, and otherwise never lowers
      the progress; it keeps the fields of the last end and all other keys. */
  lemma ReportWrites(s: Store, gen: Option<nat>, progress: real, message: string)
    ensures var (t, accepted) := Apply(s, Op.Report(gen, progress, message));
            var takesOver := gen.Some? && (s.hash.generation.None? || gen.value > s.hash.generation.value);
            var h := s.hash;
            && (accepted <==> gen.None? || (!(s.counter.Some? && gen.value < s.counter.value)
                                            && !(h.generation.Some? && gen.value < h.generation.value)))
            && (!accepted ==> t == s)
            && (accepted ==>
                  t == s.(hash := ProgressHash(
                    Some(if takesOver || h.progress.None? || progress >= h.progress.value then progress
                         else h.progress.value),
                    Some(message), Some("processing"),
                    if gen.Some? then Some(gen.value) else h.generation, h.resultPath, h.error)))
  {}

  /** A terminal write sets progress, message, status and its own field, and stamps a known
      generation. */
  lemma TerminalWrites(s: Store, gen: Option<nat>, path: string, error: string)
    ensures var (t, accepted) := Apply(s, Op.Complete(gen, path));
            var (u, failed) := Apply(s, Op.Fail(gen, error));
            var h, stamp := s.hash, if gen.Some? then Some(gen.value) else s.hash.generation;
            && (accepted <==> gen.None? || (!(s.counter.Some? && gen.value < s.counter.value)
                                            && !(h.generation.Some? && gen.value < h.generation.value)))
            && failed == accepted && (!accepted ==> t == s && u == s)
            && (accepted ==>
                  && t == s.(hash := ProgressHash(Some(1.0), Some("完成"), Some("completed"), stamp, Some(path), h.error))
                  && u == s.(hash := ProgressHash(Some(0.0), u.hash.message, Some("failed"), stamp, h.resultPath,
                                                  u.hash.error))
                  && u.hash.message.Some? && IsCut(u.hash.message.value, error, 500)
                  && u.hash.error.Some? && IsCut(u.hash.error.value, error, 1000))
  {}

  /** Context writes merge: the given keys take their new values, the others stay. */
  lemma ContextWrites(s: Store, gen: nat, updates: Context, k: string)
    ensures var (t, accepted) := Apply(s, StageWrite(gen, updates));
            && (accepted <==> s.counter.None? || s.counter.value == gen)
            && t == s.(context := t.context)
            && Lookup(t.context, k) == if accepted && k in updates then Some(updates[k]) else Lookup(s.context, k)
    ensures var t := Apply(s, HookWrite(updates)).0;
            && t == s.(context := t.context)
            && Lookup(t.context, k) == if k in updates then Some(updates[k]) else Lookup(s.context, k)
  {}

  function Lookup(c: Context, key: string): Option<Value> {
    if key in c then Some(c[key]) else None
  }

  /** A callback or counter without a generation is never stale. */
  lemma UnknownIsNeverStale(generation: Option<int>)
    ensures !IsStaleCallback(generation, None) && !IsStaleCallback(None, generation)
  {}

  function Bumps(ops: seq<Op>): nat {
    if ops == [] then 0 else Bumps(ops[..|ops| - 1]) + if ops[|ops| - 1].BumpGeneration? then 1 else 0
  }

  /** Without expiry the counter counts the bumps. */
  lemma {:induction false} CounterCountsBumps(ops: seq<Op>)
    requires CounterKept(ops)
    ensures Run(EMPTY_STORE, ops).counter == if Bumps(ops) == 0 then None else Some(Bumps(ops))
  {
    if ops != [] {
      assert ops[|ops| - 1] != ExpireCounter;
      CounterCountsBumps(ops[..|ops| - 1]);
    }
  }

  /* ---------------- stale writers never land ---------------- */

  /** A generation-carrying write whose generation is below g. */
  predicate GatedBelow(op: Op, g: int) {
    match op
    case Report(gen, _, _) => gen.Some? && gen.value < g
    case Complete(gen, _) => gen.Some? && gen.value < g
    case Fail(gen, _) => gen.Some? && gen.value < g
    case StageWrite(gen, _) => gen < g
    case _ => false
  }

  predicate CounterKept(ops: seq<Op>) {
    forall i :: 0 <= i < |ops| ==> ops[i] != ExpireCounter
  }

  function WithoutStale(ops: seq<Op>, g: int): seq<Op> {
    if ops == [] then []
    else
      var rest := WithoutStale(ops[..|ops| - 1], g);
      var last := ops[|ops| - 1];
      if GatedBelow(last, g) then rest else rest + [last]
  }

  lemma {:induction false} CounterNeverFalls(s: Store, ops: seq<Op>, g: int)
    requires s.counter.Some? && s.counter.value >= g && CounterKept(ops)
    ensures Run(s, ops).counter.Some? && Run(s, ops).counter.value >= g
  {
    if ops != [] {
      CounterNeverFalls(s, ops[..|ops| - 1], g);
    }
  }

  /** Once the counter is at g, the writes of every earlier attempt might as well
      not have happened: deleting them from any interleaving, wherever they fall
      (also between the delete and the reseed of an enqueue), leaves the same
      store, and each one is refused without touching anything. */
  lemma {:induction false} StaleWritersNeverLand(s: Store, ops: seq<Op>, g: int)
    requires s.counter.Some? && s.counter.value >= g && CounterKept(ops)
    ensures Run(s, ops) == Run(s, WithoutStale(ops, g))
    ensures forall op :: GatedBelow(op, g) ==> Apply(Run(s, ops), op) == (Run(s, ops), false)
  {
    CounterNeverFalls(s, ops, g);
    if ops != [] {
      var front, last := ops[..|ops| - 1], ops[|ops| - 1];
      StaleWritersNeverLand(s, front, g);
      if !GatedBelow(last, g) {
        var kept := WithoutStale(front, g);
        assert (kept + [last])[..|kept|] == kept;
      }
    }
  }

  /* ---------------- the gates agree ---------------- */

  /** Every generation a step carries was returned by an earlier bump. */
  predicate HandedOut(counter: Option<int>, gen: int) {
    counter.Some? && 1 <= gen <= counter.value
  }

  predicate CarriesHandedOut(s: Store, op: Op) {
    match op
    case Report(gen, _, _) => gen.Some? ==> HandedOut(s.counter, gen.value)
    case Complete(gen, _) => gen.Some? ==> HandedOut(s.counter, gen.value)
    case Fail(gen, _) => gen.Some? ==> HandedOut(s.counter, gen.value)
    case StageWrite(gen, _) => HandedOut(s.counter, gen)
    case SeedProgress(gen) => HandedOut(s.counter, gen)
    case ExpireCounter => false
    case _ => true
  }

  predicate Legal(ops: seq<Op>) {
    ops == [] ||
    (Legal(ops[..|ops| - 1]) && CarriesHandedOut(Run(EMPTY_STORE, ops[..|ops| - 1]), ops[|ops| - 1]))
  }

  /** The invariant behind the agreement: nothing in Redis is ahead of the counter. */
  predicate EmbeddedBounded(s: Store) {
    && (s.counter.Some? ==> s.counter.value >= 1)
    && (s.hash.generation.Some? ==> HandedOut(s.counter, s.hash.generation.value))
  }

  lemma EmbeddedBoundedStep(s: Store, op: Op)
    requires EmbeddedBounded(s) && CarriesHandedOut(s, op)
    ensures EmbeddedBounded(Apply(s, op).0)
    ensures s.counter.Some? ==> Apply(s, op).0.counter.Some?
                                && Apply(s, op).0.counter.value >= s.counter.value
  {
  }

  lemma {:induction false} ReachableBounded(ops: seq<Op>)
    requires Legal(ops)
    ensures EmbeddedBounded(Run(EMPTY_STORE, ops))
  {
    if ops != [] {
      ReachableBounded(ops[..|ops| - 1]);
      EmbeddedBoundedStep(Run(EMPTY_STORE, ops[..|ops| - 1]), ops[|ops| - 1]);
    }
  }

  /** Does the script accept a report / terminal write / stage output of gen? */
  predicate ReportAccepted(s: Store, gen: nat) {
    MaxWrite(s, gen, 0.0, "").1
  }

  predicate TerminalAccepted(s: Store, gen: nat) {
    CompleteWrite(s, gen, "").1 && FailWrite(s, gen, "").1
  }

  predicate StageAccepted(s: Store, gen: nat) {
    GatedHset(s, gen, map[]).1
  }

  predicate CallbackAccepted(s: Store, gen: nat) {
    !IsStaleCallback(s.counter, Some(gen))
  }

  predicate GatesAgree(s: Store, gen: nat) {
    ReportAccepted(s, gen) == TerminalAccepted(s, gen) == StageAccepted(s, gen) == CallbackAccepted(s, gen)
  }

  /** On every reachable store all four gates give the same verdict for every
      generation ever handed out, and that verdict is "is it the latest one". */
  lemma GatesAgreeWhenReachable(ops: seq<Op>, gen: nat)
    requires Legal(ops) && HandedOut(Run(EMPTY_STORE, ops).counter, gen)
    ensures GatesAgree(Run(EMPTY_STORE, ops), gen)
    ensures ReportAccepted(Run(EMPTY_STORE, ops), gen) <==> Run(EMPTY_STORE, ops).counter == Some(gen)
  {
    ReachableBounded(ops);
  }

  /** Without the reachability premise the four rules differ: this is exactly when. */
  lemma GatesAgreeExactly(s: Store, gen: nat)
    ensures GatesAgree(s, gen) <==>
            Behind(gen, s.counter) ||
            ((s.counter.None? || s.counter.value == gen) && !Behind(gen, s.hash.generation))
  {
  }

  /* ---------------- context provenance ---------------- */

  predicate NoNewAttempt(ops: seq<Op>) {
    forall i :: 0 <= i < |ops| ==> ops[i] != ExpireCounter && ops[i] != BumpGeneration
  }

  /** The hooks keep to their three keys, and every seed in the interval is the
      attempt's own: the retry claim admits one enqueuer per job at a time. */
  predicate WellBehaved(ops: seq<Op>, seed: Context) {
    forall i :: 0 <= i < |ops| ==>
      (ops[i].HookWrite? ==> ops[i].hookUpdates.Keys <= HOOK_KEYS) &&
      (ops[i].SeedContext? ==> ops[i].seed == seed)
  }

  ghost predicate WrittenByAttempt(ops: seq<Op>, g: nat, seed: Context, k: string, v: Value) {
    || (k in seed && seed[k] == v)
    || exists i :: 0 <= i < |ops| && ops[i].StageWrite? && ops[i].stageGen == g
                   && k in ops[i].updates && ops[i].updates[k] == v
  }

  lemma {:induction false} CounterFixed(s: Store, ops: seq<Op>)
    requires NoNewAttempt(ops)
    ensures Run(s, ops).counter == s.counter
  {
    if ops != [] {
      CounterFixed(s, ops[..|ops| - 1]);
    }
  }

  /** From the moment attempt g clears the context until the next bump, whatever
      interleaves, each field outside the hook keys is g's seed or an output that
      a stage of g itself wrote. */
  lemma {:induction false} ContextProvenance(s: Store, g: nat, seed: Context, ops: seq<Op>, k: string)
    requires s.counter == Some(g) && s.context == map[]
    requires NoNewAttempt(ops) && WellBehaved(ops, seed)
    requires k in Run(s, ops).context && k !in HOOK_KEYS
    ensures WrittenByAttempt(ops, g, seed, k, Run(s, ops).context[k])
  {
    if ops != [] {
      var front, last := ops[..|ops| - 1], ops[|ops| - 1];
      var before := Run(s, front);
      CounterFixed(s, front);
      if k in before.context && before.context[k] == Run(s, ops).context[k] {
        ContextProvenance(s, g, seed, front, k);
        if k in seed && seed[k] == before.context[k] {
        } else {
          var i :| 0 <= i < |front| && front[i].StageWrite? && front[i].stageGen == g
                   && k in front[i].updates && front[i].updates[k] == before.context[k];
          assert ops[i] == front[i];
        }
      } else {
        assert ops[|ops| - 1] == last;
      }
    }
  }

  /* ---------------- the embedded generation and the max-write ---------------- */

  predicate SameHash(op: Op) {
    !op.DropProgress? && !op.SeedProgress?
  }

  /** Within one lifetime of the progress hash no writer lowers the embedded
      generation, even if the central counter expires at any moment. */
  lemma {:induction false} EmbeddedNeverFalls(s: Store, ops: seq<Op>, g: int)
    requires s.hash.generation.Some? && s.hash.generation.value >= g
    requires forall i :: 0 <= i < |ops| ==> SameHash(ops[i])
    ensures Run(s, ops).hash.generation.Some? && Run(s, ops).hash.generation.value >= g
  {
    if ops != [] {
      EmbeddedNeverFalls(s, ops[..|ops| - 1], g);
      assert SameHash(ops[|ops| - 1]);
    }
  }

  /** Reports of generation g from any number of reporters, mixed with late
      reports of earlier generations, stage outputs and counter expiry. */
  predicate ReportingUpTo(ops: seq<Op>, g: nat) {
    forall i :: 0 <= i < |ops| ==>
      (ops[i].Report? && ops[i].gen.Some? && ops[i].gen.value <= g)
      || ops[i].StageWrite? || ops[i].HookWrite? || ops[i].ExpireCounter?
  }

  predicate Own(op: Op, g: nat) {
    op.Report? && op.gen == Some(g)
  }

  function MaxReported(start: real, ops: seq<Op>, g: nat): real {
    if ops == [] then start
    else
      var m := MaxReported(start, ops[..|ops| - 1], g);
      var last := ops[|ops| - 1];
      if Own(last, g) && last.progress >= m then last.progress else m
  }

  lemma {:induction false} MaxReportedIsMaximum(start: real, ops: seq<Op>, g: nat)
    ensures MaxReported(start, ops, g) >= start
    ensures forall i :: 0 <= i < |ops| && Own(ops[i], g) ==> MaxReported(start, ops, g) >= ops[i].progress
    ensures MaxReported(start, ops, g) == start
            || exists i :: 0 <= i < |ops| && Own(ops[i], g) && MaxReported(start, ops, g) == ops[i].progress
  {
    if ops != [] {
      var front, last := ops[..|ops| - 1], ops[|ops| - 1];
      MaxReportedIsMaximum(start, front, g);
      forall i | 0 <= i < |ops| && Own(ops[i], g)
        ensures MaxReported(start, ops, g) >= ops[i].progress
      {
        if i < |front| { assert front[i] == ops[i]; }
      }
      var m := MaxReported(start, front, g);
      if Own(last, g) && last.progress >= m {
        assert ops[|ops| - 1] == last;
      } else if m != start {
        var i :| 0 <= i < |front| && Own(front[i], g) && m == front[i].progress;
        assert ops[i] == front[i];
      }
    }
  }

  function LatestMessage(start: Option<string>, ops: seq<Op>, g: nat): Option<string> {
    if ops == [] then start
    else if Own(ops[|ops| - 1], g) then Some(ops[|ops| - 1].message)
    else LatestMessage(start, ops[..|ops| - 1], g)
  }

  /** Interleaved reports of one generation leave the maximum ever reported and the
      latest message, no matter who reported in which order. */
  lemma {:induction false} InterleavedReportsKeepMaximum(s: Store, ops: seq<Op>, g: nat)
    requires s.hash.generation == Some(g) && s.hash.progress.Some?
    requires s.counter.Some? ==> s.counter.value <= g
    requires ReportingUpTo(ops, g)
    ensures Run(s, ops).hash.generation == Some(g)
    ensures Run(s, ops).hash.progress == Some(MaxReported(s.hash.progress.value, ops, g))
    ensures Run(s, ops).hash.message == LatestMessage(s.hash.message, ops, g)
    ensures Run(s, ops).counter.Some? ==> Run(s, ops).counter.value <= g
  {
    if ops != [] {
      var last := ops[|ops| - 1];
      InterleavedReportsKeepMaximum(s, ops[..|ops| - 1], g);
      assert last.Report? ==> last.gen.Some? && last.gen.value <= g;
    }
  }
}
