/** The context an attempt ends with does not depend on how its sub-jobs were
    scheduled. Stages are arbitrary functions of the keys they may look at; a
    stage loads the context when it starts and commits its declared outputs when
    it finishes, with anything in between. */
module Confluence {
  import opened Common
  import opened PipelineDag
  import Redis = RedisGates

  type Context = Redis.Context

  datatype Node = Node(deps: set<nat>, inputs: set<string>, outputs: set<string>)

  /** What the stages compute, given the part of the context they can see. */
  type Body = (nat, Context) -> Context

  predicate Wf(dag: seq<Node>) {
    forall i, d :: 0 <= i < |dag| && d in dag[i].deps ==> d < i
  }

  function Ancestors(dag: seq<Node>, i: nat): (r: set<nat>)
    requires Wf(dag) && i < |dag|
    ensures forall a :: a in r ==> a < i
    ensures dag[i].deps <= r
    decreases i
  {
    dag[i].deps + set d, a | d in dag[i].deps && a in Ancestors(dag, d) :: a
  }

  /** Unordered stages write disjoint keys and do not read each other's keys. */
  predicate Independent(dag: seq<Node>)
    requires Wf(dag)
  {
    forall i, j :: 0 <= i < j < |dag| && i !in Ancestors(dag, j) ==>
      && dag[i].outputs !! dag[j].outputs
      && dag[i].inputs !! dag[j].outputs
      && dag[j].inputs !! dag[i].outputs
  }

  function Restrict(c: Context, keys: set<string>): Context {
    map k | k in c && k in keys :: c[k]
  }

  /** `_persist_outputs`: the declared keys of the stage's result, which may also
      carry a declared key over from the snapshot the stage was given. */
  function Output(node: Node, f: Body, i: nat, snapshot: Context): (r: Context)
    ensures r.Keys <= node.outputs
  {
    Restrict(f(i, Restrict(snapshot, node.inputs + node.outputs)), node.outputs)
  }

  /** The reference: the stages one after another in enqueue order. */
  function Sequential(dag: seq<Node>, f: Body, init: Context, k: nat): Context
    requires k <= |dag|
  {
    if k == 0 then init
    else
      var c := Sequential(dag, f, init, k - 1);
      c + Output(dag[k - 1], f, k - 1, c)
  }

  /* ---------------- schedules ---------------- */

  datatype Event = Start(i: nat) | Finish(i: nat)
  datatype State = State(context: Context, loaded: map<nat, Context>, done: set<nat>)

  predicate Enabled(dag: seq<Node>, s: State, e: Event) {
    e.i < |dag| &&
    match e
    case Start(i) => i !in s.loaded && dag[i].deps <= s.done
    case Finish(i) => i in s.loaded && i !in s.done
  }

  function Step(dag: seq<Node>, f: Body, s: State, e: Event): State
    requires Enabled(dag, s, e)
  {
    match e
    case Start(i) => s.(loaded := s.loaded[i := s.context])
    case Finish(i) => s.(context := s.context + Output(dag[i], f, i, s.loaded[i]), done := s.done + {i})
  }

  /** The state after a schedule, or None when it breaks a dependency. */
  function After(dag: seq<Node>, f: Body, init: Context, events: seq<Event>): Option<State> {
    if events == [] then Some(State(init, map[], {}))
    else
      var before := After(dag, f, init, events[..|events| - 1]);
      var last := events[|events| - 1];
      if before.Some? && Enabled(dag, before.value, last) then Some(Step(dag, f, before.value, last)) else None
  }

  /* ---------------- the invariant ---------------- */

  /** The outputs of the stages in `done` below k, merged in enqueue order. */
  function Merge(dag: seq<Node>, f: Body, init: Context, done: set<nat>, k: nat): Context
    requires k <= |dag|
  {
    if k == 0 then init
    else
      var m := Merge(dag, f, init, done, k - 1);
      if k - 1 in done then m + Out(dag, f, init, k - 1) else m
  }

  /** What stage i commits in the reference execution. */
  function Out(dag: seq<Node>, f: Body, init: Context, i: nat): (r: Context)
    requires i < |dag|
    ensures r.Keys <= dag[i].outputs
  {
    Output(dag[i], f, i, Sequential(dag, f, init, i))
  }

  predicate AgreeOn(a: Context, b: Context, k: string) {
    (k in a <==> k in b) && (k in a ==> a[k] == b[k])
  }

  lemma {:induction false} MergeAll(dag: seq<Node>, f: Body, init: Context, done: set<nat>, k: nat)
    requires k <= |dag| && forall i :: 0 <= i < k ==> i in done
    ensures Merge(dag, f, init, done, k) == Sequential(dag, f, init, k)
  {
    if k > 0 { MergeAll(dag, f, init, done, k - 1); }
  }

  /** A merge holds the reference value of a key all of whose writers it includes. */
  lemma {:induction false} MergeAgrees(dag: seq<Node>, f: Body, init: Context, done: set<nat>, k: nat, key: string)
    requires k <= |dag|
    requires forall i :: 0 <= i < k && key in dag[i].outputs ==> i in done
    ensures AgreeOn(Merge(dag, f, init, done, k), Sequential(dag, f, init, k), key)
  {
    if k > 0 {
      MergeAgrees(dag, f, init, done, k - 1, key);
      assert Out(dag, f, init, k - 1).Keys <= dag[k - 1].outputs;
    }
  }

  /** Later stages of a merge that do not write the key leave it alone. */
  lemma {:induction false} MergeShortens(dag: seq<Node>, f: Body, init: Context, done: set<nat>,
                                         i: nat, k: nat, key: string)
    requires i <= k <= |dag|
    requires forall j :: i <= j < k && j in done ==> key !in dag[j].outputs
    ensures AgreeOn(Merge(dag, f, init, done, i), Merge(dag, f, init, done, k), key)
  {
    if i < k {
      MergeShortens(dag, f, init, done, i, k - 1, key);
      assert Out(dag, f, init, k - 1).Keys <= dag[k - 1].outputs;
    }
  }

  /** Committing i late equals having committed it in its place. */
  lemma {:induction false} MergeInsert(dag: seq<Node>, f: Body, init: Context, done: set<nat>, i: nat, k: nat)
    requires i < k <= |dag| && i !in done
    requires forall j :: i < j < k && j in done ==> dag[j].outputs !! dag[i].outputs
    ensures Merge(dag, f, init, done + {i}, k) == Merge(dag, f, init, done, k) + Out(dag, f, init, i)
  {
    if k - 1 == i {
      MergeSame(dag, f, init, done, done + {i}, i);
    } else {
      MergeInsert(dag, f, init, done, i, k - 1);
      assert Out(dag, f, init, k - 1).Keys <= dag[k - 1].outputs;
      assert Out(dag, f, init, i).Keys <= dag[i].outputs;
      var m, o, p := Merge(dag, f, init, done, k - 1), Out(dag, f, init, i), Out(dag, f, init, k - 1);
      if k - 1 in done {
        assert (m + o) + p == (m + p) + o;
      }
    }
  }

  lemma {:induction false} MergeSame(dag: seq<Node>, f: Body, init: Context, a: set<nat>, b: set<nat>, k: nat)
    requires k <= |dag| && forall i :: 0 <= i < k ==> (i in a <==> i in b)
    ensures Merge(dag, f, init, a, k) == Merge(dag, f, init, b, k)
  {
    if k > 0 { MergeSame(dag, f, init, a, b, k - 1); }
  }

  /** Completed and started stages are closed under "depends on". */
  predicate Closed(dag: seq<Node>, s: State) {
    && s.done <= s.loaded.Keys
    && (forall i :: i in s.loaded ==> i < |dag| && dag[i].deps <= s.done)
  }

  lemma {:induction false} AncestorsDone(dag: seq<Node>, s: State, i: nat)
    requires Wf(dag) && Closed(dag, s) && i < |dag| && dag[i].deps <= s.done
    ensures Ancestors(dag, i) <= s.done
    decreases i
  {
    forall d | d in dag[i].deps
      ensures Ancestors(dag, d) <= s.done
    {
      AncestorsDone(dag, s, d);
    }
  }

  ghost predicate Inv(dag: seq<Node>, f: Body, init: Context, s: State) {
    && Closed(dag, s)
    && s.context == Merge(dag, f, init, s.done, |dag|)
    && forall i :: i in s.loaded && i < |dag| ==> Output(dag[i], f, i, s.loaded[i]) == Out(dag, f, init, i)
  }

  /** A stage that is done while i is not cannot touch what i may touch. */
  lemma LaterDoneDoesNotWrite(dag: seq<Node>, s: State, i: nat, k: string)
    requires Wf(dag) && Independent(dag) && Closed(dag, s)
    requires i < |dag| && i !in s.done && k in dag[i].inputs + dag[i].outputs
    ensures forall j :: i <= j < |dag| && j in s.done ==> k !in dag[j].outputs
  {
    forall j | i <= j < |dag| && j in s.done
      ensures k !in dag[j].outputs
    {
      AncestorsDone(dag, s, j);
      assert i !in Ancestors(dag, j);
    }
  }

  lemma KeyIsReference(dag: seq<Node>, f: Body, init: Context, s: State, i: nat, k: string)
    requires Wf(dag) && Independent(dag) && Inv(dag, f, init, s)
    requires i < |dag| && i !in s.done && Ancestors(dag, i) <= s.done
    requires k in dag[i].inputs + dag[i].outputs
    ensures AgreeOn(s.context, Sequential(dag, f, init, i), k)
  {
    LaterDoneDoesNotWrite(dag, s, i, k);
    MergeShortens(dag, f, init, s.done, i, |dag|, k);
    MergeAgrees(dag, f, init, s.done, i, k);
  }

  /** A stage that may start sees, on its own keys, what the reference shows it. */
  lemma SnapshotIsReference(dag: seq<Node>, f: Body, init: Context, s: State, i: nat)
    requires Wf(dag) && Independent(dag) && Inv(dag, f, init, s)
    requires i < |dag| && i !in s.done && dag[i].deps <= s.done
    ensures Output(dag[i], f, i, s.context) == Out(dag, f, init, i)
  {
    var keys := dag[i].inputs + dag[i].outputs;
    var reference := Sequential(dag, f, init, i);
    AncestorsDone(dag, s, i);
    forall k | k in keys
      ensures AgreeOn(s.context, reference, k)
    {
      KeyIsReference(dag, f, init, s, i, k);
    }
    assert Restrict(s.context, keys) == Restrict(reference, keys);
  }

  lemma InvStep(dag: seq<Node>, f: Body, init: Context, s: State, e: Event)
    requires Wf(dag) && Independent(dag) && Inv(dag, f, init, s) && Enabled(dag, s, e)
    ensures Inv(dag, f, init, Step(dag, f, s, e))
  {
    if e.Start? {
      SnapshotIsReference(dag, f, init, s, e.i);
    } else {
      var i := e.i;
      forall j | i < j < |dag| && j in s.done
        ensures dag[j].outputs !! dag[i].outputs
      {
        AncestorsDone(dag, s, j);
        assert i !in Ancestors(dag, j);
      }
      MergeInsert(dag, f, init, s.done, i, |dag|);
    }
  }

  lemma {:induction false} InvReached(dag: seq<Node>, f: Body, init: Context, events: seq<Event>)
    requires Wf(dag) && Independent(dag) && After(dag, f, init, events).Some?
    ensures Inv(dag, f, init, After(dag, f, init, events).value)
  {
    if events == [] {
      MergeNone(dag, f, init, |dag|);
    } else {
      InvReached(dag, f, init, events[..|events| - 1]);
      InvStep(dag, f, init, After(dag, f, init, events[..|events| - 1]).value, events[|events| - 1]);
    }
  }

  lemma {:induction false} MergeNone(dag: seq<Node>, f: Body, init: Context, k: nat)
    requires k <= |dag|
    ensures Merge(dag, f, init, {}, k) == init
  {
    if k > 0 { MergeNone(dag, f, init, k - 1); }
  }

  /** Confluence: every complete dependency-respecting schedule, with loads and
      commits of parallel stages interleaved at will, ends in the context of the
      sequential execution. */
  lemma EveryScheduleAgrees(dag: seq<Node>, f: Body, init: Context, events: seq<Event>)
    requires Wf(dag) && Independent(dag)
    requires After(dag, f, init, events).Some?
    requires forall i :: 0 <= i < |dag| ==> i in After(dag, f, init, events).value.done
    ensures After(dag, f, init, events).value.context == Sequential(dag, f, init, |dag|)
  {
    InvReached(dag, f, init, events);
    MergeAll(dag, f, init, After(dag, f, init, events).value.done, |dag|);
  }

  /** One stage at a time, in enqueue order. */
  function InOrder(k: nat): seq<Event> {
    if k == 0 then [] else InOrder(k - 1) + [Start(k - 1)] + [Finish(k - 1)]
  }

  /** The reference is itself one of the schedules. */
  lemma {:induction false} InOrderIsASchedule(dag: seq<Node>, f: Body, init: Context, k: nat)
    requires Wf(dag) && k <= |dag|
    ensures var s := After(dag, f, init, InOrder(k));
            s.Some? && s.value.context == Sequential(dag, f, init, k)
            && (forall i: nat :: i in s.value.done <==> i < k)
            && (forall i: nat :: i in s.value.loaded <==> i < k)
  {
    if k > 0 {
      InOrderIsASchedule(dag, f, init, k - 1);
      var before := InOrder(k - 1);
      var s := After(dag, f, init, before).value;
      AfterSnoc(dag, f, init, before, s, Start(k - 1));
      AfterSnoc(dag, f, init, before + [Start(k - 1)], Step(dag, f, s, Start(k - 1)), Finish(k - 1));
    }
  }

  lemma AfterSnoc(dag: seq<Node>, f: Body, init: Context, events: seq<Event>, s: State, e: Event)
    requires After(dag, f, init, events) == Some(s) && Enabled(dag, s, e)
    ensures After(dag, f, init, events + [e]) == Some(Step(dag, f, s, e))
  {
    assert (events + [e])[..|events|] == events;
  }

  /* ---------------- the shapes the dispatcher builds ---------------- */

  function NodeOf(shape: Shape, job: SubJob): Node {
    Node(set d | d in job.dependsOn :: Position(shape, d), Reads(job.stage), Writes(job.stage))
  }

  function Nodes(shape: Shape): (dag: seq<Node>)
    ensures |dag| == |Dag(shape)|
    ensures forall i :: 0 <= i < |dag| ==> dag[i] == NodeOf(shape, Dag(shape)[i])
  {
    seq(|Dag(shape)|, i requires 0 <= i < |Dag(shape)| => NodeOf(shape, Dag(shape)[i]))
  }

  lemma NodesWf(shape: Shape)
    ensures Wf(Nodes(shape))
  {
    forall i, d | 0 <= i < |Nodes(shape)| && d in Nodes(shape)[i].deps
      ensures d < i
    {
      OneSuccessCallback(shape, i);
      DagPositions(shape, Dag(shape)[i].stage);
    }
  }

  /** Only transcribe_align and diarize are ever unordered. */
  predicate Parallel(a: Stage, b: Stage) {
    a == TranscribeAlign && b == Diarize
  }

  /** The dependency that leads from b back towards an earlier stage. */
  function Via(b: Stage): Stage {
    match b
    case AssignSpeakers => TranscribeAlign
    case Postprocess => AssignSpeakers
    case LlmCorrection => Postprocess
    case _ => Preprocess
  }

  lemma ViaLeadsBack(shape: Shape, a: Stage, b: Stage)
    requires a in Stages(shape) && b in Stages(shape) && a !in DependsOn(shape, b)
    requires Position(shape, a) < Position(shape, b) && !Parallel(a, b)
    ensures Via(b) in DependsOn(shape, b) && Via(b) in Stages(shape)
    ensures Position(shape, a) < Position(shape, Via(b)) && !Parallel(a, Via(b))
  {}

  lemma DependencyIsAncestor(shape: Shape, d: Stage, b: Stage)
    requires Wf(Nodes(shape)) && b in Stages(shape) && d in DependsOn(shape, b)
    ensures d in Stages(shape) && Position(shape, d) < Position(shape, b) < |Nodes(shape)|
    ensures Position(shape, d) in Ancestors(Nodes(shape), Position(shape, b))
    ensures Ancestors(Nodes(shape), Position(shape, d)) <= Ancestors(Nodes(shape), Position(shape, b))
  {
    DagPositions(shape, b);
    assert Position(shape, d) in Nodes(shape)[Position(shape, b)].deps;
  }

  lemma {:induction false} EarlierIsAncestor(shape: Shape, a: Stage, b: Stage)
    requires Wf(Nodes(shape)) && a in Stages(shape) && b in Stages(shape)
    requires Position(shape, a) < Position(shape, b) < |Nodes(shape)| && !Parallel(a, b)
    ensures Position(shape, a) in Ancestors(Nodes(shape), Position(shape, b))
    decreases Position(shape, b)
  {
    if a in DependsOn(shape, b) {
      DependencyIsAncestor(shape, a, b);
    } else {
      ViaLeadsBack(shape, a, b);
      DependencyIsAncestor(shape, Via(b), b);
      EarlierIsAncestor(shape, a, Via(b));
    }
  }

  lemma ShapesIndependent(shape: Shape)
    ensures Wf(Nodes(shape)) && Independent(Nodes(shape))
  {
    NodesWf(shape);
    var dag := Nodes(shape);
    forall i, j | 0 <= i < j < |dag| && i !in Ancestors(dag, j)
      ensures dag[i].outputs !! dag[j].outputs
      ensures dag[i].inputs !! dag[j].outputs
      ensures dag[j].inputs !! dag[i].outputs
    {
      OneSuccessCallback(shape, i);
      OneSuccessCallback(shape, j);
      var a, b := Dag(shape)[i].stage, Dag(shape)[j].stage;
      if !Parallel(a, b) {
        EarlierIsAncestor(shape, a, b);
      }
    }
  }

  /** For every shape the dispatcher builds and whatever the stages compute, the
      final context is a function of the seed alone. */
  lemma PipelineIsDeterministic(shape: Shape, f: Body, seed: Context, one: seq<Event>, other: seq<Event>)
    requires Finished(shape, f, seed, one) && Finished(shape, f, seed, other)
    ensures After(Nodes(shape), f, seed, one).value.context == After(Nodes(shape), f, seed, other).value.context
  {
    ShapesIndependent(shape);
    EveryScheduleAgrees(Nodes(shape), f, seed, one);
    EveryScheduleAgrees(Nodes(shape), f, seed, other);
  }

  predicate Finished(shape: Shape, f: Body, seed: Context, events: seq<Event>) {
    var s := After(Nodes(shape), f, seed, events);
    s.Some? && forall i :: 0 <= i < |Nodes(shape)| ==> i in s.value.done
  }

  /** A stage that finishes leaves exactly its declared outputs: those its body returned,
      from the keys of its snapshot it may look at. */
  lemma FinishCommits(dag: seq<Node>, f: Body, s: State, i: nat, visible: Context, k: string)
    requires Enabled(dag, s, Finish(i))
    requires forall key :: key in visible <==> key in s.loaded[i] && key in dag[i].inputs + dag[i].outputs
    requires forall key :: key in visible ==> visible[key] == s.loaded[i][key]
    ensures var t, result := Step(dag, f, s, Finish(i)), f(i, visible);
            && t.done == s.done + {i} && t.loaded == s.loaded
            && Redis.Lookup(t.context, k) == if k in dag[i].outputs && k in result then Some(result[k])
                                             else Redis.Lookup(s.context, k)
  {
    assert visible == Restrict(s.loaded[i], dag[i].inputs + dag[i].outputs);
  }

  lemma DiarizeDoesNotWait(shape: Shape)
    requires shape.diarize
    ensures Wf(Nodes(shape)) && Position(shape, TranscribeAlign) < Position(shape, Diarize) < |Nodes(shape)|
    ensures Position(shape, TranscribeAlign) !in Ancestors(Nodes(shape), Position(shape, Diarize))
  {
    NodesWf(shape);
    DagPositions(shape, Diarize);
    DagPositions(shape, Preprocess);
    assert Nodes(shape)[Position(shape, Diarize)].deps == {Position(shape, Preprocess)};
  }

  /** Two stages of a pipeline may run at the same time exactly when they are
      transcribe_align and diarize. */
  lemma UnorderedExactly(shape: Shape, a: Stage, b: Stage)
    requires a in Stages(shape) && b in Stages(shape) && Position(shape, a) < Position(shape, b)
    ensures Wf(Nodes(shape)) && Position(shape, b) < |Nodes(shape)|
    ensures Position(shape, a) !in Ancestors(Nodes(shape), Position(shape, b)) <==> a == TranscribeAlign && b == Diarize
  {
    NodesWf(shape);
    DagPositions(shape, b);
    if a == TranscribeAlign && b == Diarize {
      DiarizeDoesNotWait(shape);
    } else {
      EarlierIsAncestor(shape, a, b);
    }
  }

  /** What `enqueue_pipeline` seeds. */
  const SEEDED: set<string> := {"language", "batch_size", "num_speakers", "source_url", "download_dir", "input_path"}

  /** Nothing is read that nobody provides: each key a stage looks at is seeded, or an
      output of a stage it waits for, diarization aside when it is switched off. */
  lemma EveryReadIsProvided(shape: Shape, stage: Stage, key: string) returns (source: Stage)
    requires stage in Stages(shape) && key in Reads(stage) && key !in SEEDED
    requires key != "diarize_result" || shape.diarize
    ensures source in Stages(shape) && key in Writes(source)
    ensures Wf(Nodes(shape)) && Position(shape, stage) < |Nodes(shape)|
    ensures Position(shape, source) in Ancestors(Nodes(shape), Position(shape, stage))
  {
    NodesWf(shape);
    DagPositions(shape, stage);
    source := if key == "audio_path" || key == "duration" then Preprocess
              else if key == "transcription_result" || key == "aligned_result" then TranscribeAlign
              else if key == "diarize_result" then Diarize
              else if key == "final_result" then AssignSpeakers
              else Postprocess;
    EarlierIsAncestor(shape, source, stage);
  }
}
