/** The Redis keys of one parent job as the worker code updates them in place:
    the progress reporter, the context store and the generation counter. Every
    method is proved against the step function of RedisGates, so the gating
    theorems stated there are theorems about these methods. */
module RedisStore {
  import opened Common
  import opened RedisGates

  datatype ProgressWriteOutcome = Accepted | Rejected | Degraded

  class JobKeys {
    var counter: Option<int>
    var hash: ProgressHash
    var context: Context

    ghost function View(): Store
      reads this
    {
      Store(counter, hash, context)
    }

    constructor ()
      ensures View() == EMPTY_STORE
    {
      counter, hash, context := None, NO_HASH, map[];
    }

    /** `report`: an unreachable Redis is DEGRADED and changes nothing. */
    method Report(gen: Option<nat>, progress: real, message: string, available: bool)
      returns (outcome: ProgressWriteOutcome)
      modifies this
      ensures !available ==> outcome == Degraded && View() == old(View())
      ensures available ==> View() == Apply(old(View()), Op.Report(gen, progress, message)).0
      ensures available ==>
                outcome == (if Apply(old(View()), Op.Report(gen, progress, message)).1 then Accepted else Rejected)
    {
      if !available {
        return Degraded;
      }
      var callerGen := CallerGen(gen);
      if callerGen < 0 {
        MaxWriteField(progress, message);
        return Accepted;
      }
      if counter.Some? && callerGen < counter.value {
        return Rejected;
      }
      if hash.generation.None? || callerGen > hash.generation.value {
        hash := hash.(progress := Some(progress), message := Some(message),
                      status := Some("processing"), generation := Some(callerGen));
        return Accepted;
      }
      if callerGen < hash.generation.value {
        return Rejected;
      }
      MaxWriteField(progress, message);
      return Accepted;
    }

    method MaxWriteField(progress: real, message: string)
      modifies this`hash
      ensures hash == WithProgress(old(hash), progress, message)
    {
      if hash.progress.None? || progress >= hash.progress.value {
        hash := hash.(progress := Some(progress), message := Some(message), status := Some("processing"));
      } else {
        hash := hash.(message := Some(message), status := Some("processing"));
      }
    }

    /** `complete` and `fail` answer True on an outage, as the code does. */
    method Complete(gen: Option<nat>, path: string, available: bool) returns (ok: bool)
      modifies this`hash
      ensures !available ==> ok && View() == old(View())
      ensures available ==> (View(), ok) == Apply(old(View()), Op.Complete(gen, path))
    {
      if !available {
        return true;
      }
      var callerGen := CallerGen(gen);
      if callerGen >= 0 {
        var rejected := GateRejects(callerGen);
        if rejected {
          return false;
        }
      }
      hash := hash.(progress := Some(1.0), message := Some(PIPELINE_COMPLETE),
                    status := Some("completed"), resultPath := Some(path));
      if callerGen >= 0 {
        hash := hash.(generation := Some(callerGen));
      }
      return true;
    }

    method Fail(gen: Option<nat>, error: string, available: bool) returns (ok: bool)
      modifies this`hash
      ensures !available ==> ok && View() == old(View())
      ensures available ==> (View(), ok) == Apply(old(View()), Op.Fail(gen, error))
    {
      if !available {
        return true;
      }
      var callerGen := CallerGen(gen);
      if callerGen >= 0 {
        var rejected := GateRejects(callerGen);
        if rejected {
          return false;
        }
      }
      hash := hash.(progress := Some(0.0), message := Some(Truncate(error, MESSAGE_MAX_LENGTH)),
                    status := Some("failed"), error := Some(Truncate(error, ERROR_MAX_LENGTH)));
      if callerGen >= 0 {
        hash := hash.(generation := Some(callerGen));
      }
      return true;
    }

    /** The snippet shared by both terminal scripts. */
    method GateRejects(callerGen: int) returns (rejected: bool)
      ensures rejected <==> TerminalRejects(View(), callerGen)
    {
      if counter.Some? {
        if callerGen < counter.value {
          return true;
        }
      }
      if hash.generation.Some? {
        if callerGen < hash.generation.value {
          return true;
        }
      }
      return false;
    }

    method UpdateIfGenerationMatches(updates: Context, expected: nat) returns (committed: bool)
      modifies this`context
      ensures (View(), committed) == Apply(old(View()), StageWrite(expected, updates))
    {
      if counter.Some? && counter.value != expected {
        return false;
      }
      context := context + updates;
      return true;
    }

    /** The unconditional write used by the pre-context hooks. */
    method Update(updates: Context)
      modifies this`context
      ensures View() == Apply(old(View()), HookWrite(updates)).0
    {
      context := context + updates;
    }

    method DeleteContext()
      modifies this`context
      ensures View() == Apply(old(View()), DropContext).0
    {
      context := map[];
    }

    method BumpGeneration() returns (generation: int)
      modifies this`counter
      ensures View() == Apply(old(View()), Op.BumpGeneration).0
      ensures counter == Some(generation)
    {
      generation := if counter.None? then 1 else counter.value + 1;
      counter := Some(generation);
    }

    /** `initialize`: the hash is dropped before the seed is written. */
    method Initialize(seed: Context)
      modifies this`context
      ensures View() == Run(old(View()), [DropContext, SeedContext(seed)])
    {
      context := map[];
      context := context + seed;
      RunTwo(old(View()), DropContext, SeedContext(seed));
    }

    /** The Redis part of `enqueue_pipeline`, in its order: bump before anything
        is cleared, then the progress hash, then the context. */
    method BeginAttempt(seed: Context) returns (generation: int)
      requires counter.Some? ==> counter.value >= 0
      modifies this
      ensures generation == Bumped(old(counter)) >= 1
      ensures View() == Run(old(View()), EnqueueOps(generation, seed))
    {
      generation := BumpGeneration();
      hash := NO_HASH;
      hash := hash.(progress := Some(0.0), status := Some("queued"), generation := Some(generation));
      Initialize(seed);
      EnqueueEffect(old(View()), generation, seed);
    }
  }

  function EnqueueOps(generation: nat, seed: Context): seq<Op> {
    [BumpGeneration, DropProgress, SeedProgress(generation), DropContext, SeedContext(seed)]
  }

  lemma RunSnoc(s: Store, ops: seq<Op>, op: Op)
    ensures Run(s, ops + [op]) == Apply(Run(s, ops), op).0
  {
    assert (ops + [op])[..|ops|] == ops;
  }

  lemma RunTwo(s: Store, a: Op, b: Op)
    ensures Run(s, [a, b]) == Apply(Apply(s, a).0, b).0
  {
    RunSnoc(s, [], a);
    RunSnoc(s, [a], b);
    assert [] + [a] == [a] && [a] + [b] == [a, b];
  }

  /** What an undisturbed enqueue leaves behind: a fresh attempt, and nothing of
      the previous one (its error and result path included). */
  lemma EnqueueEffect(s: Store, generation: nat, seed: Context)
    ensures Run(s, EnqueueOps(generation, seed)) ==
            Store(Some(Bumped(s.counter)),
                  ProgressHash(Some(0.0), None, Some("queued"), Some(generation), None, None), seed)
  {
    RunFive(s, BumpGeneration, DropProgress, SeedProgress(generation), DropContext, SeedContext(seed));
  }

  lemma RunFive(s: Store, a: Op, b: Op, c: Op, d: Op, e: Op)
    ensures Run(s, [a, b, c, d, e]) == Apply(Apply(Apply(Apply(Apply(s, a).0, b).0, c).0, d).0, e).0
  {
    RunTwo(s, a, b);
    RunSnoc(s, [a, b], c);
    RunSnoc(s, [a, b, c], d);
    RunSnoc(s, [a, b, c, d], e);
    assert [a, b] + [c] == [a, b, c];
    assert [a, b, c] + [d] == [a, b, c, d];
    assert [a, b, c, d] + [e] == [a, b, c, d, e];
  }
}
