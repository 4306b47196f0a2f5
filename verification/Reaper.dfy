/** The stale reaper: one pass over the jobs table and the queue, statement by
    statement, and what overlapping passes count. */
module Reaper {
  import opened Common
  import opened AttemptProtocol
  import Sql = JobTable
  import Redis = RedisGates

  const PIPELINE_STATE_TTL_SECONDS := 604800

  type Rows = Sql.Rows

  datatype RqStatus = RqQueued | RqStarted | RqDeferred | RqScheduled | RqFinished | RqFailed | RqStopped | RqCanceled

  /** What asking for a sub-job gives: its status, no such job, or no answer. */
  datatype Probe = Found(status: RqStatus) | NoSuchJob | RedisError

  predicate Live(p: Probe) {
    p.Found? && (p.status.RqQueued? || p.status.RqStarted? || p.status.RqDeferred? || p.status.RqScheduled?)
  }

  function Ask(probes: map<string, Probe>, sub: string): Probe {
    if sub in probes then probes[sub] else NoSuchJob
  }

  predicate StaleRow(row: Row, threshold: int) { Active(row.status) && row.updatedAt < threshold }

  /** The rows an UPDATE hits. */
  function Hit(rows: Rows, threshold: int, ids: set<string>): set<string> {
    set id | id in rows && id in ids && StaleRow(rows[id], threshold)
  }

  function Reaped(row: Row, now: int, error: string): Row {
    row.(status := Failed, error := Some(error), updatedAt := now)
  }

  function AfterUpdate(rows: Rows, threshold: int, ids: set<string>, now: int, error: string): Rows {
    map id | id in rows :: if id in Hit(rows, threshold, ids) then Reaped(rows[id], now, error) else rows[id]
  }

  /** How a pass ends: normally, or with an error of Redis while probing or bumping,
      or of SQLite at the UPDATE. */
  datatype Outcome = Recovered(count: nat) | ProbeError | BumpError | UpdateError

  /** What one pass is told: the clock at the listing and at the UPDATE, the queue's
      answers, the jobs whose keys cannot be read, how many commands of a spared job's
      refresh Redis answers (all three unless listed), how many bumps get through, what
      others write to the table before the UPDATE, and whether the UPDATE succeeds. */
  datatype Pass = Pass(timeout: nat, listedAt: int, updatedAt: int, error: string,
                       probes: map<string, Probe>, unreadable: set<string>, refreshes: map<string, nat>,
                       bumps: nat, meanwhile: seq<Sql.Write>, dbUp: bool)

  function Answers(p: Pass, id: string): nat { if id in p.refreshes then p.refreshes[id] else 3 }

  predicate NoRepeats(ids: seq<string>) {
    forall i, j :: 0 <= i < j < |ids| ==> ids[i] != ids[j]
  }

  class StaleReaper {
    var rows: Rows
    var counters: map<string, int>
    var subjobs: map<(string, int), set<string>>
    var counterExpiry: map<string, int>
    var subjobsExpiry: map<(string, int), int>

    constructor (rows: Rows, counters: map<string, int>, subjobs: map<(string, int), set<string>>)
      ensures this.rows == rows && this.counters == counters && this.subjobs == subjobs
    {
      this.rows, this.counters, this.subjobs := rows, counters, subjobs;
      counterExpiry, subjobsExpiry := map[], map[];
    }

    /** The sub-jobs of the current generation; none when a key is missing. */
    function CurrentSubjobs(id: string): set<string>
      reads this
    {
      if id in counters && (id, counters[id]) in subjobs then subjobs[(id, counters[id])] else {}
    }

    method IsPipelineDead(id: string, probes: map<string, Probe>, unreadable: set<string>) returns (dead: Option<bool>)
      ensures dead == Some(true) ==>
                id !in unreadable && forall sub :: sub in CurrentSubjobs(id) ==>
                  !Live(Ask(probes, sub)) && !Ask(probes, sub).RedisError?
      ensures dead == Some(false) ==>
                id in counters && (id, counters[id]) in subjobs &&
                exists sub :: sub in CurrentSubjobs(id) && Live(Ask(probes, sub))
      ensures dead == None ==>
                id in unreadable || exists sub :: sub in CurrentSubjobs(id) && Ask(probes, sub).RedisError?
    {
      if id in unreadable {
        return None;
      }
      if id !in counters {
        return Some(true);
      }
      var ids := CurrentSubjobs(id);
      if ids == {} {
        return Some(true);
      }
      var todo := ids;
      while todo != {}
        invariant todo <= ids
        invariant forall sub :: sub in ids && sub !in todo ==>
                    !Live(Ask(probes, sub)) && !Ask(probes, sub).RedisError?
        decreases todo
      {
        var sub :| sub in todo;
        var answer := Ask(probes, sub);
        if answer.RedisError? {
          return None;
        }
        if Live(answer) {
          return Some(false);
        }
        todo := todo - {sub};
      }
      return Some(true);
    }

    /** GET, then EXPIRE on both keys; nothing happens for a key that is gone. Redis
        answers the first `answers` commands, and an unanswered one raises. */
    method RefreshPipelineStateTtl(id: string, now: int, answers: nat) returns (ok: bool)
      modifies this`counterExpiry, this`subjobsExpiry
      ensures ok <==> answers >= if id in counters then 3 else 1
      ensures counterExpiry == if id in counters && answers >= 2
                               then old(counterExpiry)[id := now + PIPELINE_STATE_TTL_SECONDS]
                               else old(counterExpiry)
      ensures subjobsExpiry == if id in counters && (id, counters[id]) in subjobs && answers >= 3
                               then old(subjobsExpiry)[(id, counters[id]) := now + PIPELINE_STATE_TTL_SECONDS]
                               else old(subjobsExpiry)
    {
      if answers < 1 {
        return false;
      }
      if id !in counters {
        return true;
      }
      if answers < 2 {
        return false;
      }
      counterExpiry := counterExpiry[id := now + PIPELINE_STATE_TTL_SECONDS];
      if answers < 3 {
        return false;
      }
      if (id, counters[id]) in subjobs {
        subjobsExpiry := subjobsExpiry[(id, counters[id]) := now + PIPELINE_STATE_TTL_SECONDS];
      }
      return true;
    }

    method BumpGeneration(id: string, now: int)
      modifies this`counters, this`counterExpiry
      ensures counters == old(counters)[id := BumpedOf(old(counters), id)]
      ensures counterExpiry == old(counterExpiry)[id := now + PIPELINE_STATE_TTL_SECONDS]
    {
      counters := counters[id := BumpedOf(counters, id)];
      counterExpiry := counterExpiry[id := now + PIPELINE_STATE_TTL_SECONDS];
    }

    /** One UPDATE statement restricted to `only`, with the number of rows it returned. */
    method RecoverStaleJobs(threshold: int, now: int, error: string, only: set<string>) returns (count: nat)
      modifies this`rows
      ensures rows == AfterUpdate(old(rows), threshold, only, now, error)
      ensures count == |Hit(old(rows), threshold, only)|
    {
      count := |Hit(rows, threshold, only)|;
      rows := AfterUpdate(rows, threshold, only, now, error);
    }

    /** The candidates, each once. */
    method ListStaleActiveJobIds(threshold: int) returns (ids: seq<string>)
      ensures NoRepeats(ids)
      ensures forall id :: id in ids <==>
                id in rows && (rows[id].status == Queued || rows[id].status == Processing)
                && rows[id].updatedAt < threshold
    {
      ids := [];
      var todo := set id | id in rows && StaleRow(rows[id], threshold);
      while todo != {}
        invariant forall id :: id in ids ==> id !in todo
        invariant NoRepeats(ids)
        invariant forall id :: id in ids || id in todo <==> id in rows && StaleRow(rows[id], threshold)
        decreases todo
      {
        var id :| id in todo;
        ids := ids + [id];
        todo := todo - {id};
      }
    }

    /** The probe found nothing of the job's current generation alive. */
    ghost predicate Dead(id: string, p: Pass)
      reads this
    {
      id !in p.unreadable && forall sub :: sub in CurrentSubjobs(id) ==> !Live(Ask(p.probes, sub))
    }

    ghost predicate Rearmed(id: string, now: int)
      reads this
    {
      && id in counters && id in counterExpiry
      && counterExpiry[id] == now + PIPELINE_STATE_TTL_SECONDS
      && (id, counters[id]) in subjobsExpiry
      && subjobsExpiry[(id, counters[id])] == now + PIPELINE_STATE_TTL_SECONDS
    }

    /** Probing the job, or refreshing it when it is spared, can end in an error. */
    ghost predicate Unanswered(id: string, p: Pass)
      reads this
    {
      || id in p.unreadable
      || (exists sub :: sub in CurrentSubjobs(id) && Ask(p.probes, sub).RedisError?)
      || (!Dead(id, p) && Answers(p, id) < 3)
    }

    /** Probes the candidates one after the other and re-arms those that live; None
        when Redis fails, which ends the pass. */
    method ProbeAll(candidates: seq<string>, p: Pass) returns (dead: Option<seq<string>>)
      requires NoRepeats(candidates)
      modifies this`counterExpiry, this`subjobsExpiry
      ensures dead.None? ==> exists id :: id in candidates && Unanswered(id, p)
      ensures dead.Some? ==>
                && NoRepeats(dead.value)
                && (forall id :: id in dead.value ==> id in candidates && Dead(id, p))
                && (forall id :: id in candidates && id !in dead.value ==>
                      !Dead(id, p) && Rearmed(id, p.listedAt))
    {
      var found: seq<string> := [];
      for i := 0 to |candidates|
        invariant NoRepeats(found)
        invariant forall id :: id in found ==> id in candidates[..i] && Dead(id, p)
        invariant forall id :: id in candidates[..i] && id !in found ==> !Dead(id, p) && Rearmed(id, p.listedAt)
      {
        var id := candidates[i];
        assert candidates[..i + 1] == candidates[..i] + [id];
        assert id !in candidates[..i];
        var verdict := IsPipelineDead(id, p.probes, p.unreadable);
        match verdict {
          case None =>
            assert Unanswered(id, p);
            return None;
          case Some(true) => found := found + [id];
          case Some(false) =>
            var ok := RefreshPipelineStateTtl(id, p.listedAt, Answers(p, id));
            if !ok {
              assert Unanswered(id, p);
              return None;
            }
        }
      }
      assert candidates[..|candidates|] == candidates;
      return Some(found);
    }

    /** Bumps the dead jobs in turn, until Redis gives out. */
    method BumpAll(dead: seq<string>, p: Pass) returns (ok: bool)
      requires NoRepeats(dead)
      modifies this`counters, this`counterExpiry
      ensures ok <==> |dead| <= p.bumps
      ensures forall id :: id !in dead ==> Same(old(counters), counters, id)
      ensures forall id :: id !in dead && old(Rearmed(id, p.listedAt)) ==> Rearmed(id, p.listedAt)
      ensures ok ==> forall id :: id in dead ==> Bumped(old(counters), counters, id)
    {
      for i := 0 to |dead|
        invariant i <= p.bumps
        invariant forall id :: id in dead[..i] ==> Bumped(old(counters), counters, id)
        invariant forall id :: id !in dead[..i] ==> Same(old(counters), counters, id)
        invariant forall id :: id !in dead && old(Rearmed(id, p.listedAt)) ==> Rearmed(id, p.listedAt)
      {
        if i == p.bumps {
          return false;
        }
        assert dead[..i + 1] == dead[..i] + [dead[i]];
        assert dead[i] !in dead[..i];
        BumpGeneration(dead[i], p.updatedAt);
      }
      assert dead[..|dead|] == dead;
      return true;
    }

    /** The last statement of a pass, after what others wrote since the listing. */
    method FailDead(only: set<string>, p: Pass) returns (outcome: Outcome)
      modifies this`rows
      ensures outcome.UpdateError? || outcome.Recovered?
      ensures outcome.UpdateError? ==> !p.dbUp && rows == Sql.Replay(old(rows), p.meanwhile)
      ensures outcome.Recovered? ==>
                var before := Sql.Replay(old(rows), p.meanwhile);
                && rows == AfterUpdate(before, p.updatedAt - p.timeout, only, p.updatedAt, p.error)
                && outcome.count == |Hit(before, p.updatedAt - p.timeout, only)|
    {
      rows := Sql.Replay(rows, p.meanwhile);
      if !p.dbUp {
        return UpdateError;
      }
      var count := RecoverStaleJobs(p.updatedAt - p.timeout, p.updatedAt, p.error, only);
      return Recovered(count);
    }

    /** Whatever happens, a row this pass fails was a stale candidate whose probe found
        no live sub-job, and its generation was bumped; the pass leaves the row of a spared
        candidate alone and re-arms both its keys; an error of Redis leaves every row alone, and
        every counter too while still probing. */
    method RecoverStalePipelineJobs(p: Pass) returns (outcome: Outcome, dead: set<string>)
      modifies this
      ensures subjobs == old(subjobs)
      ensures forall id :: id in dead ==> id in old(rows) && StaleRow(old(rows)[id], p.listedAt - p.timeout)
      ensures forall id :: id in dead ==> old(Dead(id, p))
      ensures outcome.Recovered? ==>
                && rows == AfterUpdate(Sql.Replay(old(rows), p.meanwhile), p.updatedAt - p.timeout, dead,
                                       p.updatedAt, p.error)
                && outcome.count == |Hit(Sql.Replay(old(rows), p.meanwhile), p.updatedAt - p.timeout, dead)|
                && (forall id :: id in dead ==> Bumped(old(counters), counters, id))
                && (forall id :: id in old(rows) && StaleRow(old(rows)[id], p.listedAt - p.timeout) && id !in dead ==>
                      !old(Dead(id, p)) && Rearmed(id, p.listedAt)
                      && KeptAs(rows, Sql.Replay(old(rows), p.meanwhile), id))
      ensures outcome.ProbeError? || outcome.BumpError? ==> rows == old(rows)
      ensures outcome.UpdateError? ==> rows == Sql.Replay(old(rows), p.meanwhile)
      ensures outcome.ProbeError? ==>
                && counters == old(counters)
                && exists id :: id in old(rows) && StaleRow(old(rows)[id], p.listedAt - p.timeout)
                                && old(Unanswered(id, p))
      ensures outcome.BumpError? ==> p.bumps < |dead|
      ensures outcome.UpdateError? ==> !p.dbUp && forall id :: id in dead ==> Bumped(old(counters), counters, id)
      ensures forall id :: id !in dead ==> Same(old(counters), counters, id)
    {
      dead := {};
      var candidates := ListStaleActiveJobIds(p.listedAt - p.timeout);
      var probed := ProbeAll(candidates, p);
      if probed.None? {
        return ProbeError, dead;
      }
      var found := probed.value;
      dead := set id | id in found;
      if found == [] {
        rows := Sql.Replay(rows, p.meanwhile);
        NothingToFail(rows, p.updatedAt - p.timeout, p.updatedAt, p.error);
        return Recovered(0), dead;
      }
      var bumped := BumpAll(found, p);
      SizeWithoutRepeats(found);
      if !bumped {
        return BumpError, dead;
      }
      outcome := FailDead(dead, p);
    }
  }

  lemma {:induction false} SizeWithoutRepeats(ids: seq<string>)
    requires NoRepeats(ids)
    ensures |set id | id in ids| == |ids|
  {
    if ids != [] {
      var front, last := ids[..|ids| - 1], ids[|ids| - 1];
      SizeWithoutRepeats(front);
      assert (set id | id in ids) == (set id | id in front) + {last};
    }
  }

  function BumpedOf(counters: map<string, int>, id: string): int {
    Redis.Bumped(if id in counters then Some(counters[id]) else None)
  }

  lemma NothingToFail(rows: Rows, threshold: int, now: int, error: string)
    ensures Hit(rows, threshold, {}) == {} && AfterUpdate(rows, threshold, {}, now, error) == rows
  {}

  /** The pass itself did not touch the row. */
  predicate KeptAs(rows: Rows, before: Rows, id: string) {
    (id in rows <==> id in before) && (id in rows ==> rows[id] == before[id])
  }

  ghost predicate Bumped(before: map<string, int>, after: map<string, int>, id: string) {
    id in after && after[id] == BumpedOf(before, id)
  }

  ghost predicate Same(before: map<string, int>, after: map<string, int>, id: string) {
    (id in before <==> id in after) && (id in before ==> after[id] == before[id])
  }

  /* ---------------- what a pass goes by ---------------- */

  /** Dead, in the queue's own terms: every sub-job recorded for the current generation is
      neither queued, started, deferred nor scheduled. */
  lemma DeadExactlyWhen(r: StaleReaper, id: string, p: Pass)
    ensures r.Dead(id, p) <==>
              id !in p.unreadable &&
              (id in r.counters && (id, r.counters[id]) in r.subjobs ==>
                 forall sub :: sub in r.subjobs[(id, r.counters[id])] && sub in p.probes ==>
                   p.probes[sub] !in {Found(RqQueued), Found(RqStarted), Found(RqDeferred), Found(RqScheduled)})
  {
    if id in r.counters && (id, r.counters[id]) in r.subjobs {
      assert r.CurrentSubjobs(id) == r.subjobs[(id, r.counters[id])];
    } else {
      assert r.CurrentSubjobs(id) == {};
    }
  }

  /** The UPDATE in terms of the columns: it fails the listed rows that are active and
      older than the threshold; no younger or terminal row is touched. */
  lemma UpdateExactly(rows: Rows, threshold: int, ids: set<string>, now: int, error: string)
    ensures var after := AfterUpdate(rows, threshold, ids, now, error);
            && after.Keys == rows.Keys
            && forall id :: id in rows ==>
                 after[id] == if id in ids && (rows[id].status == Queued || rows[id].status == Processing)
                                 && rows[id].updatedAt < threshold
                              then rows[id].(status := Failed, error := Some(error), updatedAt := now)
                              else rows[id]
    ensures forall id :: id in Hit(rows, threshold, ids) <==>
              id in rows && id in ids && (rows[id].status == Queued || rows[id].status == Processing)
              && rows[id].updatedAt < threshold
  {}

  /** On the row of one job the UPDATE is the protocol's step, taken under its guard. */
  lemma UpdateIsTheProtocolStep(s: JobState, rows: Rows, id: string, ids: set<string>, mark: Mark, error: string)
    requires id in rows && s.row == Some(rows[id])
    ensures id in Hit(rows, s.now - s.timeout, ids) <==> id in ids && MayReap(s)
    ensures id in ids ==>
              Some(AfterUpdate(rows, s.now - s.timeout, ids, s.now, error)[id]) == ReapUpdateStep(s, mark, error).row
    ensures id !in ids ==> AfterUpdate(rows, s.now - s.timeout, ids, s.now, error)[id] == rows[id]
  {}

  /* ---------------- overlapping passes ---------------- */

  /** The jobs table over time: the UPDATE statements of any number of passes, each
      with its own clock and list, and anything other processes do in between. */
  datatype Step =
    | Update(threshold: int, ids: set<string>, now: int, error: string)
    | Others(rows: Rows)

  /** The rows, which of them some UPDATE has failed so far, and what the passes
      together reported. */
  datatype Tally = Tally(rows: Rows, failed: set<string>, reported: nat)

  function Play(rows: Rows, steps: seq<Step>): Tally {
    if steps == [] then Tally(rows, {}, 0)
    else
      var t := Play(rows, steps[..|steps| - 1]);
      match steps[|steps| - 1]
      case Update(threshold, ids, now, error) =>
        var hit := Hit(t.rows, threshold, ids);
        Tally(AfterUpdate(t.rows, threshold, ids, now, error), t.failed + hit, t.reported + |hit|)
      case Others(after) => t.(rows := after)
  }

  ghost predicate Settled(rows: Rows, failed: set<string>) {
    forall id :: id in failed ==> id !in rows || !Active(rows[id].status)
  }

  /** Nothing brings a row an UPDATE has failed back to QUEUED or PROCESSING. */
  ghost predicate NoRetry(rows: Rows, steps: seq<Step>) {
    forall k :: 0 <= k < |steps| && steps[k].Others? ==> Settled(steps[k].rows, Play(rows, steps[..k]).failed)
  }

  /** Overlapping passes count each row they fail exactly once: their reports add up
      to the number of distinct rows failed. */
  lemma {:induction false} ReportsAddUp(rows: Rows, steps: seq<Step>)
    requires NoRetry(rows, steps)
    ensures Play(rows, steps).reported == |Play(rows, steps).failed|
    ensures Settled(Play(rows, steps).rows, Play(rows, steps).failed)
  {
    if steps != [] {
      var k := |steps| - 1;
      var front := steps[..k];
      forall j | 0 <= j < k && front[j].Others?
        ensures Settled(front[j].rows, Play(rows, front[..j]).failed)
      {
        assert front[..j] == steps[..j] && front[j] == steps[j];
      }
      ReportsAddUp(rows, front);
      var t := Play(rows, front);
      if steps[k].Update? {
        Disjoint(t.failed, Hit(t.rows, steps[k].threshold, steps[k].ids));
      }
    }
  }

  lemma Disjoint(a: set<string>, b: set<string>)
    requires forall id :: id in b ==> id !in a
    ensures |a + b| == |a| + |b|
  {
    assert a * b == {};
  }

  predicate OnlyUpdates(steps: seq<Step>) {
    forall k :: 0 <= k < |steps| ==> steps[k].Update?
  }

  /** With nobody else writing, the rows failed are exactly those whose status the
      passes turned to FAILED, so the reports add up to them. */
  lemma {:induction false} FailedAreTheNewlyFailed(rows: Rows, steps: seq<Step>)
    requires OnlyUpdates(steps)
    ensures Play(rows, steps).rows.Keys == rows.Keys && Play(rows, steps).failed <= rows.Keys
    ensures forall id :: id in rows ==>
              (id in Play(rows, steps).failed <==>
                 Active(rows[id].status) && Play(rows, steps).rows[id].status == Failed)
    ensures forall id :: id in rows && id !in Play(rows, steps).failed ==> Play(rows, steps).rows[id] == rows[id]
  {
    if steps != [] {
      FailedAreTheNewlyFailed(rows, steps[..|steps| - 1]);
    }
  }
}
