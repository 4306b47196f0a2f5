/** The jobs table under the retry and delete routes: conditional SQL statements of
    this process, with the writes of everybody else allowed in at every await. */
module JobTable {
  import opened Common
  import opened AttemptProtocol

  type Rows = map<string, Row>

  /** One SQL statement on the table; an UPDATE or DELETE that matches no row does
      nothing. */
  datatype Write =
    | Requeue(id: string, now: int)
    | Delete(id: string)
    | Put(id: string, row: Row)
    | Insert(id: string, row: Row)

  predicate HasStatus(rows: Rows, id: string, status: Status) { id in rows && rows[id].status == status }

  predicate Deletable(rows: Rows, id: string) { id in rows && Terminal(rows[id].status) }

  function Exec(rows: Rows, w: Write): Rows {
    match w
    case Requeue(id, now) => if HasStatus(rows, id, Failed) then rows[id := Fresh(now, rows[id])] else rows
    case Delete(id) => if Deletable(rows, id) then rows - {id} else rows
    case Put(id, row) => if id in rows then rows[id := row] else rows
    case Insert(id, row) => if id in rows then rows else rows[id := row]
  }

  function Replay(rows: Rows, log: seq<Write>): Rows {
    if log == [] then rows else Exec(Replay(rows, log[..|log| - 1]), log[|log| - 1])
  }

  /** The claims of a job that went through. */
  function Claims(rows: Rows, log: seq<Write>, id: string): nat {
    if log == [] then 0
    else
      var front, last := log[..|log| - 1], log[|log| - 1];
      Claims(rows, front, id)
      + if last.Requeue? && last.id == id && HasStatus(Replay(rows, front), id, Failed) then 1 else 0
  }

  /** The deletes of a job that removed its row. */
  function Deletions(rows: Rows, log: seq<Write>, id: string): nat {
    if log == [] then 0
    else
      var front, last := log[..|log| - 1], log[|log| - 1];
      Deletions(rows, front, id)
      + if last.Delete? && last.id == id && Deletable(Replay(rows, front), id) then 1 else 0
  }

  /** How often a job entered FAILED, being FAILED at the start included. */
  function Failures(rows: Rows, log: seq<Write>, id: string): nat {
    if log == [] then if HasStatus(rows, id, Failed) then 1 else 0
    else
      var front := log[..|log| - 1];
      Failures(rows, front, id)
      + if !HasStatus(Replay(rows, front), id, Failed) && HasStatus(Replay(rows, log), id, Failed) then 1 else 0
  }

  /** Whoever writes what in between, each entry into FAILED pays for one claim; a row
      that is FAILED now has not been claimed for its last entry yet. */
  lemma {:induction false} ClaimsNeedFailures(rows: Rows, log: seq<Write>, id: string)
    ensures Claims(rows, log, id) + (if HasStatus(Replay(rows, log), id, Failed) then 1 else 0)
         <= Failures(rows, log, id)
  {
    if log != [] {
      ClaimsNeedFailures(rows, log[..|log| - 1], id);
    }
  }

  /** Over any log: a row that is gone was deleted while it was terminal, never while it
      was QUEUED or PROCESSING. */
  lemma {:induction false} DeletedWasTerminal(rows: Rows, log: seq<Write>, id: string) returns (k: nat)
    requires id in rows && id !in Replay(rows, log)
    ensures k < |log| && log[k] == Delete(id) && Deletable(Replay(rows, log[..k]), id)
  {
    var last := |log| - 1;
    if id in Replay(rows, log[..last]) {
      k := last;
    } else {
      k := DeletedWasTerminal(rows, log[..last], id);
      assert log[..last][..k] == log[..k];
    }
  }

  /** Of a retry and a delete that both found the job FAILED, whichever comes second
      does nothing. */
  lemma RetryAndDeleteExclude(rows: Rows, id: string, now: int)
    requires HasStatus(rows, id, Failed)
    ensures Replay(rows, [Requeue(id, now), Delete(id)]) == Replay(rows, [Requeue(id, now)])
    ensures Replay(rows, [Delete(id), Requeue(id, now)]) == Replay(rows, [Delete(id)])
  {
    ReplayTwo(rows, Requeue(id, now), Delete(id));
    ReplayTwo(rows, Delete(id), Requeue(id, now));
  }

  lemma ReplayTwo(rows: Rows, a: Write, b: Write)
    ensures Replay(rows, [a, b]) == Exec(Exec(rows, a), b) && Replay(rows, [a]) == Exec(rows, a)
  {
    assert [a, b][..1] == [a];
    assert [a][..0] == [];
    assert Replay(rows, []) == rows;
  }

  lemma {:induction false} ReplayConcat(rows: Rows, a: seq<Write>, b: seq<Write>, id: string)
    ensures Replay(rows, a + b) == Replay(Replay(rows, a), b)
    ensures Claims(rows, a + b, id) >= Claims(rows, a, id)
    ensures Deletions(rows, a + b, id) >= Deletions(rows, a, id)
  {
    if b == [] {
      assert a + b == a;
    } else {
      ReplayConcat(rows, a, b[..|b| - 1], id);
      assert (a + b)[..|a + b| - 1] == a + b[..|b| - 1];
    }
  }

  /** One more write. */
  lemma Snoc(rows: Rows, log: seq<Write>, w: Write)
    ensures Replay(rows, log + [w]) == Exec(Replay(rows, log), w)
    ensures forall id :: Claims(rows, log + [w], id) == Claims(rows, log, id)
              + if w.Requeue? && w.id == id && HasStatus(Replay(rows, log), id, Failed) then 1 else 0
    ensures forall id :: Deletions(rows, log + [w], id) == Deletions(rows, log, id)
              + if w.Delete? && w.id == id && Deletable(Replay(rows, log), id) then 1 else 0
  {
    assert (log + [w])[..|log|] == log;
  }

  lemma More(rows: Rows, log: seq<Write>, others: seq<Write>)
    ensures Replay(rows, log + others) == Replay(Replay(rows, log), others)
    ensures forall id :: Claims(rows, log + others, id) >= Claims(rows, log, id)
    ensures forall id :: Deletions(rows, log + others, id) >= Deletions(rows, log, id)
  {
    ReplayConcat(rows, log, others, "");
    forall id {
      ReplayConcat(rows, log, others, id);
    }
  }

  function Occurrences(s: seq<string>, id: string): nat {
    if s == [] then 0 else Occurrences(s[..|s| - 1], id) + if s[|s| - 1] == id then 1 else 0
  }

  /* ---------------- what the routes do ---------------- */

  /** What happens around one retry or delete: the clock, what others write at the
      first and second await, and whether the queue takes the pipeline. */
  datatype Turn = Turn(now: int, first: seq<Write>, second: seq<Write>, accepted: bool)

  function EnqueueFailed(job: Row, now: int): Row {
    job.(status := Failed, error := Some(UPLOAD_ENQUEUE_FAILED), updatedAt := now)
  }

  /** One retry: the claim after the first await decides. A claimed job the queue does
      not take goes back to FAILED, every column from the snapshot the caller read
      before that await and has reset since. */
  function RetryOne(rows: Rows, id: string, snapshot: Row, t: Turn): (Rows, bool) {
    var probed := Replay(rows, t.first);
    if !HasStatus(probed, id, Failed) then (probed, false)
    else
      var later := Replay(Exec(probed, Requeue(id, t.now)), t.second);
      if t.accepted then (later, true)
      else (Exec(later, Put(id, EnqueueFailed(Fresh(t.now, snapshot), t.now))), false)
  }

  function DeleteOne(rows: Rows, id: string, t: Turn): (Rows, bool) {
    var probed := Replay(rows, t.first);
    if !Deletable(probed, id) then (probed, false)
    else (Replay(Exec(probed, Delete(id)), t.second), true)
  }

  /** One id of a bulk action: only a row the user owns, and in a status that fits. */
  function BulkOne(rows: Rows, id: string, owned: set<string>, t: Turn, retry: bool): (Rows, bool) {
    if id !in rows || id !in owned then (rows, false)
    else if retry then
      if rows[id].status != Failed then (rows, false) else RetryOne(rows, id, rows[id], t)
    else
      if !Terminal(rows[id].status) then (rows, false) else DeleteOne(rows, id, t)
  }

  /** The table after a bulk action on the first k ids, and the ids it succeeded on. */
  function BulkOf(rows: Rows, ids: seq<string>, owned: set<string>, turns: seq<Turn>, retry: bool, k: nat)
    : (r: (Rows, seq<string>))
    requires k <= |ids| == |turns|
    ensures |r.1| <= k
  {
    if k == 0 then (rows, [])
    else
      var (now, done) := BulkOf(rows, ids, owned, turns, retry, k - 1);
      var (next, ok) := BulkOne(now, ids[k - 1], owned, turns[k - 1], retry);
      (next, if ok then done + [ids[k - 1]] else done)
  }

  function BatchOne(rows: Rows, id: string, listed: Row, t: Turn): (Rows, bool) {
    if listed.status != Failed then (rows, false) else RetryOne(rows, id, listed, t)
  }

  /** The batch retry goes by the rows of its listing. */
  function BatchOf(rows: Rows, listed: seq<(string, Row)>, turns: seq<Turn>, k: nat): (r: (Rows, seq<string>))
    requires k <= |listed| == |turns|
  {
    if k == 0 then (rows, [])
    else
      var (now, done) := BatchOf(rows, listed, turns, k - 1);
      var (next, ok) := BatchOne(now, listed[k - 1].0, listed[k - 1].1, turns[k - 1]);
      (next, if ok then done + [listed[k - 1].0] else done)
  }

  /** What each statement does to a row, told from the row before it. */
  lemma StatementsExactly(rows: Rows, id: string, now: int, row: Row, x: string)
    ensures Entry(Exec(rows, Requeue(id, now)), x) ==
              if x == id && x in rows && rows[x].status == Failed
              then Some(rows[x].(status := Queued, error := None, progress := 0.0, message := "", resultPath := None,
                                 updatedAt := now))
              else Entry(rows, x)
    ensures Entry(Exec(rows, Delete(id)), x) ==
              if x == id && x in rows && (rows[x].status == Completed || rows[x].status == Failed) then None
              else Entry(rows, x)
    ensures Entry(Exec(rows, Put(id, row)), x) == if x == id && x in rows then Some(row) else Entry(rows, x)
    ensures Entry(Exec(rows, Insert(id, row)), x) == if x == id && x !in rows then Some(row) else Entry(rows, x)
  {}

  function Entry(rows: Rows, id: string): Option<Row> { if id in rows then Some(rows[id]) else None }

  predicate FailedIn(rows: Rows, id: string) { id in rows && rows[id].status == Failed }

  predicate EndedIn(rows: Rows, id: string) {
    id in rows && (rows[id].status == Completed || rows[id].status == Failed)
  }

  /** One id of a bulk action succeeds exactly when its row is owned and in the right status
      both at the check and, after whatever others wrote, at the statement, and, for a
      retry, the queue takes the pipeline. */
  lemma BulkOneExactly(rows: Rows, id: string, owned: set<string>, t: Turn)
    ensures BulkOne(rows, id, owned, t, true).1 <==>
              id in owned && FailedIn(rows, id) && FailedIn(Replay(rows, t.first), id) && t.accepted
    ensures BulkOne(rows, id, owned, t, false).1 <==>
              id in owned && EndedIn(rows, id) && EndedIn(Replay(rows, t.first), id)
    ensures BulkOne(rows, id, owned, t, false).1 ==>
              BulkOne(rows, id, owned, t, false).0 == Replay(Replay(rows, t.first) - {id}, t.second)
  {}

  /** A retry the queue does not take leaves FAILED, from the reset snapshot; a lost claim
      leaves the table as the others made it. */
  lemma RetryOneExactly(rows: Rows, id: string, snapshot: Row, t: Turn)
    ensures var probed := Replay(rows, t.first);
            var (after, ok) := RetryOne(rows, id, snapshot, t);
            && (!FailedIn(probed, id) ==> after == probed && !ok)
            && (FailedIn(probed, id) ==>
                  var reset := probed[id].(status := Queued, error := None, progress := 0.0, message := "",
                                           resultPath := None, updatedAt := t.now);
                  var refused := snapshot.(status := Failed, error := Some("提交任務時發生錯誤，請稍後再試"),
                                           progress := 0.0, message := "", resultPath := None, updatedAt := t.now);
                  var later := Replay(probed[id := reset], t.second);
                  && ok == t.accepted
                  && (ok ==> after == later)
                  && (!ok ==> (forall x ::
                        Entry(after, x) == (if x == id && x in later then Some(refused) else Entry(later, x)))))
  {}

  predicate Quiet(turns: seq<Turn>) {
    forall i :: 0 <= i < |turns| ==> turns[i].first == [] && turns[i].second == [] && turns[i].accepted
  }

  /** Undisturbed, a bulk delete removes exactly the requested, owned and ended rows. */
  lemma {:induction false} QuietDeleteExactly(rows: Rows, ids: seq<string>, owned: set<string>, turns: seq<Turn>,
                                              k: nat)
    requires k <= |ids| == |turns| && Quiet(turns)
    ensures var (after, done) := BulkOf(rows, ids, owned, turns, false, k);
            && (forall x :: x in done <==> x in ids[..k] && x in owned && EndedIn(rows, x))
            && (forall x :: Entry(after, x) == if x in done then None else Entry(rows, x))
  {
    if k > 0 {
      QuietDeleteExactly(rows, ids, owned, turns, k - 1);
      var (now, done) := BulkOf(rows, ids, owned, turns, false, k - 1);
      assert ids[..k] == ids[..k - 1] + [ids[k - 1]];
      QuietDeleteOne(now, ids[k - 1], owned, turns[k - 1]);
      assert Entry(now, ids[k - 1]) == if ids[k - 1] in done then None else Entry(rows, ids[k - 1]);
    }
  }

  lemma QuietDeleteOne(rows: Rows, id: string, owned: set<string>, t: Turn)
    requires t.first == [] && t.second == []
    ensures var (after, ok) := BulkOne(rows, id, owned, t, false);
            && (ok <==> id in owned && EndedIn(rows, id))
            && (forall x :: Entry(after, x) == if ok && x == id then None else Entry(rows, x))
  {}

  /** Undisturbed, a bulk retry hands over exactly the requested, owned and FAILED jobs. */
  lemma {:induction false} QuietRetryExactly(rows: Rows, ids: seq<string>, owned: set<string>, turns: seq<Turn>,
                                             k: nat)
    requires k <= |ids| == |turns| && Quiet(turns)
    ensures var (after, done) := BulkOf(rows, ids, owned, turns, true, k);
            && (forall x :: x in done <==> x in ids[..k] && x in owned && FailedIn(rows, x))
            && (forall x :: x in done ==> x in after && after[x].status == Queued)
            && (forall x :: x !in done ==> Entry(after, x) == Entry(rows, x))
  {
    if k > 0 {
      QuietRetryExactly(rows, ids, owned, turns, k - 1);
      var (now, done) := BulkOf(rows, ids, owned, turns, true, k - 1);
      assert ids[..k] == ids[..k - 1] + [ids[k - 1]];
      QuietRetryOne(now, ids[k - 1], owned, turns[k - 1]);
      assert ids[k - 1] !in done ==> Entry(now, ids[k - 1]) == Entry(rows, ids[k - 1]);
    }
  }

  lemma QuietRetryOne(rows: Rows, id: string, owned: set<string>, t: Turn)
    requires t.first == [] && t.second == [] && t.accepted
    ensures var (after, ok) := BulkOne(rows, id, owned, t, true);
            && (ok <==> id in owned && FailedIn(rows, id))
            && (ok ==> id in after && after[id].status == Queued)
            && (forall x :: !ok || x != id ==> Entry(after, x) == Entry(rows, x))
  {}

  lemma OneMore(s: seq<string>, id: string)
    ensures forall x :: Occurrences(s + [id], x) == Occurrences(s, x) + if x == id then 1 else 0
  {
    assert (s + [id])[..|s|] == s;
  }

  class Table {
    var rows: Rows
    /** The jobs whose pipelines a retry has handed to the queue, in order. */
    var retried: seq<string>
    /** The jobs whose rows a delete has removed, in order. */
    var removed: seq<string>
    ghost const start: Rows
    ghost var log: seq<Write>

    /** The table is what its log made of it, nothing was re-enqueued without a claim
        of its own, and nothing reported as deleted without a delete of its own. */
    ghost predicate Valid()
      reads this
    {
      && rows == Replay(start, log)
      && (forall id :: Occurrences(retried, id) <= Claims(start, log, id))
      && (forall id :: Occurrences(removed, id) <= Deletions(start, log, id))
    }

    constructor (rows: Rows)
      ensures Valid() && this.rows == rows && start == rows && log == [] && retried == [] && removed == []
    {
      this.rows, start, log, retried, removed := rows, rows, [], [], [];
    }

    method Write(w: Write)
      requires Valid()
      modifies this`rows, this`log
      ensures Valid() && log == old(log) + [w] && rows == Exec(old(rows), w)
    {
      Snoc(start, log, w);
      rows := Exec(rows, w);
      log := log + [w];
    }

    /** An await: other requests, workers and the reaper write what they like. */
    method Await(others: seq<Write>)
      requires Valid()
      modifies this`rows, this`log
      ensures Valid() && log == old(log) + others && rows == Replay(old(rows), others)
    {
      More(start, log, others);
      rows := Replay(rows, others);
      log := log + others;
    }

    method TryClaimRetry(id: string, now: int) returns (claimed: bool)
      requires Valid()
      modifies this`rows, this`log
      ensures Valid() && log == old(log) + [Requeue(id, now)] && rows == Exec(old(rows), Requeue(id, now))
      ensures claimed <==> HasStatus(old(rows), id, Failed)
      ensures Claims(start, log, id) == Claims(start, old(log), id) + if claimed then 1 else 0
    {
      claimed := HasStatus(rows, id, Failed);
      Snoc(start, log, Requeue(id, now));
      Write(Requeue(id, now));
    }

    method DeleteTerminalJob(id: string) returns (deleted: bool)
      requires Valid()
      modifies this`rows, this`log
      ensures Valid() && log == old(log) + [Delete(id)] && rows == Exec(old(rows), Delete(id))
      ensures deleted <==> Deletable(old(rows), id)
      ensures Deletions(start, log, id) == Deletions(start, old(log), id) + if deleted then 1 else 0
    {
      deleted := Deletable(rows, id);
      Snoc(start, log, Delete(id));
      Write(Delete(id));
    }

    /** Hands the pipeline of a claimed job to the queue. */
    method Enqueued(id: string)
      requires Valid() && Occurrences(retried, id) < Claims(start, log, id)
      modifies this`retried
      ensures Valid() && retried == old(retried) + [id]
    {
      OneMore(retried, id);
      retried := retried + [id];
    }

    /** The claim decides; the loser of a race enqueues nothing. */
    method ResetAndEnqueueRetry(id: string, snapshot: Row, t: Turn) returns (ok: bool)
      requires Valid()
      modifies this
      ensures Valid() && removed == old(removed)
      ensures (rows, ok) == RetryOne(old(rows), id, snapshot, t)
      ensures retried == if ok then old(retried) + [id] else old(retried)
    {
      Await(t.first);
      var claimed := TryClaimRetry(id, t.now);
      if !claimed {
        return false;
      }
      var job := Fresh(t.now, snapshot);
      ghost var claims := log;
      Await(t.second);
      if !t.accepted {
        Write(Put(id, EnqueueFailed(job, t.now)));
        return false;
      }
      More(start, claims, t.second);
      Enqueued(id);
      return true;
    }

    method Removed(id: string)
      requires Valid() && Occurrences(removed, id) < Deletions(start, log, id)
      modifies this`removed
      ensures Valid() && removed == old(removed) + [id]
    {
      OneMore(removed, id);
      removed := removed + [id];
    }

    /** The row first, then (at an await) the files. */
    method DeleteAndReclaim(id: string, t: Turn) returns (ok: bool)
      requires Valid()
      modifies this
      ensures Valid() && retried == old(retried)
      ensures (rows, ok) == DeleteOne(old(rows), id, t)
      ensures removed == if ok then old(removed) + [id] else old(removed)
    {
      Await(t.first);
      var deleted := DeleteTerminalJob(id);
      if !deleted {
        return false;
      }
      Removed(id);
      Await(t.second);
      return true;
    }

    /** The bulk route: every id ends up in exactly one of the two counts. */
    method BulkRetry(ids: seq<string>, owned: set<string>, turns: seq<Turn>) returns (succeeded: nat, failed: nat)
      requires Valid() && |turns| == |ids|
      modifies this
      ensures Valid() && removed == old(removed)
      ensures var (after, done) := BulkOf(old(rows), ids, owned, turns, true, |ids|);
              rows == after && retried == old(retried) + done && succeeded == |done| && failed == |ids| - |done|
    {
      succeeded, failed := 0, 0;
      ghost var done: seq<string> := [];
      for i := 0 to |ids|
        invariant Valid() && removed == old(removed)
        invariant (rows, done) == BulkOf(old(rows), ids, owned, turns, true, i)
        invariant retried == old(retried) + done && succeeded == |done| && failed == i - |done|
      {
        var ok := TryRetry(ids[i], owned, turns[i]);
        if ok {
          done := done + [ids[i]];
          succeeded := succeeded + 1;
        } else {
          failed := failed + 1;
        }
      }
    }

    method TryRetry(id: string, owned: set<string>, t: Turn) returns (ok: bool)
      requires Valid()
      modifies this
      ensures Valid() && removed == old(removed)
      ensures (rows, ok) == BulkOne(old(rows), id, owned, t, true)
      ensures retried == if ok then old(retried) + [id] else old(retried)
    {
      if id !in rows || id !in owned {
        return false;
      }
      if rows[id].status != Failed {
        return false;
      }
      ok := ResetAndEnqueueRetry(id, rows[id], t);
    }

    method BulkDelete(ids: seq<string>, owned: set<string>, turns: seq<Turn>) returns (succeeded: nat, failed: nat)
      requires Valid() && |turns| == |ids|
      modifies this
      ensures Valid() && retried == old(retried)
      ensures var (after, done) := BulkOf(old(rows), ids, owned, turns, false, |ids|);
              rows == after && removed == old(removed) + done && succeeded == |done| && failed == |ids| - |done|
    {
      succeeded, failed := 0, 0;
      ghost var done: seq<string> := [];
      for i := 0 to |ids|
        invariant Valid() && retried == old(retried)
        invariant (rows, done) == BulkOf(old(rows), ids, owned, turns, false, i)
        invariant removed == old(removed) + done && succeeded == |done| && failed == i - |done|
      {
        var deleted := TryDelete(ids[i], owned, turns[i]);
        if deleted {
          done := done + [ids[i]];
          succeeded := succeeded + 1;
        } else {
          failed := failed + 1;
        }
      }
    }

    method TryDelete(id: string, owned: set<string>, t: Turn) returns (ok: bool)
      requires Valid()
      modifies this
      ensures Valid() && retried == old(retried)
      ensures (rows, ok) == BulkOne(old(rows), id, owned, t, false)
      ensures removed == if ok then old(removed) + [id] else old(removed)
    {
      if id !in rows || id !in owned {
        return false;
      }
      if !Terminal(rows[id].status) {
        return false;
      }
      ok := DeleteAndReclaim(id, t);
    }

    /** The batch retry works from rows read before the first await. */
    method RetryBatch(listed: seq<(string, Row)>, turns: seq<Turn>) returns (count: nat)
      requires Valid() && |turns| == |listed|
      modifies this
      ensures Valid() && removed == old(removed)
      ensures var (after, done) := BatchOf(old(rows), listed, turns, |listed|);
              rows == after && retried == old(retried) + done && count == |done|
    {
      count := 0;
      ghost var done: seq<string> := [];
      for i := 0 to |listed|
        invariant Valid() && removed == old(removed)
        invariant (rows, done) == BatchOf(old(rows), listed, turns, i)
        invariant retried == old(retried) + done && count == |done|
      {
        var ok := RetryListed(listed[i].0, listed[i].1, turns[i]);
        if ok {
          done := done + [listed[i].0];
          count := count + 1;
        }
      }
    }

    method RetryListed(id: string, listed: Row, t: Turn) returns (ok: bool)
      requires Valid()
      modifies this
      ensures Valid() && removed == old(removed)
      ensures (rows, ok) == BatchOne(old(rows), id, listed, t)
      ensures retried == if ok then old(retried) + [id] else old(retried)
    {
      if listed.status != Failed {
        return false;
      }
      ok := ResetAndEnqueueRetry(id, listed, t);
    }
  }

  /** A bulk action succeeds only on ids of the request that the user owns, whatever
      stands between its check and its statement. */
  lemma {:induction false} BulkSucceedsOnOwned(rows: Rows, ids: seq<string>, owned: set<string>, turns: seq<Turn>,
                                               retry: bool, k: nat, id: string)
    requires k <= |ids| == |turns| && id in BulkOf(rows, ids, owned, turns, retry, k).1
    ensures id in ids && id in owned
  {
    if id in BulkOf(rows, ids, owned, turns, retry, k - 1).1 {
      BulkSucceedsOnOwned(rows, ids, owned, turns, retry, k - 1, id);
    }
  }

  /** Pipelines re-enqueued by this process, for any job, never outnumber the times
      the row entered FAILED, whatever all other processes write. */
  lemma RetriesNeedFailures(t: Table, id: string)
    requires t.Valid()
    ensures Occurrences(t.retried, id) <= Failures(t.start, t.log, id)
  {
    ClaimsNeedFailures(t.start, t.log, id);
  }

  lemma {:induction false} DeletionHappened(rows: Rows, log: seq<Write>, id: string) returns (k: nat)
    requires Deletions(rows, log, id) > 0
    ensures k < |log| && log[k] == Delete(id) && Deletable(Replay(rows, log[..k]), id)
  {
    var last := |log| - 1;
    if Deletions(rows, log[..last], id) > 0 {
      k := DeletionHappened(rows, log[..last], id);
      assert log[..last][..k] == log[..k];
    } else {
      k := last;
    }
  }

  lemma {:induction false} Occurs(s: seq<string>, id: string)
    requires id in s
    ensures Occurrences(s, id) > 0
  {
    if s[|s| - 1] != id {
      assert s == s[..|s| - 1] + [s[|s| - 1]];
      Occurs(s[..|s| - 1], id);
    }
  }

  /** Every job reported as deleted had its row removed by a delete that found it terminal
      at that moment. */
  lemma RemovedWasDeleted(t: Table, id: string) returns (k: nat)
    requires t.Valid() && id in t.removed
    ensures k < |t.log| && t.log[k] == Delete(id) && Deletable(Replay(t.start, t.log[..k]), id)
  {
    Occurs(t.removed, id);
    k := DeletionHappened(t.start, t.log, id);
  }
}
