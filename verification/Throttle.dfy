/** The throttled progress reporter: what it writes, in which order, and an
    amortised bound on how often. Progress and time are reals. */
module Throttle {
  import opened Common
  import opened RedisStore

  /** The mutable fields of one reporter instance. */
  datatype Memory = Memory(lastProgress: real, lastWrittenAt: real, lastMessage: string)

  const FRESH := Memory(-1.0, 0.0, "")

  datatype Config = Config(minDelta: real, minInterval: real)

  /** A call, and whether Redis lets it through (DEGRADED counts as let through). */
  datatype Call = Call(progress: real, message: string, now: real, rejected: bool)

  predicate Regresses(m: Memory, c: Call) {
    m.lastProgress >= 0.0 && c.progress < m.lastProgress
  }

  predicate Forced(m: Memory, c: Call) {
    m.lastProgress < 0.0 || c.message != m.lastMessage || c.progress >= 1.0
  }

  predicate Throttled(cfg: Config, m: Memory, c: Call) {
    !Forced(m, c)
    && c.progress - m.lastProgress < cfg.minDelta
    && c.now - m.lastWrittenAt < cfg.minInterval
  }

  /** The call reaches Redis. */
  predicate Attempts(cfg: Config, m: Memory, c: Call) {
    !Regresses(m, c) && !Throttled(cfg, m, c)
  }

  predicate IsWritten(cfg: Config, m: Memory, c: Call) {
    Attempts(cfg, m, c) && !c.rejected
  }

  function Step(cfg: Config, m: Memory, c: Call): Memory {
    if IsWritten(cfg, m, c) then Memory(c.progress, c.now, c.message) else m
  }

  /** Why each write happened, by the first reason that applies. */
  datatype Tally = Tally(first: nat, afterNegative: nat, message: nat, complete: nat, delta: nat, interval: nat) {
    function Total(): nat {
      first + afterNegative + message + complete + delta + interval
    }
  }

  datatype Reason = First | AfterNegative | NewMessage | Complete | Delta | Interval

  function Why(cfg: Config, m: Memory, first: bool, c: Call): Reason {
    if first then First
    else if m.lastProgress < 0.0 then AfterNegative
    else if c.message != m.lastMessage then NewMessage
    else if c.progress >= 1.0 then Complete
    else if c.progress - m.lastProgress >= cfg.minDelta then Delta
    else Interval
  }

  function Count(t: Tally, why: Reason): Tally {
    match why
    case First => t.(first := t.first + 1)
    case AfterNegative => t.(afterNegative := t.afterNegative + 1)
    case NewMessage => t.(message := t.message + 1)
    case Complete => t.(complete := t.complete + 1)
    case Delta => t.(delta := t.delta + 1)
    case Interval => t.(interval := t.interval + 1)
  }

  /** A whole history of calls: the reporter's memory, the calls that were written,
      why, and what the calls themselves contained: how many were below zero, how
      many at 1.0 or above, and how often the message changed from one to the next. */
  datatype Ledger = Ledger(memory: Memory, written: seq<Call>, tally: Tally,
                           negative: nat, complete: nat, changes: nat, newest: Option<Call>)

  const EMPTY := Ledger(FRESH, [], Tally(0, 0, 0, 0, 0, 0), 0, 0, 0, None)

  function Advance(cfg: Config, l: Ledger, c: Call): Ledger {
    Ledger(Step(cfg, l.memory, c),
           l.written + (if IsWritten(cfg, l.memory, c) then [c] else []),
           (if IsWritten(cfg, l.memory, c) then Count(l.tally, Why(cfg, l.memory, l.written == [], c)) else l.tally),
           l.negative + (if c.progress < 0.0 then 1 else 0),
           l.complete + (if c.progress >= 1.0 then 1 else 0),
           l.changes + (if l.newest.Some? && l.newest.value.message != c.message then 1 else 0),
           Some(c))
  }

  function After(cfg: Config, calls: seq<Call>): Ledger {
    if calls == [] then EMPTY
    else Advance(cfg, After(cfg, calls[..|calls| - 1]), calls[|calls| - 1])
  }

  class ThrottledReporter {
    const cfg: Config
    var lastProgress: real
    var lastWrittenAt: real
    var lastMessage: string
    var jobProgress: real
    var jobMessage: string

    ghost function View(): Memory
      reads this
    {
      Memory(lastProgress, lastWrittenAt, lastMessage)
    }

    constructor (cfg: Config, jobProgress: real, jobMessage: string)
      ensures this.cfg == cfg && View() == FRESH
      ensures this.jobProgress == jobProgress && this.jobMessage == jobMessage
    {
      this.cfg := cfg;
      lastProgress, lastWrittenAt, lastMessage := -1.0, 0.0, "";
      this.jobProgress, this.jobMessage := jobProgress, jobMessage;
    }

    /** `__call__`. `outcome` is what Redis would answer; `mirrored` tells whether the
        Job object and its row were touched. */
    method Report(progress: real, message: string, now: real, outcome: ProgressWriteOutcome)
      returns (mirrored: bool)
      modifies this
      ensures var c := Call(progress, message, now, outcome == Rejected);
              && mirrored == IsWritten(cfg, old(View()), c)
              && View() == Step(cfg, old(View()), c)
      ensures mirrored ==> jobProgress == progress && jobMessage == message
      ensures !mirrored ==> jobProgress == old(jobProgress) && jobMessage == old(jobMessage)
    {
      if lastProgress >= 0.0 && progress < lastProgress {
        return false;
      }
      var force := lastProgress < 0.0 || message != lastMessage || progress >= 1.0;
      if !force {
        var delta := progress - lastProgress;
        if delta < cfg.minDelta && now - lastWrittenAt < cfg.minInterval {
          return false;
        }
      }
      if outcome == Rejected {
        return false;
      }
      jobProgress := progress;
      jobMessage := message;
      lastProgress := progress;
      lastWrittenAt := now;
      lastMessage := message;
      return true;
    }
  }

  /* ---------------- no rewinds ---------------- */

  predicate MemoryIsLastWrite(l: Ledger) {
    l.memory == if l.written == [] then FRESH
                else var w := l.written[|l.written| - 1]; Memory(w.progress, w.now, w.message)
  }

  predicate NoRewind(written: seq<Call>) {
    forall i, j :: 0 <= i <= j < |written| && written[i].progress >= 0.0
                   ==> written[i].progress <= written[j].progress
  }

  /** After a non-negative value has been written, no lower one ever is. */
  lemma {:induction false} WrittenNeverRewinds(cfg: Config, calls: seq<Call>)
    ensures NoRewind(After(cfg, calls).written) && MemoryIsLastWrite(After(cfg, calls))
  {
    if calls != [] {
      var front := calls[..|calls| - 1];
      WrittenNeverRewinds(cfg, front);
      RewindStep(cfg, After(cfg, front), calls[|calls| - 1]);
    }
  }

  lemma RewindStep(cfg: Config, l: Ledger, c: Call)
    requires NoRewind(l.written) && MemoryIsLastWrite(l)
    ensures NoRewind(Advance(cfg, l, c).written) && MemoryIsLastWrite(Advance(cfg, l, c))
  {
    if IsWritten(cfg, l.memory, c) {
      WrittenSnoc(l.written, c);
    } else {
      assert Advance(cfg, l, c).written == l.written;
    }
  }

  lemma WrittenSnoc(written: seq<Call>, c: Call)
    requires NoRewind(written)
    requires written != [] && written[|written| - 1].progress >= 0.0 ==> written[|written| - 1].progress <= c.progress
    ensures NoRewind(written + [c])
  {
    var last := |written| - 1;
    forall i | 0 <= i <= last && written[i].progress >= 0.0
      ensures written[i].progress <= c.progress
    {
      assert written[i].progress <= written[last].progress;
    }
  }

  /** A call that has to be written after these writes: it is let through and does not fall
      below the last of them, and it is the first, follows a negative one, changes the
      message, completes, gains minDelta, or comes minInterval later. */
  predicate Due(cfg: Config, before: seq<Call>, c: Call) {
    !c.rejected &&
    (before != [] ==>
       var w := before[|before| - 1];
       w.progress < 0.0
       || (c.progress >= w.progress
           && (c.message != w.message || c.progress >= 1.0
               || c.progress - w.progress >= cfg.minDelta || c.now - w.now >= cfg.minInterval)))
  }

  lemma AdvanceWritesWhatIsDue(cfg: Config, l: Ledger, c: Call)
    requires MemoryIsLastWrite(l)
    ensures Advance(cfg, l, c).written == if Due(cfg, l.written, c) then l.written + [c] else l.written
  {}

  /** After any calls, the next one is written exactly when it is due. */
  lemma WrittenExactlyWhenDue(cfg: Config, calls: seq<Call>, c: Call)
    ensures var before := After(cfg, calls).written;
            After(cfg, calls + [c]).written == if Due(cfg, before, c) then before + [c] else before
  {
    assert (calls + [c])[..|calls|] == calls;
    WrittenNeverRewinds(cfg, calls);
    AdvanceWritesWhatIsDue(cfg, After(cfg, calls), c);
  }

  /** In particular completion is never swallowed. */
  lemma CompletionIsWritten(cfg: Config, calls: seq<Call>, c: Call)
    requires c.progress == 1.0 && !c.rejected
    requires forall k :: 0 <= k < |calls| ==> calls[k].progress <= 1.0
    ensures After(cfg, calls + [c]).written == After(cfg, calls).written + [c]
  {
    WrittenExactlyWhenDue(cfg, calls, c);
    WrittenStayBelow(cfg, calls, 1.0);
  }

  lemma {:induction false} WrittenStayBelow(cfg: Config, calls: seq<Call>, bound: real)
    requires forall k :: 0 <= k < |calls| ==> calls[k].progress <= bound
    ensures forall k :: 0 <= k < |After(cfg, calls).written| ==> After(cfg, calls).written[k].progress <= bound
  {
    if calls != [] { WrittenStayBelow(cfg, calls[..|calls| - 1], bound); }
  }

  /* ---------------- the write bound ---------------- */

  /** `time.monotonic` never goes back. */
  predicate ClockRuns(calls: seq<Call>) {
    forall i, j :: 0 <= i <= j < |calls| ==> calls[i].now <= calls[j].now
  }

  function Level(progress: real): real {
    if progress < 0.0 then 0.0 else progress
  }

  function Units(n: nat, unit: real): real {
    if n == 0 then 0.0 else Units(n - 1, unit) + unit
  }

  /** The potential: each kind of write is paid for by something that happened in
      the calls, with one unit of credit kept while the newest message is unwritten
      and one while the last written value is negative. */
  predicate PaidFor(l: Ledger) {
    && l.tally.first <= 1 && l.tally.complete <= l.complete
    && l.tally.afterNegative + (if l.written != [] && l.memory.lastProgress < 0.0 then 1 else 0) <= l.negative
    && (l.written == [] ==> l.tally == EMPTY.tally && l.memory == FRESH)
    && (l.written != [] ==>
          && l.newest.Some?
          && l.tally.message + (if l.newest.value.message != l.memory.lastMessage then 1 else 0) <= l.changes)
  }

  /** The delta writes share out the progress gained, the interval writes the time. */
  predicate TimePaid(cfg: Config, l: Ledger) {
    l.written != [] ==>
      && Units(l.tally.delta, cfg.minDelta) <= Level(l.memory.lastProgress) - Level(l.written[0].progress)
      && Units(l.tally.interval, cfg.minInterval) <= l.memory.lastWrittenAt - l.written[0].now
      && l.newest.Some? && l.memory.lastWrittenAt <= l.newest.value.now
  }

  /** The ledger after a call that was written, for the reason `why`. */
  predicate Wrote(l: Ledger, l': Ledger, c: Call, why: Reason) {
    && l'.memory == Memory(c.progress, c.now, c.message)
    && l'.written == l.written + [c]
    && l'.tally == Count(l.tally, why)
    && l'.newest == Some(c)
  }

  lemma PaidForWrite(cfg: Config, l: Ledger, l': Ledger, c: Call, why: Reason)
    requires PaidFor(l) && l' == Advance(cfg, l, c) && Wrote(l, l', c, why)
    requires why == Why(cfg, l.memory, l.written == [], c) && !Regresses(l.memory, c)
    ensures PaidFor(l')
  {
  }

  lemma PaidForStep(cfg: Config, l: Ledger, c: Call)
    requires PaidFor(l)
    ensures PaidFor(Advance(cfg, l, c))
  {
    var l' := Advance(cfg, l, c);
    if IsWritten(cfg, l.memory, c) {
      PaidForWrite(cfg, l, l', c, Why(cfg, l.memory, l.written == [], c));
    } else {
      assert l'.written == l.written && l'.tally == l.tally && l'.memory == l.memory;
    }
  }

  lemma TimePaidStep(cfg: Config, l: Ledger, c: Call)
    requires PaidFor(l) && TimePaid(cfg, l) && (l.newest.Some? ==> l.newest.value.now <= c.now)
    ensures TimePaid(cfg, Advance(cfg, l, c))
  {
    var l' := Advance(cfg, l, c);
    if IsWritten(cfg, l.memory, c) {
      TimePaidWrite(cfg, l, l', c, Why(cfg, l.memory, l.written == [], c));
    } else {
      assert l'.written == l.written && l'.tally == l.tally && l'.memory == l.memory;
    }
  }

  lemma TimePaidWrite(cfg: Config, l: Ledger, l': Ledger, c: Call, why: Reason)
    requires PaidFor(l) && TimePaid(cfg, l) && Wrote(l, l', c, why)
    requires l.newest.Some? ==> l.newest.value.now <= c.now
    requires why == Why(cfg, l.memory, l.written == [], c)
    requires !Regresses(l.memory, c) && !Throttled(cfg, l.memory, c)
    ensures TimePaid(cfg, l')
  {
    if l.written == [] {
      assert l'.written[0] == c;
    } else {
      assert l'.written[0] == l.written[0];
    }
  }

  lemma CountAddsOne(t: Tally, why: Reason)
    ensures Count(t, why).Total() == t.Total() + 1
  {
  }

  /** The tally accounts for every write. */
  lemma {:induction false} TallyIsComplete(cfg: Config, calls: seq<Call>)
    ensures After(cfg, calls).tally.Total() == |After(cfg, calls).written|
  {
    if calls != [] {
      var l, c := After(cfg, calls[..|calls| - 1]), calls[|calls| - 1];
      TallyIsComplete(cfg, calls[..|calls| - 1]);
      CountAddsOne(l.tally, Why(cfg, l.memory, l.written == [], c));
    }
  }

  lemma {:induction false} EveryWriteIsPaidFor(cfg: Config, calls: seq<Call>)
    requires ClockRuns(calls)
    ensures PaidFor(After(cfg, calls)) && TimePaid(cfg, After(cfg, calls))
    ensures After(cfg, calls).newest == if calls == [] then None else Some(calls[|calls| - 1])
  {
    if calls != [] {
      EveryWriteIsPaidFor(cfg, calls[..|calls| - 1]);
      PaidForStep(cfg, After(cfg, calls[..|calls| - 1]), calls[|calls| - 1]);
      TimePaidStep(cfg, After(cfg, calls[..|calls| - 1]), calls[|calls| - 1]);
    }
  }

  lemma {:induction false} UnitsIsProduct(n: nat, unit: real)
    ensures Units(n, unit) == n as real * unit
  {
    if n > 0 {
      UnitsIsProduct(n - 1, unit);
      assert n as real * unit == (n - 1) as real * unit + unit;
    }
  }

  lemma DivideBoth(x: real, unit: real, total: real)
    requires unit > 0.0 && x * unit <= total
    ensures x <= total / unit
  {
    var q := total / unit;
    assert q * unit == total;
    if q < x {
      assert (x - q) * unit > 0.0;
    }
  }

  lemma QuotientBound(n: nat, unit: real, total: real)
    requires unit > 0.0 && Units(n, unit) <= total
    ensures n <= (total / unit).Floor
  {
    UnitsIsProduct(n, unit);
    DivideBoth(n as real, unit, total);
  }

  function Gained(w: seq<Call>): real
    requires w != []
  {
    Level(w[|w| - 1].progress) - Level(w[0].progress)
  }

  function Elapsed(w: seq<Call>): real
    requires w != []
  {
    w[|w| - 1].now - w[0].now
  }

  /** The calls, by position, that are below zero, that complete, and whose message is not
      that of the call before. */
  function BelowZero(calls: seq<Call>): set<int> { set i | 0 <= i < |calls| && calls[i].progress < 0.0 }

  function Completing(calls: seq<Call>): set<int> { set i | 0 <= i < |calls| && calls[i].progress >= 1.0 }

  predicate ChangesAt(calls: seq<Call>, i: int) { 1 <= i < |calls| && calls[i].message != calls[i - 1].message }

  function Changing(calls: seq<Call>): set<int> { set i | 1 <= i < |calls| && ChangesAt(calls, i) }

  lemma BelowZeroSnoc(calls: seq<Call>, c: Call)
    ensures |BelowZero(calls + [c])| == |BelowZero(calls)| + if c.progress < 0.0 then 1 else 0
  {
    assert BelowZero(calls + [c]) == BelowZero(calls) + if c.progress < 0.0 then {|calls|} else {};
  }

  lemma CompletingSnoc(calls: seq<Call>, c: Call)
    ensures |Completing(calls + [c])| == |Completing(calls)| + if c.progress >= 1.0 then 1 else 0
  {
    assert Completing(calls + [c]) == Completing(calls) + if c.progress >= 1.0 then {|calls|} else {};
  }

  lemma ChangingSnoc(calls: seq<Call>, c: Call)
    ensures |Changing(calls + [c])| == |Changing(calls)|
              + if calls != [] && calls[|calls| - 1].message != c.message then 1 else 0
  {
    var k, all := |calls|, calls + [c];
    forall i ensures i in Changing(all) <==> i in Changing(calls) || (i == k && ChangesAt(all, k)) {
      if i < k { assert ChangesAt(all, i) <==> ChangesAt(calls, i); }
    }
    assert Changing(all) == Changing(calls) + if ChangesAt(all, k) then {k} else {};
  }

  /** The ledger counts them. */
  lemma {:induction false} LedgerCounts(cfg: Config, calls: seq<Call>)
    ensures var l := After(cfg, calls);
            && l.negative == |BelowZero(calls)| && l.complete == |Completing(calls)| && l.changes == |Changing(calls)|
            && l.newest == if calls == [] then None else Some(calls[|calls| - 1])
  {
    if calls != [] {
      var front, c := calls[..|calls| - 1], calls[|calls| - 1];
      assert calls == front + [c];
      LedgerCounts(cfg, front);
      BelowZeroSnoc(front, c);
      CompletingSnoc(front, c);
      ChangingSnoc(front, c);
    }
  }

  /** Writes number at most one, plus the calls below zero, plus the message changes,
      plus the calls at 1.0 or above, plus the progress gained in units of minDelta,
      plus the time elapsed in units of minInterval. */
  lemma WriteBound(cfg: Config, calls: seq<Call>)
    requires cfg.minDelta > 0.0 && cfg.minInterval > 0.0 && ClockRuns(calls)
    requires After(cfg, calls).written != []
    ensures var l := After(cfg, calls);
            |l.written| <= 1 + l.negative + l.changes + l.complete
                           + (Gained(l.written) / cfg.minDelta).Floor
                           + (Elapsed(l.written) / cfg.minInterval).Floor
  {
    EveryWriteIsPaidFor(cfg, calls);
    WrittenNeverRewinds(cfg, calls);
    TallyIsComplete(cfg, calls);
    var l := After(cfg, calls);
    QuotientBound(l.tally.delta, cfg.minDelta, Gained(l.written));
    QuotientBound(l.tally.interval, cfg.minInterval, Elapsed(l.written));
  }

  /** Calls below zero are never throttled: the reporter stays in its first-call state,
      and k of them that Redis lets through are k writes. */
  lemma {:induction false} NegativeCallsAreAllWritten(cfg: Config, calls: seq<Call>)
    requires forall k :: 0 <= k < |calls| ==> calls[k].progress < 0.0 && !calls[k].rejected
    ensures After(cfg, calls).written == calls && After(cfg, calls).memory.lastProgress < 0.0
  {
    if calls != [] {
      NegativeCallsAreAllWritten(cfg, calls[..|calls| - 1]);
      assert calls == calls[..|calls| - 1] + [calls[|calls| - 1]];
    }
  }

  /** The bound is about writes that land. A fresh reporter whose every report is
      refused as stale never throttles: each call goes to Redis. */
  lemma {:induction false} RefusedReporterIsNotThrottled(cfg: Config, calls: seq<Call>, c: Call)
    requires forall k :: 0 <= k < |calls| ==> calls[k].rejected
    ensures Attempts(cfg, After(cfg, calls).memory, c)
  {
    NothingLands(cfg, calls);
  }

  lemma {:induction false} NothingLands(cfg: Config, calls: seq<Call>)
    requires forall k :: 0 <= k < |calls| ==> calls[k].rejected
    ensures After(cfg, calls).memory == FRESH
  {
    if calls != [] { NothingLands(cfg, calls[..|calls| - 1]); }
  }
}
