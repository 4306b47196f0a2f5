/** The login rate limiter: two counters per failed login, each an INCR whose TTL is
    set by the first increment only. Time is an integer; attempts are handled one
    at a time. */
module RateLimit {
  import opened Common
  import opened Text

  /** A counter key with its expiry. Redis drops it at `expiresAt`; the model keeps
      the dead entry and never reads it. */
  datatype Window = Window(count: nat, expiresAt: int)

  datatype Config = Config(maxUser: int, maxIp: int, window: int)

  type Counters = map<string, Window>

  datatype Limits = Limits(users: Counters, ips: Counters)

  const NO_LIMITS := Limits(map[], map[])

  function Reading(counters: Counters, key: string, now: int): nat {
    if key in counters && now < counters[key].expiresAt then counters[key].count else 0
  }

  /** INCR followed by EXPIRE NX. */
  function Hit(counters: Counters, key: string, now: int, window: int): Counters {
    if key in counters && now < counters[key].expiresAt
    then counters[key := counters[key].(count := counters[key].count + 1)]
    else counters[key := Window(1, now + window)]
  }

  function UserKey(username: string): string { Lowered(username) }

  predicate Locked(cfg: Config, l: Limits, username: string, ip: string, now: int) {
    Reading(l.users, UserKey(username), now) >= cfg.maxUser || Reading(l.ips, ip, now) >= cfg.maxIp
  }

  function RecordFailure(cfg: Config, l: Limits, username: string, ip: string, now: int): Limits {
    Limits(Hit(l.users, UserKey(username), now, cfg.window), Hit(l.ips, ip, now, cfg.window))
  }

  class RateLimiter {
    const cfg: Config
    var users: Counters
    var ips: Counters

    ghost function View(): Limits
      reads this
    {
      Limits(users, ips)
    }

    constructor (cfg: Config)
      ensures this.cfg == cfg && View() == NO_LIMITS
    {
      this.cfg, users, ips := cfg, map[], map[];
    }

    /** Records a failure; an unreachable Redis fails open and records nothing. */
    method CheckAndIncrement(username: string, ip: string, now: int, available: bool) returns (blocked: bool)
      modifies this
      ensures !available ==> !blocked && View() == old(View())
      ensures available ==> View() == RecordFailure(cfg, old(View()), username, ip, now)
      ensures available && cfg.window > 0 ==> blocked == Locked(cfg, View(), username, ip, now)
    {
      if !available {
        return false;
      }
      var userCount := 0;
      var key := UserKey(username);
      users, userCount := Increment(users, key, now);
      var ipCount := 0;
      ips, ipCount := Increment(ips, ip, now);
      blocked := userCount >= cfg.maxUser || ipCount >= cfg.maxIp;
    }

    method Increment(counters: Counters, key: string, now: int) returns (r: Counters, count: nat)
      ensures r == Hit(counters, key, now, cfg.window) && count == r[key].count
    {
      if key in counters && now < counters[key].expiresAt {
        count := counters[key].count + 1;
        r := counters[key := Window(count, counters[key].expiresAt)];
      } else {
        count := 1;
        r := counters[key := Window(1, now + cfg.window)];
      }
    }

    method IsLocked(username: string, ip: string, now: int, available: bool) returns (locked: bool)
      ensures locked <==> available && Locked(cfg, View(), username, ip, now)
    {
      if !available {
        return false;
      }
      var userCount := Reading(users, UserKey(username), now);
      var ipCount := Reading(ips, ip, now);
      return userCount >= cfg.maxUser || ipCount >= cfg.maxIp;
    }

    /** Clears the per-user counter; an outage is swallowed and clears nothing. */
    method ResetUser(username: string, available: bool)
      modifies this`users
      ensures View() == if available then old(View()).(users := old(users) - {UserKey(username)}) else old(View())
    {
      if !available {
        return;
      }
      users := users - {UserKey(username)};
    }
  }

  /* ---------------- login attempts ---------------- */

  /** How the password check would end; the failing cases record the name the row
      (or, for an unknown user, the form) carries. */
  datatype Outcome = UnknownUser | WrongPassword(stored: string) | Inactive | Success(stored: string)

  datatype Attempt = Attempt(now: int, username: string, ip: string, outcome: Outcome)

  predicate Records(cfg: Config, l: Limits, a: Attempt) {
    !Locked(cfg, l, a.username, a.ip, a.now) && (a.outcome.UnknownUser? || a.outcome.WrongPassword?)
  }

  function Recorded(cfg: Config, l: Limits, a: Attempt, ip: string): seq<int> {
    if a.ip == ip && Records(cfg, l, a) then [a.now] else []
  }

  /** `login_submit` as far as the counters are concerned. */
  function Login(cfg: Config, l: Limits, a: Attempt): Limits {
    if Locked(cfg, l, a.username, a.ip, a.now) then l
    else
      match a.outcome
      case UnknownUser => RecordFailure(cfg, l, a.username, a.ip, a.now)
      case WrongPassword(stored) => RecordFailure(cfg, l, stored, a.ip, a.now)
      case Inactive => l
      case Success(stored) => l.(users := l.users - {UserKey(stored)})
  }

  /** A counter that is still running, and what one more failure makes of it. */
  function Running(counters: Counters, key: string, now: int): nat {
    if key in counters && counters[key].expiresAt > now then counters[key].count else 0
  }

  predicate CountedUp(before: Counters, after: Counters, key: string, now: int, window: int) {
    && key in after && after.Keys == before.Keys + {key}
    && after[key] == Window(Running(before, key, now) + 1,
                            if Running(before, key, now) > 0 then before[key].expiresAt else now + window)
    && forall other :: other in before && other != key ==> after[other] == before[other]
  }

  predicate PositiveCounts(counters: Counters) {
    forall key :: key in counters ==> counters[key].count > 0
  }

  /** An attempt is let through exactly while both of its counters stand below their limits;
      then a failure counts both up, under the name it is recorded for, and a success clears
      the account. A refused attempt, and one on a deactivated account, changes nothing. */
  lemma AttemptExactly(cfg: Config, l: Limits, a: Attempt)
    requires PositiveCounts(l.users) && PositiveCounts(l.ips)
    ensures var m := Login(cfg, l, a);
            var open := Running(l.users, Lowered(a.username), a.now) < cfg.maxUser
                        && Running(l.ips, a.ip, a.now) < cfg.maxIp;
            && (!open || a.outcome.Inactive? ==> m == l)
            && (open && a.outcome.UnknownUser? ==>
                  CountedUp(l.users, m.users, Lowered(a.username), a.now, cfg.window)
                  && CountedUp(l.ips, m.ips, a.ip, a.now, cfg.window))
            && (open && a.outcome.WrongPassword? ==>
                  CountedUp(l.users, m.users, Lowered(a.outcome.stored), a.now, cfg.window)
                  && CountedUp(l.ips, m.ips, a.ip, a.now, cfg.window))
            && (open && a.outcome.Success? ==>
                  m.ips == l.ips && m.users.Keys == l.users.Keys - {Lowered(a.outcome.stored)}
                  && forall key :: key in m.users ==> m.users[key] == l.users[key])
    ensures PositiveCounts(Login(cfg, l, a).users) && PositiveCounts(Login(cfg, l, a).ips)
  {}

  function After(cfg: Config, attempts: seq<Attempt>): Limits {
    if attempts == [] then NO_LIMITS
    else Login(cfg, After(cfg, attempts[..|attempts| - 1]), attempts[|attempts| - 1])
  }

  /** When failures were recorded for one IP. */
  function Failures(cfg: Config, attempts: seq<Attempt>, ip: string): seq<int> {
    if attempts == [] then []
    else
      var front, last := attempts[..|attempts| - 1], attempts[|attempts| - 1];
      Failures(cfg, front, ip)
      + Recorded(cfg, After(cfg, front), last, ip)
  }

  predicate InOrder(attempts: seq<Attempt>) {
    forall i, j :: 0 <= i <= j < |attempts| ==> attempts[i].now <= attempts[j].now
  }

  predicate Sorted(times: seq<int>) {
    forall i, j :: 0 <= i <= j < |times| ==> times[i] <= times[j]
  }

  /** Any 2 * max consecutive failures span at least one window. */
  predicate Spread(times: seq<int>, max: int, window: int) {
    forall i, j :: 0 <= i <= j < |times| && j - i >= 2 * max - 1 ==> times[j] - times[i] >= window
  }

  /** The counter describes the newest `count` failures, the first of which opened
      the window, and the failures before that window thin out in time. */
  predicate CounterDescribes(cfg: Config, ips: Counters, ip: string, times: seq<int>) {
    && Sorted(times)
    && (ip !in ips ==> times == [])
    && (ip in ips ==>
          var c, n := ips[ip].count, |times|;
          && 1 <= c <= cfg.maxIp && c <= n
          && ips[ip].expiresAt == times[n - c] + cfg.window
          && times[n - 1] < ips[ip].expiresAt
          && (n - c >= cfg.maxIp ==> times[n - c - cfg.maxIp] <= times[n - c] - cfg.window))
  }

  lemma HitKeeps(cfg: Config, ips: Counters, ip: string, times: seq<int>, now: int)
    requires cfg.maxIp >= 1 && cfg.window > 0
    requires CounterDescribes(cfg, ips, ip, times) && Spread(times, cfg.maxIp, cfg.window)
    requires Reading(ips, ip, now) < cfg.maxIp && (times != [] ==> times[|times| - 1] <= now)
    ensures CounterDescribes(cfg, Hit(ips, ip, now, cfg.window), ip, times + [now])
    ensures Spread(times + [now], cfg.maxIp, cfg.window)
  {
    var n := |times|;
    forall j | 0 <= j < n && n - j >= 2 * cfg.maxIp - 1
      ensures now - times[j] >= cfg.window
    {
      var c := ips[ip].count;
      if now < ips[ip].expiresAt {
        assert times[j] <= times[n - c - cfg.maxIp];
      } else {
        assert times[j] <= times[n - c];
      }
    }
  }

  /** An attempt touches the counter of its own IP, and only when it is recorded. */
  lemma LoginAndIps(cfg: Config, l: Limits, a: Attempt, ip: string)
    ensures a.ip == ip && Records(cfg, l, a) ==>
              Reading(l.ips, ip, a.now) < cfg.maxIp && Login(cfg, l, a).ips == Hit(l.ips, ip, a.now, cfg.window)
    ensures !(a.ip == ip && Records(cfg, l, a)) ==>
              (ip in Login(cfg, l, a).ips <==> ip in l.ips)
              && (ip in l.ips ==> Login(cfg, l, a).ips[ip] == l.ips[ip])
  {
  }

  lemma OneAttemptMore(cfg: Config, attempts: seq<Attempt>, i: nat, ip: string)
    requires i < |attempts|
    ensures var l, a := After(cfg, attempts[..i]), attempts[i];
            && After(cfg, attempts[..i + 1]) == Login(cfg, l, a)
            && Failures(cfg, attempts[..i + 1], ip) == Failures(cfg, attempts[..i], ip) + Recorded(cfg, l, a, ip)
  {
    assert attempts[..i + 1][..i] == attempts[..i];
  }

  /** The limits and the IP's failures after i attempts, and what is known about them. */
  predicate SpreadUpto(cfg: Config, attempts: seq<Attempt>, i: nat, ip: string, l: Limits, times: seq<int>)
    requires i <= |attempts|
  {
    && l == After(cfg, attempts[..i]) && times == Failures(cfg, attempts[..i], ip)
    && CounterDescribes(cfg, l.ips, ip, times) && Spread(times, cfg.maxIp, cfg.window)
    && (times != [] ==> i > 0 && times[|times| - 1] <= attempts[i - 1].now)
  }

  lemma SpreadStep(cfg: Config, attempts: seq<Attempt>, i: nat, ip: string, l: Limits, times: seq<int>)
    returns (next: Limits, more: seq<int>)
    requires cfg.maxIp >= 1 && cfg.window > 0 && InOrder(attempts) && i < |attempts|
    requires SpreadUpto(cfg, attempts, i, ip, l, times)
    ensures SpreadUpto(cfg, attempts, i + 1, ip, next, more)
  {
    OneAttemptMore(cfg, attempts, i, ip);
    SpreadKeeps(cfg, l, attempts[i], ip, times);
    next, more := Login(cfg, l, attempts[i]), times + Recorded(cfg, l, attempts[i], ip);
  }

  lemma FailuresAreSpread(cfg: Config, attempts: seq<Attempt>, ip: string)
    requires cfg.maxIp >= 1 && cfg.window > 0 && InOrder(attempts)
    ensures CounterDescribes(cfg, After(cfg, attempts).ips, ip, Failures(cfg, attempts, ip))
    ensures Spread(Failures(cfg, attempts, ip), cfg.maxIp, cfg.window)
  {
    var l, times := NO_LIMITS, [];
    for i := 0 to |attempts|
      invariant SpreadUpto(cfg, attempts, i, ip, l, times)
    {
      l, times := SpreadStep(cfg, attempts, i, ip, l, times);
    }
    assert attempts[..|attempts|] == attempts;
  }

  lemma SpreadKeeps(cfg: Config, l: Limits, a: Attempt, ip: string, times: seq<int>)
    requires cfg.maxIp >= 1 && cfg.window > 0
    requires CounterDescribes(cfg, l.ips, ip, times) && Spread(times, cfg.maxIp, cfg.window)
    requires times != [] ==> times[|times| - 1] <= a.now
    ensures var next := times + Recorded(cfg, l, a, ip);
            CounterDescribes(cfg, Login(cfg, l, a).ips, ip, next) && Spread(next, cfg.maxIp, cfg.window)
  {
    LoginAndIps(cfg, l, a, ip);
    if a.ip == ip && Records(cfg, l, a) {
      HitKeeps(cfg, l.ips, ip, times, a.now);
    } else {
      assert times + [] == times;
      SameCounter(cfg, l.ips, Login(cfg, l, a).ips, ip, times);
    }
  }

  lemma SameCounter(cfg: Config, ips: Counters, later: Counters, ip: string, times: seq<int>)
    requires CounterDescribes(cfg, ips, ip, times)
    requires (ip in later <==> ip in ips) && (ip in ips ==> later[ip] == ips[ip])
    ensures CounterDescribes(cfg, later, ip, times)
  {}

  function CountIn(times: seq<int>, from: int, to: int): nat {
    if times == [] then 0
    else CountIn(times[..|times| - 1], from, to) + (if from <= times[|times| - 1] < to then 1 else 0)
  }

  /** In a sorted list the hits are consecutive. */
  lemma {:induction false} HitsAreConsecutive(times: seq<int>, from: int, to: int) returns (lo: nat, hi: nat)
    requires Sorted(times)
    ensures lo <= hi <= |times| && CountIn(times, from, to) == hi - lo
    ensures lo < hi ==> from <= times[lo] && times[hi - 1] < to
    ensures hi < |times| && lo < hi ==> times[hi] >= to
  {
    if times == [] {
      return 0, 0;
    }
    var n := |times| - 1;
    lo, hi := HitsAreConsecutive(times[..n], from, to);
    if from <= times[n] < to {
      if lo == hi {
        lo, hi := n, n + 1;
      } else {
        assert hi == n;
        hi := n + 1;
      }
    }
  }

  /** The bound: no half-open interval as long as the window holds more than
      2 * max - 1 recorded failures of one IP. */
  lemma FailuresPerWindow(cfg: Config, attempts: seq<Attempt>, ip: string, from: int)
    requires cfg.window > 0 && InOrder(attempts)
    ensures CountIn(Failures(cfg, attempts, ip), from, from + cfg.window)
            <= if cfg.maxIp >= 1 then 2 * cfg.maxIp - 1 else 0
  {
    if cfg.maxIp >= 1 {
      FailuresAreSpread(cfg, attempts, ip);
      DescribedIsSparse(cfg, After(cfg, attempts).ips, ip, Failures(cfg, attempts, ip), from);
    } else {
      NothingRecorded(cfg, attempts, ip);
    }
  }

  lemma DescribedIsSparse(cfg: Config, ips: Counters, ip: string, times: seq<int>, from: int)
    requires cfg.maxIp >= 1 && cfg.window > 0
    requires CounterDescribes(cfg, ips, ip, times) && Spread(times, cfg.maxIp, cfg.window)
    ensures CountIn(times, from, from + cfg.window) <= 2 * cfg.maxIp - 1
  {
    SpreadIsSparse(times, cfg.maxIp, cfg.window, from);
  }

  lemma SpreadIsSparse(times: seq<int>, max: int, window: int, from: int)
    requires max >= 1 && window > 0 && Sorted(times) && Spread(times, max, window)
    ensures CountIn(times, from, from + window) <= 2 * max - 1
  {
    var lo, hi := HitsAreConsecutive(times, from, from + window);
  }

  lemma {:induction false} NothingRecorded(cfg: Config, attempts: seq<Attempt>, ip: string)
    requires cfg.maxIp <= 0 || cfg.maxUser <= 0
    ensures Failures(cfg, attempts, ip) == []
  {
    if attempts != [] { NothingRecorded(cfg, attempts[..|attempts| - 1], ip); }
  }

  /* ---------------- the bound is attained ---------------- */

  /** A name of that length. */
  function Name(length: nat): (name: string)
    ensures |name| == length
  {
    seq(length, i => 'a')
  }

  /** An attempt with a name nobody has, and nobody has tried. */
  function Miss(now: int, ip: string, used: nat): Attempt { Attempt(now, Name(used), ip, UnknownUser) }

  /** The IP's counter is w, and all names tried so far are shorter than `used`. */
  predicate Room(l: Limits, ip: string, w: Option<Window>, used: nat) {
    && w == (if ip in l.ips then Some(l.ips[ip]) else None)
    && forall name :: name in l.users ==> |name| < used
  }

  /** The counter after one more failure, as Hit leaves it. */
  function HitOf(w: Option<Window>, now: int, window: int): Window {
    if w.Some? && now < w.value.expiresAt then w.value.(count := w.value.count + 1) else Window(1, now + window)
  }

  lemma MissIsRecorded(cfg: Config, l: Limits, ip: string, w: Option<Window>, used: nat, now: int)
    requires cfg.maxUser >= 1 && cfg.maxIp >= 1 && Room(l, ip, w, used)
    requires w.Some? && now < w.value.expiresAt ==> w.value.count < cfg.maxIp
    ensures Records(cfg, l, Miss(now, ip, used))
    ensures Room(Login(cfg, l, Miss(now, ip, used)), ip, Some(HitOf(w, now, cfg.window)), used + 1)
  {
    assert |UserKey(Name(used))| == used;
  }

  lemma CountInSnoc(times: seq<int>, now: int, from: int, to: int)
    ensures CountIn(times + [now], from, to) == CountIn(times, from, to) + if from <= now < to then 1 else 0
  {
    assert (times + [now])[..|times|] == times;
  }

  /** The failures of one IP in the window that starts there. */
  function InWindow(cfg: Config, attempts: seq<Attempt>, ip: string, from: int): nat {
    CountIn(Failures(cfg, attempts, ip), from, from + cfg.window)
  }

  /** One failure opens a window, max - 1 come just before it closes, and max more right
      after: the time of the i-th. */
  function CrowdTime(cfg: Config, i: nat): int {
    if i == 0 then 0 else if i < cfg.maxIp then cfg.window - 1 else cfg.window
  }

  /** The IP's counter after n of them. */
  function CrowdWindow(cfg: Config, n: nat): Option<Window> {
    if n == 0 then None
    else if n <= cfg.maxIp then Some(Window(n, cfg.window))
    else Some(Window(n - cfg.maxIp, cfg.window + cfg.window))
  }

  lemma MissRoom(cfg: Config, attempts: seq<Attempt>, all: seq<Attempt>, ip: string, w: Option<Window>, used: nat,
                 now: int)
    requires all == attempts + [Miss(now, ip, used)]
    requires cfg.maxUser >= 1 && cfg.maxIp >= 1 && Room(After(cfg, attempts), ip, w, used)
    requires w.Some? && now < w.value.expiresAt ==> w.value.count < cfg.maxIp
    ensures Room(After(cfg, all), ip, Some(HitOf(w, now, cfg.window)), used + 1)
    ensures Failures(cfg, all, ip) == Failures(cfg, attempts, ip) + [now]
  {
    assert all[..|attempts|] == attempts;
    MissIsRecorded(cfg, After(cfg, attempts), ip, w, used, now);
  }

  lemma NextCrowdWindow(cfg: Config, n: nat)
    requires cfg.maxIp >= 1 && cfg.window >= 2 && n < 2 * cfg.maxIp
    ensures var w, now := CrowdWindow(cfg, n), CrowdTime(cfg, n);
            && (w.Some? && now < w.value.expiresAt ==> w.value.count < cfg.maxIp)
            && Some(HitOf(w, now, cfg.window)) == CrowdWindow(cfg, n + 1)
  {}

  /** When they fail: all of them do. */
  function CrowdTimes(cfg: Config, n: nat): seq<int> {
    if n == 0 then [] else CrowdTimes(cfg, n - 1) + [CrowdTime(cfg, n - 1)]
  }

  predicate CrowdState(cfg: Config, ip: string, attempts: seq<Attempt>, n: nat) {
    Room(After(cfg, attempts), ip, CrowdWindow(cfg, n), n) && Failures(cfg, attempts, ip) == CrowdTimes(cfg, n)
  }

  lemma CrowdGrows(cfg: Config, ip: string, attempts: seq<Attempt>, all: seq<Attempt>, n: nat)
    requires cfg.maxUser >= 1 && cfg.maxIp >= 1 && cfg.window >= 2 && n < 2 * cfg.maxIp
    requires CrowdState(cfg, ip, attempts, n) && all == attempts + [Miss(CrowdTime(cfg, n), ip, n)]
    ensures CrowdState(cfg, ip, all, n + 1)
  {
    NextCrowdWindow(cfg, n);
    MissRoom(cfg, attempts, all, ip, CrowdWindow(cfg, n), n, CrowdTime(cfg, n));
  }

  lemma Crowd(cfg: Config, ip: string, n: nat) returns (attempts: seq<Attempt>)
    requires cfg.maxUser >= 1 && cfg.maxIp >= 1 && cfg.window >= 2 && n <= 2 * cfg.maxIp
    ensures CrowdState(cfg, ip, attempts, n) && InOrder(attempts)
  {
    attempts := [];
    for i := 0 to n
      invariant CrowdState(cfg, ip, attempts, i)
      invariant |attempts| == i && forall j :: 0 <= j < i ==> attempts[j].now == CrowdTime(cfg, j)
    {
      var all := attempts + [Miss(CrowdTime(cfg, i), ip, i)];
      CrowdGrows(cfg, ip, attempts, all, i);
      attempts := all;
    }
  }

  /** All but the first fall into the window that starts with the second. */
  lemma {:induction false} CrowdCount(cfg: Config, n: nat)
    requires cfg.maxIp >= 1 && cfg.window >= 2
    ensures CountIn(CrowdTimes(cfg, n), cfg.window - 1, cfg.window - 1 + cfg.window) == if n == 0 then 0 else n - 1
  {
    if n > 0 {
      CrowdCount(cfg, n - 1);
      CountInSnoc(CrowdTimes(cfg, n - 1), CrowdTime(cfg, n - 1), cfg.window - 1, cfg.window - 1 + cfg.window);
    }
  }

  /** For all thresholds the bound is tight: a window filled at its very end and the next
      one filled right after put 2 * max - 1 failures into one half-open interval. */
  lemma BoundIsAttained(cfg: Config, ip: string) returns (attempts: seq<Attempt>)
    requires cfg.maxUser >= 1 && cfg.maxIp >= 1 && cfg.window >= 2
    ensures InOrder(attempts) && InWindow(cfg, attempts, ip, cfg.window - 1) == 2 * cfg.maxIp - 1
  {
    attempts := Crowd(cfg, ip, 2 * cfg.maxIp);
    CrowdCount(cfg, 2 * cfg.maxIp);
  }

  /** "At most max failures per window", for every run and every window of that length. */
  ghost predicate AtMostMaxPerWindow(cfg: Config) {
    forall attempts: seq<Attempt>, ip: string, from: int ::
      InOrder(attempts) ==> InWindow(cfg, attempts, ip, from) <= if cfg.maxIp >= 0 then cfg.maxIp else 0
  }

  /** It is true exactly when the limit is at most one, or nobody can log in at all. */
  lemma AtMostMaxExactlyWhen(cfg: Config)
    requires cfg.window >= 2
    ensures AtMostMaxPerWindow(cfg) <==> cfg.maxIp <= 1 || cfg.maxUser < 1
  {
    if cfg.maxIp <= 1 || cfg.maxUser < 1 {
      forall attempts: seq<Attempt>, ip: string, from: int | InOrder(attempts)
        ensures InWindow(cfg, attempts, ip, from) <= if cfg.maxIp >= 0 then cfg.maxIp else 0
      {
        if cfg.maxUser < 1 { NothingRecorded(cfg, attempts, ip); }
        FailuresPerWindow(cfg, attempts, ip, from);
      }
    } else {
      var attempts := BoundIsAttained(cfg, "");
      assert InWindow(cfg, attempts, "", cfg.window - 1) > cfg.maxIp;
    }
  }

  /* ---------------- locks ---------------- */

  /** The two counters a failed login moves. */
  datatype Key = OfUser(name: string) | OfIp(address: string)

  function CounterOf(l: Limits, k: Key): Option<Window> {
    match k
    case OfUser(name) => if name in l.users then Some(l.users[name]) else None
    case OfIp(address) => if address in l.ips then Some(l.ips[address]) else None
  }

  function ReadingOf(l: Limits, k: Key, now: int): nat {
    match k
    case OfUser(name) => Reading(l.users, name, now)
    case OfIp(address) => Reading(l.ips, address, now)
  }

  function MaxOf(cfg: Config, k: Key): int {
    match k
    case OfUser(_) => cfg.maxUser
    case OfIp(_) => cfg.maxIp
  }

  /** The attempt is about this account or from this address. */
  predicate Concerns(a: Attempt, k: Key) {
    match k
    case OfUser(name) => UserKey(a.username) == name
    case OfIp(address) => a.ip == address
  }

  /** The row found for a username carries that name, up to case. */
  predicate FoundByName(a: Attempt) {
    && (a.outcome.WrongPassword? ==> UserKey(a.outcome.stored) == UserKey(a.username))
    && (a.outcome.Success? ==> UserKey(a.outcome.stored) == UserKey(a.username))
  }

  /** What an account's counter needs of the attempts; an address's needs nothing. */
  predicate AllFoundByName(attempts: seq<Attempt>, k: Key) {
    k.OfUser? ==> forall i :: 0 <= i < |attempts| ==> FoundByName(attempts[i])
  }

  /** The failures recorded for a key since its last reset or expiry. */
  function OpenFailures(cfg: Config, attempts: seq<Attempt>, k: Key): seq<int> {
    if attempts == [] then []
    else
      var front, a := attempts[..|attempts| - 1], attempts[|attempts| - 1];
      var open := OpenFailures(cfg, front, k);
      if !Concerns(a, k) || Locked(cfg, After(cfg, front), a.username, a.ip, a.now) then open
      else
        match a.outcome
        case UnknownUser => WithFailure(open, a.now, cfg.window)
        case WrongPassword(_) => WithFailure(open, a.now, cfg.window)
        case Success(_) => if k.OfUser? then [] else open
        case Inactive => open
  }

  function WithFailure(open: seq<int>, now: int, window: int): seq<int> {
    if open != [] && now < open[0] + window then open + [now] else [now]
  }

  /** The counter of that window: how many, and one window after the first of them. */
  function WindowOf(open: seq<int>, window: int): Option<Window> {
    if open == [] then None else Some(Window(|open|, open[0] + window))
  }

  lemma LoginAndKey(cfg: Config, l: Limits, a: Attempt, k: Key, open: seq<int>)
    requires (k.OfUser? ==> FoundByName(a)) && CounterOf(l, k) == WindowOf(open, cfg.window)
    ensures var next := CounterOf(Login(cfg, l, a), k);
            if !Concerns(a, k) || Locked(cfg, l, a.username, a.ip, a.now) || a.outcome.Inactive?
            then next == CounterOf(l, k)
            else if a.outcome.Success? then next == if k.OfUser? then None else CounterOf(l, k)
            else next == WindowOf(WithFailure(open, a.now, cfg.window), cfg.window)
  {}

  /** Each counter is exactly the record of its open failures, the first of which
      decides when it expires. */
  lemma {:induction false} CounterRecordsOpenFailures(cfg: Config, attempts: seq<Attempt>, k: Key)
    requires AllFoundByName(attempts, k)
    ensures CounterOf(After(cfg, attempts), k) == WindowOf(OpenFailures(cfg, attempts, k), cfg.window)
  {
    if attempts != [] {
      var front := attempts[..|attempts| - 1];
      CounterRecordsOpenFailures(cfg, front, k);
      LoginAndKey(cfg, After(cfg, front), attempts[|attempts| - 1], k, OpenFailures(cfg, front, k));
    }
  }

  /** A full counter locks out whoever could move or reset it. */
  lemma {:induction false} FullCounterStays(cfg: Config, attempts: seq<Attempt>, more: seq<Attempt>, k: Key, w: Window)
    requires AllFoundByName(more, k) && CounterOf(After(cfg, attempts), k) == Some(w) && w.count >= MaxOf(cfg, k)
    requires forall i :: 0 <= i < |more| ==> more[i].now < w.expiresAt
    ensures CounterOf(After(cfg, attempts + more), k) == Some(w)
  {
    var all := attempts + more;
    if more == [] {
      assert all == attempts;
    } else {
      var front, a := more[..|more| - 1], more[|more| - 1];
      assert all[..|all| - 1] == attempts + front;
      FullCounterStays(cfg, attempts, front, k, w);
      FullCounterRefuses(cfg, After(cfg, attempts + front), a, k, w);
    }
  }

  lemma FullCounterRefuses(cfg: Config, l: Limits, a: Attempt, k: Key, w: Window)
    requires k.OfUser? ==> FoundByName(a)
    requires CounterOf(l, k) == Some(w) && w.count >= MaxOf(cfg, k) && a.now < w.expiresAt
    ensures Concerns(a, k) ==> Locked(cfg, l, a.username, a.ip, a.now)
    ensures CounterOf(Login(cfg, l, a), k) == Some(w)
  {}

  /** Open failures all lie within one window of the first. */
  lemma {:induction false} OpenFailuresFitTheWindow(cfg: Config, attempts: seq<Attempt>, k: Key)
    requires cfg.window > 0
    ensures Fits(OpenFailures(cfg, attempts, k), cfg.window)
  {
    if attempts != [] {
      var front := attempts[..|attempts| - 1];
      OpenFailuresFitTheWindow(cfg, front, k);
      WithFailureFits(OpenFailures(cfg, front, k), attempts[|attempts| - 1].now, cfg.window);
    }
  }

  predicate Fits(open: seq<int>, window: int) {
    forall i :: 0 <= i < |open| ==> open[i] < open[0] + window
  }

  lemma WithFailureFits(open: seq<int>, now: int, window: int)
    requires window > 0 && Fits(open, window)
    ensures Fits(WithFailure(open, now, window), window)
  {}

  lemma ReadsFullUntil(cfg: Config, l: Limits, k: Key, w: Window)
    requires CounterOf(l, k) == Some(w) && w.count >= MaxOf(cfg, k) >= 1
    ensures forall now :: ReadingOf(l, k, now) >= MaxOf(cfg, k) <==> now < w.expiresAt
  {}

  /** The lock of an account or an address, once its open failures fill the counter:
      whatever is attempted meanwhile, it reads full up to one window after the first of
      them, and open from then on; the failures that filled it all came before that. */
  lemma LockLastsOneWindow(cfg: Config, attempts: seq<Attempt>, more: seq<Attempt>, k: Key)
    requires AllFoundByName(attempts, k) && AllFoundByName(more, k)
    requires |OpenFailures(cfg, attempts, k)| >= MaxOf(cfg, k) >= 1
    requires forall i :: 0 <= i < |more| ==> more[i].now < OpenFailures(cfg, attempts, k)[0] + cfg.window
    ensures var opens := OpenFailures(cfg, attempts, k)[0] + cfg.window;
            forall now :: ReadingOf(After(cfg, attempts + more), k, now) >= MaxOf(cfg, k) <==> now < opens
    ensures cfg.window > 0 ==> Fits(OpenFailures(cfg, attempts, k), cfg.window)
  {
    CounterRecordsOpenFailures(cfg, attempts, k);
    var open := OpenFailures(cfg, attempts, k);
    var w := Window(|open|, open[0] + cfg.window);
    FullCounterStays(cfg, attempts, more, k, w);
    ReadsFullUntil(cfg, After(cfg, attempts + more), k, w);
    if cfg.window > 0 { OpenFailuresFitTheWindow(cfg, attempts, k); }
  }

  /** A successful login clears the account's lock count and leaves the address's. */
  lemma SuccessResetsTheAccount(cfg: Config, attempts: seq<Attempt>, a: Attempt)
    requires FoundByName(a) && a.outcome.Success? && !Locked(cfg, After(cfg, attempts), a.username, a.ip, a.now)
    ensures OpenFailures(cfg, attempts + [a], OfUser(UserKey(a.username))) == []
    ensures CounterOf(After(cfg, attempts + [a]), OfUser(UserKey(a.username))) == None
    ensures OpenFailures(cfg, attempts + [a], OfIp(a.ip)) == OpenFailures(cfg, attempts, OfIp(a.ip))
  {
    SnocOpen(cfg, attempts, a, OfUser(UserKey(a.username)));
    SnocOpen(cfg, attempts, a, OfIp(a.ip));
  }

  lemma SnocOpen(cfg: Config, attempts: seq<Attempt>, a: Attempt, k: Key)
    requires Concerns(a, k) && !Locked(cfg, After(cfg, attempts), a.username, a.ip, a.now) && a.outcome.Success?
    ensures After(cfg, attempts + [a]) == Login(cfg, After(cfg, attempts), a)
    ensures OpenFailures(cfg, attempts + [a], k) == if k.OfUser? then [] else OpenFailures(cfg, attempts, k)
  {
    assert (attempts + [a])[..|attempts|] == attempts;
  }
}
