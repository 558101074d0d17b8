/** Login throttling: a sliding-window failure counter that keeps only a pruned,
    truncated part of each key's failures, against the plain log of them all. */
module RateLimit {
  type Key = string

  /** Times and durations in one integer unit. The clock never runs backwards. */
  type Instant = int

  const PRUNE_SIZE := 4096

  /** A limiter's settings. */
  datatype Rule = Rule(limit: nat, window: int)

  /** What is kept per key: times in the order they came. */
  type Failures = map<Key, seq<Instant>>

  function Stored(failures: Failures, key: Key): seq<Instant> {
    if key in failures then failures[key] else []
  }

  /** What is left of `times` once the failures that left the window are dropped. */
  function Recent(times: seq<Instant>, window: int, now: Instant): seq<Instant> {
    if times != [] && times[0] <= now - window then Recent(times[1..], window, now) else times
  }

  /** The first kept failure, and the last dropped one. */
  lemma {:induction false} RecentIsSuffix(times: seq<Instant>, window: int, now: Instant)
    ensures var r := Recent(times, window, now);
            && |r| <= |times| && r == times[|times| - |r|..]
            && (|r| < |times| ==> times[|times| - |r| - 1] <= now - window)
            && (r != [] ==> r[0] > now - window)
  {
    if times != [] && times[0] <= now - window {
      RecentIsSuffix(times[1..], window, now);
    }
  }

  function Truncated(times: seq<Instant>, limit: nat): seq<Instant> {
    if |times| > limit then times[|times| - limit..] else times
  }

  function Swept(failures: Failures, window: int, now: Instant): Failures {
    map k | k in failures && Recent(failures[k], window, now) != [] :: failures[k]
  }

  function Kept(failures: Failures, window: int, now: Instant): Failures {
    if |failures| >= PRUNE_SIZE then Swept(failures, window, now) else failures
  }

  function FailIn(rule: Rule, failures: Failures, key: Key, now: Instant): Failures {
    var kept := Kept(failures, rule.window, now);
    kept[key := Truncated(Recent(Stored(kept, key), rule.window, now) + [now], rule.limit)]
  }

  function ResetIn(failures: Failures, key: Key): Failures {
    failures - {key}
  }

  /** retryAfter reads the clock twice: once to drop old failures and once for
      the remaining time, which is therefore not always positive. */
  function RetryIn(rule: Rule, failures: Failures, key: Key, now: Instant, later: Instant): int
    requires rule.limit > 0
  {
    WaitAfter(rule, Recent(Stored(failures, key), rule.window, now), later)
  }

  /** The time until the first of `limit` failures leaves the window. */
  function WaitAfter(rule: Rule, times: seq<Instant>, later: Instant): int
    requires rule.limit > 0
  {
    if |times| < rule.limit then 0 else times[0] + rule.window - later
  }

  class FailureLimiter {
    const limit: nat
    const window: int
    var failures: Failures

    constructor (limit: nat, window: int)
      ensures this.limit == limit && this.window == window && failures == map[]
    {
      this.limit := limit;
      this.window := window;
      failures := map[];
    }

    method RetryAfter(key: Key, now: Instant, later: Instant) returns (wait: int)
      requires limit > 0
      ensures wait == RetryIn(Rule(limit, window), failures, key, now, later)
    {
      var times := RecentFailures(key, now);
      if |times| < limit {
        return 0;
      }
      wait := times[0] + window - later;
    }

    method Fail(key: Key, now: Instant)
      modifies this
      ensures failures == FailIn(Rule(limit, window), old(failures), key, now)
    {
      SweepIfLarge(now);
      var times := RecentFailures(key, now);
      times := times + [now];
      if |times| > limit {
        times := times[|times| - limit..];
      }
      failures := failures[key := times];
    }

    method SweepIfLarge(now: Instant)
      modifies this
      ensures failures == Kept(old(failures), window, now)
    {
      if |failures| >= PRUNE_SIZE {
        Sweep(now);
      }
    }

    method Sweep(now: Instant)
      modifies this
      ensures failures == Swept(old(failures), window, now)
    {
      var rest := failures.Keys;
      while rest != {}
        invariant rest <= failures.Keys
        invariant failures == map k | k in old(failures)
            && (k in rest || Recent(old(failures)[k], window, now) != []) :: old(failures)[k]
        decreases |rest|
      {
        var k :| k in rest;
        rest := rest - {k};
        var times := RecentFailures(k, now);
        if |times| == 0 {
          failures := failures - {k};
        }
      }
    }

    method Reset(key: Key)
      modifies this
      ensures failures == ResetIn(old(failures), key)
    {
      failures := failures - {key};
    }

    method RecentFailures(key: Key, now: Instant) returns (times: seq<Instant>)
      ensures times == Recent(Stored(failures, key), window, now)
    {
      times := if key in failures then failures[key] else [];
      while |times| > 0 && !(times[0] + window > now)
        invariant Recent(times, window, now) == Recent(Stored(failures, key), window, now)
        decreases |times|
      {
        times := times[1..];
      }
    }
  }

  // ---------- The plain log ----------

  datatype Call = Fail(key: Key, at: Instant) | Reset(key: Key)

  function Called(rule: Rule, failures: Failures, call: Call): Failures {
    match call
    case Fail(key, at) => FailIn(rule, failures, key, at)
    case Reset(key) => ResetIn(failures, key)
  }

  function After(rule: Rule, calls: seq<Call>): Failures {
    if calls == [] then map[] else Called(rule, After(rule, calls[..|calls| - 1]), calls[|calls| - 1])
  }

  /** Every failure of the key since its last reset. */
  function Log(calls: seq<Call>, key: Key): seq<Instant> {
    if calls == [] then []
    else
      var log := Log(calls[..|calls| - 1], key);
      var last := calls[|calls| - 1];
      if last.key != key then log else if last.Fail? then log + [last.at] else []
  }

  /** How many of the failures lie in the half-open interval (from, until]. */
  function CountIn(log: seq<Instant>, from: int, until: int): (n: nat)
    ensures n <= |log|
  {
    if log == [] then 0
    else CountIn(log[..|log| - 1], from, until) + if from < log[|log| - 1] <= until then 1 else 0
  }

  /** By the log, the key is blocked now. */
  predicate Blocked(rule: Rule, log: seq<Instant>, now: Instant) {
    CountIn(log, now - rule.window, now) >= rule.limit
  }

  /** By the log, how long the key stays blocked. */
  function Wait(rule: Rule, log: seq<Instant>, now: Instant): int {
    if rule.limit > 0 && Blocked(rule, log, now) then log[|log| - rule.limit] + rule.window - now else 0
  }

  /** The times do not decrease, and none is later than `now`. */
  predicate Sorted(log: seq<Instant>, now: Instant) {
    log == [] || (log[|log| - 1] <= now && Sorted(log[..|log| - 1], log[|log| - 1]))
  }

  /** The latest the clock can have been before the last of the calls. */
  function Before(calls: seq<Call>, now: Instant): Instant
    requires calls != []
  {
    var last := calls[|calls| - 1];
    if last.Fail? then last.at else now
  }

  /** The calls' clock readings do not decrease, and none is later than `now`. */
  predicate InOrder(calls: seq<Call>, now: Instant) {
    calls == [] || (Before(calls, now) <= now && InOrder(calls[..|calls| - 1], Before(calls, now)))
  }

  lemma {:induction false} SortedAt(log: seq<Instant>, now: Instant, i: nat, j: nat)
    requires Sorted(log, now) && i <= j < |log|
    ensures log[i] <= log[j] <= now
  {
    if i < |log| - 1 {
      SortedAt(log[..|log| - 1], log[|log| - 1], i, if j < |log| - 1 then j else i);
    }
  }

  lemma SortedLater(log: seq<Instant>, now: Instant, later: Instant)
    requires Sorted(log, now) && now <= later
    ensures Sorted(log, later)
  {
  }

  lemma {:induction false} CountAtLeastIff(log: seq<Instant>, from: int, until: int, n: nat)
    requires Sorted(log, until) && n > 0
    ensures CountIn(log, from, until) >= n <==> |log| >= n && log[|log| - n] > from
  {
    if log == [] {
    } else if log[|log| - 1] <= from {
      CountNone(log, from, until);
      if |log| >= n {
        SortedAt(log, until, |log| - n, |log| - 1);
      }
    } else if n > 1 {
      SortedLater(log[..|log| - 1], log[|log| - 1], until);
      CountAtLeastIff(log[..|log| - 1], from, until, n - 1);
    }
  }

  lemma {:induction false} CountNone(log: seq<Instant>, from: int, until: int)
    requires Sorted(log, from)
    ensures CountIn(log, from, until) == 0
  {
    if log != [] {
      SortedLater(log[..|log| - 1], log[|log| - 1], from);
      CountNone(log[..|log| - 1], from, until);
    }
  }

  /** The waiting time is exactly how long the block lasts if nothing fails. */
  lemma WaitUnblocks(rule: Rule, log: seq<Instant>, now: Instant, d: nat)
    requires rule.limit > 0 && Sorted(log, now)
    ensures Blocked(rule, log, now + d) <==> d < Wait(rule, log, now)
  {
    CountAtLeastIff(log, now - rule.window, now, rule.limit);
    SortedLater(log, now, now + d);
    CountAtLeastIff(log, now + d - rule.window, now + d, rule.limit);
  }

  /** What is stored for a key: the end of its log, without failures that left
      the window or are older than the last `limit`. */
  predicate Represents(rule: Rule, stored: seq<Instant>, log: seq<Instant>, now: Instant) {
    && |stored| <= |log| && |stored| <= rule.limit
    && stored == log[|log| - |stored|..]
    && (|stored| < rule.limit && |stored| < |log| ==> log[|log| - |stored| - 1] <= now - rule.window)
  }

  lemma RecentRepresents(rule: Rule, stored: seq<Instant>, log: seq<Instant>, now: Instant)
    requires Represents(rule, stored, log, now)
    ensures Represents(rule, Recent(stored, rule.window, now), log, now)
  {
    RecentIsSuffix(stored, rule.window, now);
    var r := Recent(stored, rule.window, now);
    assert r == log[|log| - |r|..];
    if |r| < |stored| {
      assert log[|log| - |r| - 1] == stored[|stored| - |r| - 1];
    }
  }

  lemma FailRepresents(rule: Rule, stored: seq<Instant>, log: seq<Instant>, now: Instant)
    requires Represents(rule, stored, log, now) && rule.limit > 0
    ensures Represents(rule, Truncated(Recent(stored, rule.window, now) + [now], rule.limit), log + [now], now)
  {
    RecentRepresents(rule, stored, log, now);
    var r := Recent(stored, rule.window, now);
    assert r + [now] == (log + [now])[|log| - |r|..];
  }

  lemma KeptRepresents(rule: Rule, failures: Failures, key: Key, log: seq<Instant>, now: Instant)
    requires Represents(rule, Stored(failures, key), log, now)
    ensures Represents(rule, Stored(Kept(failures, rule.window, now), key), log, now)
  {
    RecentRepresents(rule, Stored(failures, key), log, now);
  }

  lemma FailKeeps(rule: Rule, failures: Failures, failing: Key, key: Key, log: seq<Instant>, now: Instant)
    requires Represents(rule, Stored(failures, key), log, now) && rule.limit > 0
    ensures Represents(rule, Stored(FailIn(rule, failures, failing, now), key), if key == failing then log + [now]
        else log, now)
  {
    KeptRepresents(rule, failures, key, log, now);
    if key == failing {
      FailRepresents(rule, Stored(Kept(failures, rule.window, now), key), log, now);
    }
  }

  lemma RepresentsLater(rule: Rule, stored: seq<Instant>, log: seq<Instant>, now: Instant, later: Instant)
    requires Represents(rule, stored, log, now) && now <= later
    ensures Represents(rule, stored, log, later)
  {
  }

  lemma {:induction false} LogSorted(calls: seq<Call>, key: Key, now: Instant)
    requires InOrder(calls, now)
    ensures Sorted(Log(calls, key), now)
  {
    if calls != [] {
      LogSorted(calls[..|calls| - 1], key, Before(calls, now));
      SortedLater(Log(calls[..|calls| - 1], key), Before(calls, now), now);
    }
  }

  lemma {:induction false} AfterRepresents(rule: Rule, calls: seq<Call>, key: Key, now: Instant)
    requires rule.limit > 0 && InOrder(calls, now)
    ensures Represents(rule, Stored(After(rule, calls), key), Log(calls, key), now)
  {
    if calls != [] {
      var before, at := calls[..|calls| - 1], Before(calls, now);
      AfterRepresents(rule, before, key, at);
      match calls[|calls| - 1]
      case Fail(failing, _) =>
        FailKeeps(rule, After(rule, before), failing, key, Log(before, key), at);
        RepresentsLater(rule, Stored(After(rule, calls), key), Log(calls, key), at, now);
      case Reset(_) =>
    }
  }

  /** The limit-th most recent failure is still stored, or left the window. */
  lemma LimitIsFirst(rule: Rule, times: seq<Instant>, log: seq<Instant>, now: Instant)
    requires rule.limit > 0 && Represents(rule, times, log, now) && Sorted(log, now)
    ensures if |times| < rule.limit then |log| < rule.limit || log[|log| - rule.limit] <= now - rule.window
            else |log| >= rule.limit && times[0] == log[|log| - rule.limit]
  {
    if |times| < rule.limit <= |log| {
      SortedAt(log, now, |log| - rule.limit, |log| - |times| - 1);
    }
  }

  lemma BlockedIff(rule: Rule, log: seq<Instant>, later: Instant)
    requires rule.limit > 0 && Sorted(log, later)
    ensures Blocked(rule, log, later) <==> |log| >= rule.limit && log[|log| - rule.limit] > later - rule.window
  {
    CountAtLeastIff(log, later - rule.window, later, rule.limit);
  }

  lemma AnswerIsWait(rule: Rule, times: seq<Instant>, log: seq<Instant>, now: Instant, later: Instant)
    requires rule.limit > 0 && Represents(rule, times, log, now) && Sorted(log, now) && now <= later
    ensures WaitAfter(rule, times, later) > 0 <==> Blocked(rule, log, later)
    ensures WaitAfter(rule, times, later) > 0 ==> WaitAfter(rule, times, later) == Wait(rule, log, later)
  {
    LimitIsFirst(rule, times, log, now);
    SortedLater(log, now, later);
    BlockedIff(rule, log, later);
  }

  /** The refinement: after every run of calls, what retryAfter answers from its
      pruned and truncated lists is what the plain log says at its last clock
      reading, or nothing to wait for. */
  lemma RetryIsWait(rule: Rule, calls: seq<Call>, key: Key, now: Instant, later: Instant)
    requires rule.limit > 0 && InOrder(calls, now) && now <= later
    ensures var wait := RetryIn(rule, After(rule, calls), key, now, later);
            && (wait > 0 <==> Blocked(rule, Log(calls, key), later))
            && (if wait > 0 then wait else 0) == Wait(rule, Log(calls, key), later)
  {
    AfterRepresents(rule, calls, key, now);
    LogSorted(calls, key, now);
    var stored, log := Stored(After(rule, calls), key), Log(calls, key);
    RecentRepresents(rule, stored, log, now);
    AnswerIsWait(rule, Recent(stored, rule.window, now), log, now, later);
  }

  lemma {:induction false} KnownHaveTimes(rule: Rule, calls: seq<Call>)
    requires rule.limit > 0
    ensures forall k | k in After(rule, calls) :: After(rule, calls)[k] != []
  {
    if calls != [] {
      KnownHaveTimes(rule, calls[..|calls| - 1]);
    }
  }

  lemma RecentIffCounted(rule: Rule, stored: seq<Instant>, log: seq<Instant>, now: Instant)
    requires rule.limit > 0 && Represents(rule, stored, log, now) && Sorted(log, now)
    ensures Recent(stored, rule.window, now) != [] <==> CountIn(log, now - rule.window, now) > 0
  {
    RecentIsSuffix(stored, rule.window, now);
    RecentRepresents(rule, stored, log, now);
    CountAtLeastIff(log, now - rule.window, now, 1);
    var r := Recent(stored, rule.window, now);
    if r != [] {
      SortedAt(log, now, |log| - |r|, |log| - 1);
    }
  }

  /** What is kept is bounded: never more than `limit` times per key, and once
      there are too many keys a failure leaves, besides its own, exactly those
      that failed within the window. */
  lemma StorageIsBounded(rule: Rule, calls: seq<Call>, failing: Key, key: Key, now: Instant)
    requires rule.limit > 0 && InOrder(calls, now)
    ensures |Stored(After(rule, calls), key)| <= rule.limit
    ensures |After(rule, calls)| >= PRUNE_SIZE && key != failing ==>
              (key in After(rule, calls + [Fail(failing, now)]) <==>
                  CountIn(Log(calls, key), now - rule.window, now) > 0)
  {
    AfterRepresents(rule, calls, key, now);
    LogSorted(calls, key, now);
    KnownHaveTimes(rule, calls);
    RecentIffCounted(rule, Stored(After(rule, calls), key), Log(calls, key), now);
    AfterOneMore(rule, calls, Fail(failing, now));
  }

  // ---------- Signing in ----------

  const LOGIN_FAILURE_WINDOW := 15 * 60 * 1_000_000_000
  const PER_IP := Rule(10, LOGIN_FAILURE_WINDOW)
  const PER_USER := Rule(10, LOGIN_FAILURE_WINDOW)

  /** What the password check would answer. */
  datatype Check = Correct | Incorrect | Unavailable

  /** The clock readings of one request, in the order they are made. */
  datatype Readings = Readings(ipNow: Instant, ipLater: Instant, userNow: Instant, userLater: Instant,
        ipFail: Instant, userFail: Instant) {
    predicate InOrder() {
      ipNow <= ipLater <= userNow <= userLater <= ipFail <= userFail
    }
  }

  datatype Request = Request(ip: Key, user: Key, check: Check, clock: Readings)

  datatype Response = TooMany(wait: int) | Unauthorized | InternalError | SignedIn

  type Trace = seq<(Request, Response)>

  /** The failures recorded per address: one for every failed password check. */
  function IpCalls(trace: Trace): seq<Call> {
    if trace == [] then []
    else
      var calls := IpCalls(trace[..|trace| - 1]);
      var (request, response) := trace[|trace| - 1];
      if response.Unauthorized? then calls + [Fail(request.ip, request.clock.ipFail)] else calls
  }

  /** The same per username, until a successful sign-in. */
  function UserCalls(trace: Trace): seq<Call> {
    if trace == [] then []
    else
      var calls := UserCalls(trace[..|trace| - 1]);
      var (request, response) := trace[|trace| - 1];
      match response
      case Unauthorized => calls + [Fail(request.user, request.clock.userFail)]
      case SignedIn => calls + [Reset(request.user)]
      case _ => calls
  }

  function Max(a: int, b: int): int {
    if a < b then b else a
  }

  /** The limiters' common answer to a request after `trace`. */
  function WaitFor(trace: Trace, request: Request): int {
    var clock := request.clock;
    Max(RetryIn(PER_IP, After(PER_IP, IpCalls(trace)), request.ip, clock.ipNow, clock.ipLater),
        RetryIn(PER_USER, After(PER_USER, UserCalls(trace)), request.user, clock.userNow, clock.userLater))
  }

  function Answer(trace: Trace, request: Request): Response {
    if WaitFor(trace, request) > 0 then TooMany(WaitFor(trace, request))
    else
      match request.check
      case Incorrect => Unauthorized
      case Unavailable => InternalError
      case Correct => SignedIn
  }

  /** The sign-in handler, one request at a time. */
  class LoginHandler {
    const byIp: FailureLimiter
    const byUser: FailureLimiter
    ghost var trace: Trace

    ghost predicate Valid()
      reads this, byIp, byUser
    {
      && byIp != byUser
      && Rule(byIp.limit, byIp.window) == PER_IP && byIp.failures == After(PER_IP, IpCalls(trace))
      && Rule(byUser.limit, byUser.window) == PER_USER && byUser.failures == After(PER_USER, UserCalls(trace))
    }

    constructor ()
      ensures Valid() && trace == [] && fresh(byIp) && fresh(byUser)
    {
      byIp := new FailureLimiter(10, LOGIN_FAILURE_WINDOW);
      byUser := new FailureLimiter(10, LOGIN_FAILURE_WINDOW);
      trace := [];
    }

    method HandleLogin(request: Request) returns (response: Response)
      requires Valid()
      modifies this, byIp, byUser
      ensures Valid() && response == Answer(old(trace), request) && trace == old(trace) + [(request, response)]
      ensures response.TooMany? || (response.SignedIn? <==> request.check.Correct?)
      ensures response.TooMany? || (response.Unauthorized? <==> request.check.Incorrect?)
    {
      var wait := CheckLimits(request);
      if wait > 0 {
        response := TooMany(wait);
      } else {
        response := match request.check
          case Incorrect => Unauthorized
          case Unavailable => InternalError
          case Correct => SignedIn;
      }
      Record(request, response);
    }

    /** The longer of the two waits. */
    method CheckLimits(request: Request) returns (wait: int)
      requires Valid()
      ensures wait == WaitFor(trace, request)
    {
      var clock := request.clock;
      var ipWait := byIp.RetryAfter(request.ip, clock.ipNow, clock.ipLater);
      var userWait := byUser.RetryAfter(request.user, clock.userNow, clock.userLater);
      wait := if ipWait < userWait then userWait else ipWait;
    }

    /** A failed check counts for both keys; a sign-in clears the username's. */
    method Record(request: Request, response: Response)
      requires Valid()
      modifies this, byIp, byUser
      ensures Valid() && trace == old(trace) + [(request, response)]
    {
      Recorded(trace, request, response);
      if response == Unauthorized {
        byIp.Fail(request.ip, request.clock.ipFail);
        byUser.Fail(request.user, request.clock.userFail);
      } else if response == SignedIn {
        byUser.Reset(request.user);
      }
      trace := trace + [(request, response)];
    }
  }

  lemma Recorded(trace: Trace, request: Request, response: Response)
    ensures var t := trace + [(request, response)];
            && (response.Unauthorized? ==>
                  && After(PER_IP, IpCalls(t)) ==
                      FailIn(PER_IP, After(PER_IP, IpCalls(trace)), request.ip, request.clock.ipFail)
                  && After(PER_USER, UserCalls(t)) ==
                      FailIn(PER_USER, After(PER_USER, UserCalls(trace)), request.user, request.clock.userFail))
            && (!response.Unauthorized? ==> IpCalls(t) == IpCalls(trace))
            && (response.SignedIn? ==>
                After(PER_USER, UserCalls(t)) == ResetIn(After(PER_USER, UserCalls(trace)), request.user))
            && (!response.Unauthorized? && !response.SignedIn? ==> UserCalls(t) == UserCalls(trace))
  {
    var t := trace + [(request, response)];
    assert t[..|t| - 1] == trace;
    if response.Unauthorized? {
      AfterOneMore(PER_IP, IpCalls(trace), Fail(request.ip, request.clock.ipFail));
      AfterOneMore(PER_USER, UserCalls(trace), Fail(request.user, request.clock.userFail));
    } else if response.SignedIn? {
      AfterOneMore(PER_USER, UserCalls(trace), Reset(request.user));
    }
  }

  lemma AfterOneMore(rule: Rule, calls: seq<Call>, call: Call)
    ensures After(rule, calls + [call]) == Called(rule, After(rule, calls), call)
  {
    assert (calls + [call])[..|calls|] == calls;
  }

  lemma LogOneMore(calls: seq<Call>, call: Call, key: Key)
    ensures Log(calls + [call], key) ==
              if call.key != key then Log(calls, key) else if call.Fail? then Log(calls, key) + [call.at] else []
  {
    assert (calls + [call])[..|calls|] == calls;
  }

  lemma InOrderOneMore(calls: seq<Call>, call: Call, now: Instant, later: Instant)
    requires InOrder(calls, now) && now <= later && (call.Fail? ==> now <= call.at <= later)
    ensures InOrder(calls + [call], later)
  {
    assert (calls + [call])[..|calls|] == calls;
    InOrderLater(calls, now, if call.Fail? then call.at else later);
  }

  lemma {:induction false} InOrderLater(calls: seq<Call>, now: Instant, later: Instant)
    requires InOrder(calls, now) && now <= later
    ensures InOrder(calls, later)
  {
    if calls != [] && !calls[|calls| - 1].Fail? {
      InOrderLater(calls[..|calls| - 1], now, later);
    }
  }

  /** Requests handled one after another until `now`. */
  predicate Handled(trace: Trace, now: Instant) {
    trace == [] ||
    var before := trace[..|trace| - 1];
    var (request, response) := trace[|trace| - 1];
    && request.clock.InOrder() && request.clock.userFail <= now
    && response == Answer(before, request)
    && Handled(before, request.clock.ipNow)
  }

  lemma {:induction false} IpCallsInOrder(trace: Trace, now: Instant)
    requires Handled(trace, now)
    ensures InOrder(IpCalls(trace), now)
  {
    if trace != [] {
      var before := trace[..|trace| - 1];
      var (request, response) := trace[|trace| - 1];
      IpCallsInOrder(before, request.clock.ipNow);
      if response.Unauthorized? {
        InOrderOneMore(IpCalls(before), Fail(request.ip, request.clock.ipFail), request.clock.ipNow, now);
      } else {
        InOrderLater(IpCalls(before), request.clock.ipNow, now);
      }
    }
  }

  lemma {:induction false} UserCallsInOrder(trace: Trace, now: Instant)
    requires Handled(trace, now)
    ensures InOrder(UserCalls(trace), now)
  {
    if trace != [] {
      var before := trace[..|trace| - 1];
      var (request, response) := trace[|trace| - 1];
      UserCallsInOrder(before, request.clock.ipNow);
      match response
      case Unauthorized => InOrderOneMore(UserCalls(before), Fail(request.user, request.clock.userFail),
          request.clock.ipNow, now);
      case SignedIn => InOrderOneMore(UserCalls(before), Reset(request.user), request.clock.ipNow, now);
      case _ => InOrderLater(UserCalls(before), request.clock.ipNow, now);
    }
  }

  /** A request is refused exactly if by the plain logs its address or its
      username has used up its failures, whatever was pruned or truncated. */
  lemma RefusedExactlyIf(trace: Trace, request: Request)
    requires Handled(trace, request.clock.ipNow) && request.clock.InOrder()
    ensures Answer(trace, request).TooMany? <==>
              || Blocked(PER_IP, Log(IpCalls(trace), request.ip), request.clock.ipLater)
              || Blocked(PER_USER, Log(UserCalls(trace), request.user), request.clock.userLater)
  {
    var clock := request.clock;
    IpCallsInOrder(trace, clock.ipNow);
    UserCallsInOrder(trace, clock.ipNow);
    RetryIsWait(PER_IP, IpCalls(trace), request.ip, clock.ipNow, clock.ipLater);
    InOrderLater(UserCalls(trace), clock.ipNow, clock.userNow);
    RetryIsWait(PER_USER, UserCalls(trace), request.user, clock.userNow, clock.userLater);
  }

  // ---------- What is answered ----------

  /** When password checks of the address failed. A refused request checks nothing. */
  function IpFailures(trace: Trace, ip: Key): seq<Instant> {
    if trace == [] then []
    else
      var times := IpFailures(trace[..|trace| - 1], ip);
      var (request, response) := trace[|trace| - 1];
      if request.ip == ip && !response.TooMany? && request.check.Incorrect? then times + [request.clock.ipFail]
      else times
  }

  /** When password checks of the username failed since the last correct one. */
  function UserFailures(trace: Trace, user: Key): seq<Instant> {
    if trace == [] then []
    else
      var times := UserFailures(trace[..|trace| - 1], user);
      var (request, response) := trace[|trace| - 1];
      if request.user != user || response.TooMany? then times
      else
        match request.check
        case Correct => []
        case Incorrect => times + [request.clock.userFail]
        case Unavailable => times
  }

  /** The limiters count the failed password checks, and nothing else. */
  lemma {:induction false} LogsAreFailures(trace: Trace, key: Key, now: Instant)
    requires Handled(trace, now)
    ensures Log(IpCalls(trace), key) == IpFailures(trace, key)
    ensures Log(UserCalls(trace), key) == UserFailures(trace, key)
  {
    if trace != [] {
      var before := trace[..|trace| - 1];
      var (request, response) := trace[|trace| - 1];
      LogsAreFailures(before, key, request.clock.ipNow);
      LogOneMore(IpCalls(before), Fail(request.ip, request.clock.ipFail), key);
      LogOneMore(UserCalls(before), Fail(request.user, request.clock.userFail), key);
      LogOneMore(UserCalls(before), Reset(request.user), key);
    }
  }

  /** Every answer, exactly, from the failed password checks alone: a request is
      refused while its address or its username has used them up, for the longer of
      the two waits; otherwise the password check decides. */
  lemma AnswersExactly(trace: Trace, request: Request)
    requires Handled(trace, request.clock.ipNow) && request.clock.InOrder()
    ensures var response := Answer(trace, request);
            var ip, user := IpFailures(trace, request.ip), UserFailures(trace, request.user);
            var blocked :=
              || Blocked(PER_IP, ip, request.clock.ipLater)
              || Blocked(PER_USER, user, request.clock.userLater);
            var a, b := Wait(PER_IP, ip, request.clock.ipLater), Wait(PER_USER, user, request.clock.userLater);
            && (response.TooMany? <==> blocked)
            && (response.SignedIn? <==> !blocked && request.check.Correct?)
            && (response.Unauthorized? <==> !blocked && request.check.Incorrect?)
            && (response.InternalError? <==> !blocked && request.check.Unavailable?)
            && (blocked ==> response.wait == if a < b then b else a)
  {
    var clock := request.clock;
    LogsAreFailures(trace, request.ip, clock.ipNow);
    LogsAreFailures(trace, request.user, clock.ipNow);
    IpCallsInOrder(trace, clock.ipNow);
    UserCallsInOrder(trace, clock.ipNow);
    RetryIsWait(PER_IP, IpCalls(trace), request.ip, clock.ipNow, clock.ipLater);
    InOrderLater(UserCalls(trace), clock.ipNow, clock.userNow);
    RetryIsWait(PER_USER, UserCalls(trace), request.user, clock.userNow, clock.userLater);
  }

  // ---------- The bound ----------

  /** Any `limit + 1` failures in a row span at least a window. */
  predicate Spaced(rule: Rule, log: seq<Instant>) {
    forall i | 0 <= i < |log| - rule.limit :: log[i] + rule.window <= log[i + rule.limit]
  }

  lemma SpacedNext(rule: Rule, log: seq<Instant>, checked: Instant, at: Instant)
    requires rule.limit > 0 && Spaced(rule, log) && Sorted(log, checked) && checked <= at
        && !Blocked(rule, log, checked)
    ensures Spaced(rule, log + [at])
  {
    CountAtLeastIff(log, checked - rule.window, checked, rule.limit);
  }

  lemma {:induction false} SpacedBound(rule: Rule, log: seq<Instant>, now: Instant, x: int)
    requires rule.limit > 0 && Spaced(rule, log) && Sorted(log, now)
    ensures CountIn(log, x, x + rule.window) <= rule.limit
  {
    if log != [] {
      var last := log[|log| - 1];
      if x < last <= x + rule.window {
        SortedLater(log[..|log| - 1], last, x + rule.window);
        CountAtLeastIff(log, x, x + rule.window, rule.limit + 1);
      } else {
        SpacedBound(rule, log[..|log| - 1], last, x);
      }
    }
  }

  /** One more failure after a check that was let through. */
  lemma FailureSpaced(rule: Rule, calls: seq<Call>, failing: Key, key: Key, now: Instant, checked: Instant, at: Instant)
    requires rule.limit > 0 && InOrder(calls, now) && now <= checked <= at
    requires Spaced(rule, Log(calls, key)) && !Blocked(rule, Log(calls, failing), checked)
    ensures Spaced(rule, Log(calls + [Fail(failing, at)], key))
  {
    LogOneMore(calls, Fail(failing, at), key);
    if key == failing {
      LogSorted(calls, key, now);
      SortedLater(Log(calls, key), now, checked);
      SpacedNext(rule, Log(calls, key), checked, at);
    }
  }

  lemma {:induction false} HandledSpaced(trace: Trace, key: Key, now: Instant)
    requires Handled(trace, now)
    ensures Spaced(PER_IP, Log(IpCalls(trace), key)) && Spaced(PER_USER, Log(UserCalls(trace), key))
  {
    if trace != [] {
      var before := trace[..|trace| - 1];
      var (request, response) := trace[|trace| - 1];
      var clock := request.clock;
      HandledSpaced(before, key, clock.ipNow);
      if response.Unauthorized? {
        RefusedExactlyIf(before, request);
        IpCallsInOrder(before, clock.ipNow);
        UserCallsInOrder(before, clock.ipNow);
        FailureSpaced(PER_IP, IpCalls(before), request.ip, key, clock.ipNow, clock.ipLater, clock.ipFail);
        FailureSpaced(PER_USER, UserCalls(before), request.user, key, clock.ipNow, clock.userLater, clock.userFail);
      } else if response.SignedIn? {
        LogOneMore(UserCalls(before), Reset(request.user), key);
      }
    }
  }

  /** The sliding-window bound. Over every run of requests, any half-open interval
      of one window holds at most ten failed password checks of an address, and
      at most ten of a username between its successful sign-ins. */
  lemma FailuresAreBounded(trace: Trace, key: Key, now: Instant, x: int)
    requires Handled(trace, now)
    ensures CountIn(Log(IpCalls(trace), key), x, x + LOGIN_FAILURE_WINDOW) <= 10
    ensures CountIn(Log(UserCalls(trace), key), x, x + LOGIN_FAILURE_WINDOW) <= 10
    ensures CountIn(IpFailures(trace, key), x, x + LOGIN_FAILURE_WINDOW) <= 10
    ensures CountIn(UserFailures(trace, key), x, x + LOGIN_FAILURE_WINDOW) <= 10
  {
    LogsAreFailures(trace, key, now);
    HandledSpaced(trace, key, now);
    IpCallsInOrder(trace, now);
    UserCallsInOrder(trace, now);
    LogSorted(IpCalls(trace), key, now);
    LogSorted(UserCalls(trace), key, now);
    SpacedBound(PER_IP, Log(IpCalls(trace), key), now, x);
    SpacedBound(PER_USER, Log(UserCalls(trace), key), now, x);
  }
}
