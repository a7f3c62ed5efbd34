/**
 * Linear error handling: classifying the errors a Linear call raises, the
 * connection cache that stops the build from hammering an unavailable
 * service, the retry loop with exponential backoff, and the cache-gated
 * wrapper every Linear operation goes through.
 *
 * Wall-clock readings are the parameter `now`, delays and durations are
 * whole seconds, and the operation is the outcome of each successive call.
 */
module LinearErrors {
  import opened Wrappers
  import opened Text

  datatype ErrorType = NetworkError | AuthError | RateLimit | ServerError | ValidationError | Timeout | UnknownError

  datatype Availability = Available | Degraded | Unavailable | Disabled

  /** What `classify_error` sees of an exception: its text and whether it is an `asyncio.TimeoutError`. */
  datatype RaisedError = RaisedError(text: string, isTimeoutError: bool)

  datatype ErrorInfo = ErrorInfo(errorType: ErrorType, message: string, isTransient: bool, originalError: RaisedError)

  // ---------------------------------------------------------------------
  // classify_error
  // ---------------------------------------------------------------------

  /** The keywords that signal each error type, looked for in the lower-cased error text. */
  function KeywordsOf(t: ErrorType): seq<string> {
    match t
    case NetworkError => ["network", "connection", "dns", "unreachable"]
    case Timeout => ["timeout"]
    case RateLimit => ["rate limit", "429"]
    case ServerError => ["500", "502", "503"]
    case AuthError => ["auth", "unauthorized", "forbidden"]
    case ValidationError => ["validation", "invalid"]
    case UnknownError => []
  }

  /** The order in which the classifier tries the error types. */
  const Priority: seq<ErrorType> := [NetworkError, Timeout, RateLimit, ServerError, AuthError, ValidationError]

  /** Some keyword of `keywords` occurs in `s`. */
  predicate AnyContained(s: string, keywords: seq<string>)
    decreases |keywords|
  {
    keywords != [] && (Contains(s, keywords[0]) || AnyContained(s, keywords[1..]))
  }

  /** The error signals type `t`: one of its keywords occurs in the lower-cased text, or it is a timeout exception and `t` is `Timeout`. */
  predicate Signals(t: ErrorType, e: RaisedError) {
    AnyContained(Lower(e.text), KeywordsOf(t)) || (t == Timeout && e.isTimeoutError)
  }

  /** The first type of `ts` that the error signals, `UnknownError` when none does. */
  function FirstSignalled(e: RaisedError, ts: seq<ErrorType>): ErrorType
    decreases |ts|
  {
    if ts == [] then UnknownError
    else if Signals(ts[0], e) then ts[0]
    else FirstSignalled(e, ts[1..])
  }

  /** The words the user-facing message puts before the error text, per type. */
  function MessagePrefix(t: ErrorType): string {
    match t
    case NetworkError => "Network error: "
    case Timeout => "Request timeout: "
    case RateLimit => "Rate limit exceeded: "
    case ServerError => "Linear server error: "
    case AuthError => "Authentication error: "
    case ValidationError => "Invalid request: "
    case UnknownError => "Unknown error: "
  }

  /** The classification of `e` as type `t`. */
  function Info(t: ErrorType, e: RaisedError, transient: bool): ErrorInfo {
    ErrorInfo(t, MessagePrefix(t) + e.text, transient, e)
  }

  /**
   * `classify_error`: the first keyword group, in priority order, found in
   * the lower-cased text decides the type. Only authentication and
   * validation errors are permanent; an unclassified error is transient.
   */
  function ClassifyError(e: RaisedError): (r: ErrorInfo)
    ensures r.isTransient <==> r.errorType != AuthError && r.errorType != ValidationError
    ensures r.message == MessagePrefix(r.errorType) + e.text && r.originalError == e
  {
    var s := Lower(e.text);
    if Contains(s, "network") || Contains(s, "connection") || Contains(s, "dns") || Contains(s, "unreachable") then
      Info(NetworkError, e, true)
    else if Contains(s, "timeout") || e.isTimeoutError then
      Info(Timeout, e, true)
    else if Contains(s, "rate limit") || Contains(s, "429") then
      Info(RateLimit, e, true)
    else if Contains(s, "500") || Contains(s, "502") || Contains(s, "503") then
      Info(ServerError, e, true)
    else if Contains(s, "auth") || Contains(s, "unauthorized") || Contains(s, "forbidden") then
      Info(AuthError, e, false)
    else if Contains(s, "validation") || Contains(s, "invalid") then
      Info(ValidationError, e, false)
    else
      Info(UnknownError, e, true)
  }

  // Each type's keyword list, spelled out as the disjunction the classifier tests.

  lemma NetworkSignals(e: RaisedError)
    ensures var s := Lower(e.text);
      Signals(NetworkError, e) <==> Contains(s, "network") || Contains(s, "connection") || Contains(s, "dns") || Contains(s, "unreachable")
  {
    var k := KeywordsOf(NetworkError);
    assert k[1..] == ["connection", "dns", "unreachable"];
    assert k[1..][1..] == ["dns", "unreachable"];
    assert k[1..][1..][1..] == ["unreachable"];
    assert k[1..][1..][1..][1..] == [];
  }

  lemma TimeoutSignals(e: RaisedError)
    ensures Signals(Timeout, e) <==> Contains(Lower(e.text), "timeout") || e.isTimeoutError
  {
    assert KeywordsOf(Timeout)[1..] == [];
  }

  lemma RateLimitSignals(e: RaisedError)
    ensures Signals(RateLimit, e) <==> Contains(Lower(e.text), "rate limit") || Contains(Lower(e.text), "429")
  {
    assert KeywordsOf(RateLimit)[1..] == ["429"];
    assert KeywordsOf(RateLimit)[1..][1..] == [];
  }

  lemma ServerSignals(e: RaisedError)
    ensures var s := Lower(e.text);
      Signals(ServerError, e) <==> Contains(s, "500") || Contains(s, "502") || Contains(s, "503")
  {
    var k := KeywordsOf(ServerError);
    assert k[1..] == ["502", "503"];
    assert k[1..][1..] == ["503"];
    assert k[1..][1..][1..] == [];
  }

  lemma AuthSignals(e: RaisedError)
    ensures var s := Lower(e.text);
      Signals(AuthError, e) <==> Contains(s, "auth") || Contains(s, "unauthorized") || Contains(s, "forbidden")
  {
    var k := KeywordsOf(AuthError);
    assert k[1..] == ["unauthorized", "forbidden"];
    assert k[1..][1..] == ["forbidden"];
    assert k[1..][1..][1..] == [];
  }

  lemma ValidationSignals(e: RaisedError)
    ensures Signals(ValidationError, e) <==> Contains(Lower(e.text), "validation") || Contains(Lower(e.text), "invalid")
  {
    assert KeywordsOf(ValidationError)[1..] == ["invalid"];
    assert KeywordsOf(ValidationError)[1..][1..] == [];
  }

  /** The classifier picks the first error type, in priority order, that the error signals. */
  lemma ClassifyFollowsPriority(e: RaisedError)
    ensures ClassifyError(e).errorType == FirstSignalled(e, Priority)
  {
    NetworkSignals(e);
    TimeoutSignals(e);
    RateLimitSignals(e);
    ServerSignals(e);
    AuthSignals(e);
    ValidationSignals(e);
    var ts := Priority;
    assert ts[1..] == [Timeout, RateLimit, ServerError, AuthError, ValidationError];
    assert ts[2..] == [RateLimit, ServerError, AuthError, ValidationError];
    assert ts[3..] == [ServerError, AuthError, ValidationError];
    assert ts[4..] == [AuthError, ValidationError];
    assert ts[5..] == [ValidationError];
    assert ts[6..] == [];
  }

  /** A type signalled with none signalled before it is the one picked. */
  lemma {:induction false} FirstSignalledIsFirst(e: RaisedError, ts: seq<ErrorType>, i: nat)
    requires i < |ts|
    requires Signals(ts[i], e) && forall j :: 0 <= j < i ==> !Signals(ts[j], e)
    ensures FirstSignalled(e, ts) == ts[i]
    decreases i
  {
    if i > 0 {
      assert !Signals(ts[0], e);
      FirstSignalledIsFirst(e, ts[1..], i - 1);
    }
  }

  /** The type picked, unless unknown, is signalled, and no type before its place in `ts` is. */
  lemma {:induction false} FirstSignalledIsSignalled(e: RaisedError, ts: seq<ErrorType>)
    requires UnknownError !in ts
    ensures FirstSignalled(e, ts) != UnknownError ==>
      && Signals(FirstSignalled(e, ts), e)
      && exists i :: 0 <= i < |ts| && ts[i] == FirstSignalled(e, ts) && forall j :: 0 <= j < i ==> !Signals(ts[j], e)
    decreases |ts|
  {
    if ts != [] && !Signals(ts[0], e) {
      FirstSignalledIsSignalled(e, ts[1..]);
      if FirstSignalled(e, ts) != UnknownError {
        var i :| 0 <= i < |ts[1..]| && ts[1..][i] == FirstSignalled(e, ts) && forall j :: 0 <= j < i ==> !Signals(ts[1..][j], e);
        assert ts[i + 1] == FirstSignalled(e, ts);
        assert forall j :: 1 <= j < i + 1 ==> ts[j] == ts[1..][j - 1];
      }
    } else if ts != [] {
      assert ts[0] == FirstSignalled(e, ts);
    }
  }

  /** With nothing signalled the error is unknown, and transient. */
  lemma {:induction false} NothingSignalledIsUnknown(e: RaisedError, ts: seq<ErrorType>)
    requires UnknownError !in ts
    ensures FirstSignalled(e, ts) == UnknownError <==> forall j :: 0 <= j < |ts| ==> !Signals(ts[j], e)
    decreases |ts|
  {
    if ts != [] {
      NothingSignalledIsUnknown(e, ts[1..]);
      assert forall j :: 1 <= j < |ts| ==> ts[j] == ts[1..][j - 1];
    }
  }

  // ---------------------------------------------------------------------
  // LinearConnectionCache
  // ---------------------------------------------------------------------

  const DefaultFailureThreshold: int := 3
  const DefaultCacheDuration: int := 300

  /** The four fields of the cache that its methods update. */
  datatype CacheState = CacheState(
    consecutiveFailures: nat,
    availability: Availability,
    cachedAt: Option<int>,
    lastError: Option<ErrorInfo>)

  /** A new cache, and the one `record_success` leaves. */
  const Fresh: CacheState := CacheState(0, Available, None, None)

  /**
   * The cache's invariant: it is available exactly when there are no
   * consecutive failures, exactly when no error is remembered; an
   * unavailable status always carries the time it was cached; and the
   * cache never reports the service disabled.
   */
  ghost predicate Consistent(s: CacheState) {
    && (s.availability == Available <==> s.consecutiveFailures == 0)
    && (s.consecutiveFailures == 0 <==> s.lastError.None?)
    && (s.availability == Unavailable ==> s.cachedAt.Some?)
    && s.availability != Disabled
  }

  /**
   * `record_failure` at time `now`: one more failure, the error remembered,
   * and never available afterwards: unavailable since `now` on a permanent
   * error or once the failures reach the threshold, degraded otherwise.
   */
  function AfterFailure(s: CacheState, info: ErrorInfo, now: int, threshold: int): (r: CacheState)
    ensures r.consecutiveFailures == s.consecutiveFailures + 1 && r.lastError == Some(info)
    ensures r.availability == Unavailable <==> !info.isTransient || r.consecutiveFailures >= threshold
    ensures r.availability == Unavailable ==> r.cachedAt == Some(now)
    ensures r.availability != Unavailable ==> r.availability == Degraded && r.cachedAt == s.cachedAt
  {
    var failures := s.consecutiveFailures + 1;
    if !info.isTransient then
      CacheState(failures, Unavailable, Some(now), Some(info))
    else if failures >= threshold then
      CacheState(failures, Unavailable, Some(now), Some(info))
    else
      // the source's last guard, at least one failure, always holds here
      CacheState(failures, Degraded, s.cachedAt, Some(info))
  }

  /** The cached unavailability has outlived `duration` at time `now`. */
  predicate Expired(s: CacheState, now: int, duration: int) {
    s.availability == Unavailable && s.cachedAt.Some? && now - s.cachedAt.value > duration
  }

  /**
   * The expiry check at the start of `is_available`: an expired
   * unavailable status becomes degraded with a single failure on record;
   * any other state is left alone.
   */
  function AfterExpiryCheck(s: CacheState, now: int, duration: int): (r: CacheState)
    ensures Expired(s, now, duration) ==>
      r == CacheState(1, Degraded, s.cachedAt, s.lastError)
    ensures !Expired(s, now, duration) ==> r == s
  {
    if Expired(s, now, duration) then s.(availability := Degraded, consecutiveFailures := 1) else s
  }

  /** The answer of `is_available` on the checked state. */
  predicate Admits(s: CacheState) {
    s.availability == Available || s.availability == Degraded
  }

  /** A new cache is consistent, and every transition keeps the cache consistent. */
  lemma TransitionsKeepConsistency(s: CacheState, info: ErrorInfo, now: int, threshold: int, duration: int)
    ensures Consistent(Fresh)
    ensures Consistent(s) ==> Consistent(AfterFailure(s, info, now, threshold))
    ensures Consistent(s) ==> Consistent(AfterExpiryCheck(s, now, duration))
  {
  }

  /** A consistent cache refuses calls exactly when it is unavailable and has not yet expired. */
  lemma AdmitsUnlessCachedUnavailable(s: CacheState, now: int, duration: int)
    requires Consistent(s)
    ensures !Admits(AfterExpiryCheck(s, now, duration)) <==>
      s.availability == Unavailable && now - s.cachedAt.value <= duration
  {
  }

  /** `record_failure` applied once per error, in order, at the given times. */
  function FailSeveral(s: CacheState, infos: seq<ErrorInfo>, times: seq<int>, threshold: int): (r: CacheState)
    requires |times| == |infos|
    decreases |infos|
  {
    if infos == [] then s
    else FailSeveral(AfterFailure(s, infos[0], times[0], threshold), infos[1..], times[1..], threshold)
  }

  /**
   * Failures accumulate: after `n` more failures the counter has grown by
   * `n`, and once it reaches the threshold the cache is unavailable, even
   * if every error was transient.
   */
  lemma {:induction false} FailuresReachThreshold(s: CacheState, infos: seq<ErrorInfo>, times: seq<int>, threshold: int)
    requires |times| == |infos|
    ensures FailSeveral(s, infos, times, threshold).consecutiveFailures == s.consecutiveFailures + |infos|
    ensures |infos| > 0 && s.consecutiveFailures + |infos| >= threshold ==>
      FailSeveral(s, infos, times, threshold).availability == Unavailable
    decreases |infos|
  {
    if infos != [] {
      var next := AfterFailure(s, infos[0], times[0], threshold);
      FailuresReachThreshold(next, infos[1..], times[1..], threshold);
    }
  }

  /** `LinearConnectionCache`. */
  class ConnectionCache {
    const failureThreshold: int
    const cacheDuration: int

    var consecutiveFailures: nat
    var availability: Availability
    var cachedAt: Option<int>
    var lastError: Option<ErrorInfo>

    function State(): CacheState
      reads this
    {
      CacheState(consecutiveFailures, availability, cachedAt, lastError)
    }

    ghost predicate Valid()
      reads this
    {
      Consistent(State())
    }

    /** A cache with the given threshold and duration (3 failures and 300 seconds by default), fresh and available. */
    constructor(failureThreshold: int, cacheDuration: int)
      ensures this.failureThreshold == failureThreshold && this.cacheDuration == cacheDuration
      ensures State() == Fresh && Valid()
    {
      this.failureThreshold := failureThreshold;
      this.cacheDuration := cacheDuration;
      consecutiveFailures := 0;
      availability := Available;
      cachedAt := None;
      lastError := None;
    }

    /** `record_success`: back to the fresh state. */
    method RecordSuccess()
      modifies this
      ensures State() == Fresh && Valid()
    {
      consecutiveFailures := 0;
      availability := Available;
      cachedAt := None;
      lastError := None;
    }

    /** `record_failure`, at time `now`. */
    method RecordFailure(info: ErrorInfo, now: int)
      modifies this
      ensures State() == AfterFailure(old(State()), info, now, failureThreshold)
      ensures old(Valid()) ==> Valid()
    {
      TransitionsKeepConsistency(State(), info, now, failureThreshold, cacheDuration);
      consecutiveFailures := consecutiveFailures + 1;
      lastError := Some(info);
      if !info.isTransient {
        availability := Unavailable;
        cachedAt := Some(now);
      } else if consecutiveFailures >= failureThreshold {
        availability := Unavailable;
        cachedAt := Some(now);
      } else if consecutiveFailures >= 1 {
        availability := Degraded;
      }
    }

    /** `is_available`, at time `now`: expire a stale unavailable status, then admit unless unavailable. */
    method IsAvailable(now: int) returns (r: bool)
      modifies this
      ensures State() == AfterExpiryCheck(old(State()), now, cacheDuration)
      ensures r == Admits(State())
      ensures old(Valid()) ==> Valid()
    {
      if availability == Unavailable && cachedAt.Some? {
        var elapsed := now - cachedAt.value;
        if elapsed > cacheDuration {
          availability := Degraded;
          consecutiveFailures := 1;
        }
      }
      r := availability == Available || availability == Degraded;
    }

    /** `get_status`: the current availability, never `Disabled`, and available exactly when nothing has failed. */
    function GetStatus(): (r: Availability)
      reads this
      requires Valid()
      ensures r != Disabled
      ensures r == Available <==> consecutiveFailures == 0
    {
      availability
    }

    /** `get_last_error`: the error remembered, present exactly when the cache is not available. */
    function GetLastError(): (r: Option<ErrorInfo>)
      reads this
      requires Valid()
      ensures r.Some? <==> availability != Available
    {
      lastError
    }
  }

  /** The module-level `_connection_cache` slot. */
  class ErrorHandling {
    var connectionCache: ConnectionCache

    constructor()
      ensures fresh(connectionCache)
      ensures connectionCache.State() == Fresh && connectionCache.Valid()
      ensures connectionCache.failureThreshold == DefaultFailureThreshold
      ensures connectionCache.cacheDuration == DefaultCacheDuration
    {
      connectionCache := new ConnectionCache(DefaultFailureThreshold, DefaultCacheDuration);
    }

    /** `reset_connection_cache`: a new cache with the default settings replaces the old one, which is left as it was. */
    method ResetConnectionCache()
      modifies this
      ensures fresh(connectionCache)
      ensures connectionCache.State() == Fresh && connectionCache.Valid()
      ensures connectionCache.failureThreshold == DefaultFailureThreshold
      ensures connectionCache.cacheDuration == DefaultCacheDuration
    {
      connectionCache := new ConnectionCache(DefaultFailureThreshold, DefaultCacheDuration);
    }
  }

  // ---------------------------------------------------------------------
  // retry_with_backoff
  // ---------------------------------------------------------------------

  /** What one call of the operation does: return a value or raise (a timeout of `wait_for` included). */
  datatype Outcome<T> = Returned(value: T) | Raised(error: RaisedError)

  /** `RetryConfig`, in whole seconds; the per-request timeout shows only through `Raised` outcomes. */
  datatype RetryConfig = RetryConfig(maxRetries: int, initialDelay: int, maxDelay: int, exponentialBase: int, timeout: int)

  const DefaultRetryConfig: RetryConfig := RetryConfig(3, 1, 30, 2, 10)

  /** The delay before the next attempt: multiplied by the base, capped at the maximum (the smaller of the two). */
  function NextDelay(delay: int, config: RetryConfig): (r: int)
    ensures r <= config.maxDelay && r <= delay * config.exponentialBase
    ensures r == delay * config.exponentialBase || r == config.maxDelay
  {
    if delay * config.exponentialBase <= config.maxDelay then delay * config.exponentialBase else config.maxDelay
  }

  /**
   * The observable run of `retry_with_backoff`: whether it succeeded and
   * with what, how many calls it made, the delays it slept, and the error
   * it recorded as a failure in the cache.
   */
  datatype RetryRun<T> = RetryRun(success: bool, result: Option<T>, calls: nat, waits: seq<int>, recorded: Option<ErrorInfo>)

  /** The run from attempt number `attempt` on, waiting `delay` before the next attempt; `op(i)` is the outcome of call `i`. */
  function RunFrom<T>(op: nat -> Outcome<T>, classify: RaisedError -> ErrorInfo, config: RetryConfig, attempt: nat, delay: int): RetryRun<T>
    requires attempt <= config.maxRetries
    decreases config.maxRetries - attempt
  {
    match op(attempt)
    case Returned(v) => RetryRun(true, Some(v), attempt + 1, [], None)
    case Raised(e) =>
      var info := classify(e);
      if !info.isTransient || attempt >= config.maxRetries then
        RetryRun(false, None, attempt + 1, [], Some(info))
      else
        var rest := RunFrom(op, classify, config, attempt + 1, NextDelay(delay, config));
        rest.(waits := [delay] + rest.waits)
  }

  /** The run of the attempt loop with the classifier `classify`; a negative retry count makes no attempt at all. */
  function RetryWith<T>(op: nat -> Outcome<T>, classify: RaisedError -> ErrorInfo, config: RetryConfig): RetryRun<T> {
    if config.maxRetries < 0 then RetryRun(false, None, 0, [], None)
    else RunFrom(op, classify, config, 0, config.initialDelay)
  }

  /** The run of `retry_with_backoff`, which classifies with `classify_error`. */
  function Retry<T>(op: nat -> Outcome<T>, config: RetryConfig): RetryRun<T> {
    RetryWith(op, ClassifyError, config)
  }

  /** The cache after a run: reset on success, one failure recorded when an attempt failed, untouched otherwise. */
  function CacheAfterRun<T>(s: CacheState, run: RetryRun<T>, now: int, threshold: int): (r: CacheState)
    ensures run.success ==> r == Fresh
    ensures !run.success && run.recorded.Some? ==> r == AfterFailure(s, run.recorded.value, now, threshold)
    ensures !run.success && run.recorded.Some? ==>
      r.consecutiveFailures == s.consecutiveFailures + 1 && r.lastError == run.recorded
    ensures !run.success && run.recorded.None? ==> r == s
  {
    if run.success then Fresh
    else if run.recorded.Some? then AfterFailure(s, run.recorded.value, now, threshold)
    else s
  }

  /** Every call before the last one raised a transient error. */
  ghost predicate RetriedTransient<T>(op: nat -> Outcome<T>, classify: RaisedError -> ErrorInfo, from: nat, to: int) {
    forall i :: from <= i < to ==> op(i).Raised? && classify(op(i).error).isTransient
  }

  /**
   * A run from attempt `attempt` ends with call `r.calls - 1`, no later than
   * the last attempt allowed, after one wait per retry; every earlier call
   * raised a transient error; it succeeds exactly when that last call
   * returned, and otherwise records that call's classified error.
   */
  lemma {:induction false} RunFromAttempts<T>(op: nat -> Outcome<T>, classify: RaisedError -> ErrorInfo, config: RetryConfig, attempt: nat, delay: int)
    requires attempt <= config.maxRetries
    ensures var r := RunFrom(op, classify, config, attempt, delay);
      && attempt < r.calls <= config.maxRetries + 1
      && |r.waits| == r.calls - 1 - attempt
      && RetriedTransient(op, classify, attempt, r.calls - 1)
      && (r.success <==> op(r.calls - 1).Returned?)
      && (r.success ==> r.result == Some(op(r.calls - 1).value) && r.recorded == None)
      && (!r.success ==> r.result == None && r.recorded == Some(classify(op(r.calls - 1).error)))
      && (!r.success && r.calls <= config.maxRetries ==> !classify(op(r.calls - 1).error).isTransient)
    decreases config.maxRetries - attempt
  {
    var r := RunFrom(op, classify, config, attempt, delay);
    if op(attempt).Raised? && classify(op(attempt).error).isTransient && attempt < config.maxRetries {
      RunFromAttempts(op, classify, config, attempt + 1, NextDelay(delay, config));
    }
  }

  /** The waits of a run start at `delay`, and each next one is the previous one grown by `NextDelay`. */
  lemma {:induction false} RunFromWaits<T>(op: nat -> Outcome<T>, classify: RaisedError -> ErrorInfo, config: RetryConfig, attempt: nat, delay: int)
    requires attempt <= config.maxRetries
    ensures var w := RunFrom(op, classify, config, attempt, delay).waits;
      && (|w| > 0 ==> w[0] == delay)
      && (forall k :: 0 <= k < |w| - 1 ==> w[k + 1] == NextDelay(w[k], config))
    decreases config.maxRetries - attempt
  {
    if op(attempt).Raised? && classify(op(attempt).error).isTransient && attempt < config.maxRetries {
      var next := NextDelay(delay, config);
      RunFromWaits(op, classify, config, attempt + 1, next);
      var w := RunFrom(op, classify, config, attempt, delay).waits;
      var w' := RunFrom(op, classify, config, attempt + 1, next).waits;
      assert w == [delay] + w';
      forall k | 0 <= k < |w| - 1
        ensures w[k + 1] == NextDelay(w[k], config)
      {
        if k > 0 {
          assert w[k] == w'[k - 1] && w[k + 1] == w'[k];
        }
      }
    }
  }

  /**
   * `retry_with_backoff` calls the operation at most `max_retries + 1`
   * times and at least once when that is positive; every call but the last
   * raised a transient error; it succeeds exactly when the last call
   * returned, with that call's value; a run that stops early stopped on a
   * permanent error; and a failed run records exactly the last error.
   */
  lemma RetryAttempts<T>(op: nat -> Outcome<T>, config: RetryConfig)
    ensures var r := Retry(op, config);
      && (config.maxRetries < 0 ==> r.calls == 0 && !r.success && r.recorded.None? && r.waits == [])
      && (config.maxRetries >= 0 ==>
        && 0 < r.calls <= config.maxRetries + 1
        && |r.waits| == r.calls - 1
        && RetriedTransient(op, ClassifyError, 0, r.calls - 1)
        && (r.success <==> op(r.calls - 1).Returned?)
        && (r.success ==> r.result == Some(op(r.calls - 1).value) && r.recorded.None?)
        && (!r.success ==> r.result.None? && r.recorded == Some(ClassifyError(op(r.calls - 1).error)))
        && (!r.success && r.calls <= config.maxRetries ==> !ClassifyError(op(r.calls - 1).error).isTransient))
  {
    if config.maxRetries >= 0 {
      RunFromAttempts(op, ClassifyError, config, 0, config.initialDelay);
    }
  }

  /** A permanent error ends the run at once: no later call is made and the run fails. */
  lemma PermanentErrorStops<T>(op: nat -> Outcome<T>, config: RetryConfig, i: nat)
    requires i < Retry(op, config).calls
    requires op(i).Raised? && !ClassifyError(op(i).error).isTransient
    ensures Retry(op, config).calls == i + 1 && !Retry(op, config).success
  {
    RetryAttempts(op, config);
  }

  /** The delays grow geometrically from the initial delay and, after the first, never exceed the maximum. */
  lemma RetryBackoff<T>(op: nat -> Outcome<T>, config: RetryConfig)
    ensures var w := Retry(op, config).waits;
      && (|w| > 0 ==> w[0] == config.initialDelay)
      && (forall k :: 0 <= k < |w| - 1 ==> w[k + 1] == NextDelay(w[k], config))
      && (forall k :: 1 <= k < |w| ==> w[k] <= config.maxDelay)
  {
    if config.maxRetries >= 0 {
      RunFromWaits(op, ClassifyError, config, 0, config.initialDelay);
    }
    var w := Retry(op, config).waits;
    forall k | 1 <= k < |w|
      ensures w[k] <= config.maxDelay
    {
      assert w[k] == NextDelay(w[k - 1], config);
    }
  }

  /**
   * One run records at most one failure in a consistent cache and keeps it
   * consistent; a run that made attempts and failed records exactly one
   * failure, with the error it classified last.
   */
  lemma RetryKeepsCacheConsistent<T>(s: CacheState, op: nat -> Outcome<T>, config: RetryConfig, now: int, threshold: int)
    requires Consistent(s)
    ensures var r := CacheAfterRun(s, Retry(op, config), now, threshold);
      && Consistent(r)
      && r.consecutiveFailures <= s.consecutiveFailures + 1
    ensures var run := Retry(op, config);
      var r := CacheAfterRun(s, run, now, threshold);
      config.maxRetries >= 0 && !run.success ==>
        && r.consecutiveFailures == s.consecutiveFailures + 1
        && run.recorded.Some? && r.lastError == run.recorded
  {
    RetryAttempts(op, config);
    TransitionsKeepConsistency(s, ErrorInfo(UnknownError, "", true, RaisedError("", false)), now, threshold, 0);
    var run := Retry(op, config);
    if !run.success && run.recorded.Some? {
      TransitionsKeepConsistency(s, run.recorded.value, now, threshold, 0);
    }
  }

  /**
   * The attempt loop of `retry_with_backoff`: call, classify a raised
   * error, stop on success, on a permanent error or after the last retry,
   * and otherwise sleep and grow the delay. The classifier is a parameter
   * so that the loop's proof does not depend on its keywords.
   */
  method RunAttempts<T>(op: nat -> Outcome<T>, classify: RaisedError -> ErrorInfo, config: RetryConfig) returns (run: RetryRun<T>)
    ensures run == RetryWith(op, classify, config)
  {
    var delay := config.initialDelay;
    var lastErrorInfo: Option<ErrorInfo> := None;
    var waits := [];
    var attempt: nat := 0;
    while attempt < config.maxRetries + 1
      invariant attempt <= config.maxRetries || (attempt == 0 && config.maxRetries < 0)
      invariant config.maxRetries >= 0 ==>
        var rest := RunFrom(op, classify, config, attempt, delay);
        RetryWith(op, classify, config) == rest.(waits := waits + rest.waits)
    {
      var outcome := op(attempt);
      if outcome.Returned? {
        return RetryRun(true, Some(outcome.value), attempt + 1, waits, None);
      }
      lastErrorInfo := Some(classify(outcome.error));
      if !lastErrorInfo.value.isTransient {
        return RetryRun(false, None, attempt + 1, waits, lastErrorInfo);
      }
      if attempt >= config.maxRetries {
        return RetryRun(false, None, attempt + 1, waits, lastErrorInfo);
      }
      waits := waits + [delay];
      delay := NextDelay(delay, config);
      attempt := attempt + 1;
    }
    return RetryRun(false, None, 0, [], None);
  }

  /**
   * `retry_with_backoff` against the cache `cache`, at time `now`: the
   * attempts, then a success or the one failure recorded; `waits` are the
   * delays it sleeps.
   */
  method RetryWithBackoff<T>(op: nat -> Outcome<T>, config: RetryConfig, cache: ConnectionCache, now: int)
    returns (success: bool, result: Option<T>, waits: seq<int>)
    modifies cache
    ensures success == Retry(op, config).success && result == Retry(op, config).result
    ensures waits == Retry(op, config).waits
    ensures cache.State() == CacheAfterRun(old(cache.State()), Retry(op, config), now, cache.failureThreshold)
  {
    var run := RunAttempts(op, ClassifyError, config);
    if run.success {
      cache.RecordSuccess();
    } else if run.recorded.Some? {
      cache.RecordFailure(run.recorded.value, now);
    }
    return run.success, run.result, run.waits;
  }

  // ---------------------------------------------------------------------
  // linear_operation_with_fallback
  // ---------------------------------------------------------------------

  /** The result of a cache-gated operation, the number of calls it made and the cache it leaves. */
  datatype FallbackRun<T> = FallbackRun(value: T, calls: nat, cache: CacheState)

  /**
   * `linear_operation_with_fallback`: when the (expiry-checked) cache
   * refuses, the fallback without any call; otherwise the operation's value
   * if the retries succeed and the fallback if they do not.
   */
  function WithFallback<T>(s: CacheState, op: nat -> Outcome<T>, config: RetryConfig, now: int, fallback: T, threshold: int, duration: int): (r: FallbackRun<T>)
    ensures !Admits(AfterExpiryCheck(s, now, duration)) ==>
      r.value == fallback && r.calls == 0 && r.cache == AfterExpiryCheck(s, now, duration)
    ensures Admits(AfterExpiryCheck(s, now, duration)) ==> r.calls == Retry(op, config).calls
    ensures Admits(AfterExpiryCheck(s, now, duration)) && Retry(op, config).success ==>
      Retry(op, config).result == Some(r.value) && r.cache == Fresh
    ensures !Retry(op, config).success ==> r.value == fallback
    ensures Admits(AfterExpiryCheck(s, now, duration)) ==>
      r.cache == CacheAfterRun(AfterExpiryCheck(s, now, duration), Retry(op, config), now, threshold)
    ensures Admits(AfterExpiryCheck(s, now, duration)) && config.maxRetries >= 0 && !Retry(op, config).success ==>
      && r.cache.consecutiveFailures == AfterExpiryCheck(s, now, duration).consecutiveFailures + 1
      && r.cache.lastError == Retry(op, config).recorded
  {
    var checked := AfterExpiryCheck(s, now, duration);
    if !Admits(checked) then FallbackRun(fallback, 0, checked)
    else
      var run := Retry(op, config);
      RetryAttempts(op, config);
      FallbackRun(if run.success then run.result.value else fallback, run.calls, CacheAfterRun(checked, run, now, threshold))
  }

  /** A run through the wrapper keeps a consistent cache consistent. */
  lemma FallbackKeepsCacheConsistent<T>(s: CacheState, op: nat -> Outcome<T>, config: RetryConfig, now: int, fallback: T, threshold: int, duration: int)
    requires Consistent(s)
    ensures Consistent(WithFallback(s, op, config, now, fallback, threshold, duration).cache)
  {
    var checked := AfterExpiryCheck(s, now, duration);
    TransitionsKeepConsistency(s, ErrorInfo(UnknownError, "", true, RaisedError("", false)), now, threshold, duration);
    if Admits(checked) {
      RetryKeepsCacheConsistent(checked, op, config, now, threshold);
    }
  }

  /** `linear_operation_with_fallback` against the cache `cache`, at time `now`. */
  method LinearOperationWithFallback<T>(op: nat -> Outcome<T>, config: RetryConfig, cache: ConnectionCache, now: int, fallback: T)
    returns (r: T)
    modifies cache
    ensures var run := WithFallback(old(cache.State()), op, config, now, fallback, cache.failureThreshold, cache.cacheDuration);
      r == run.value && cache.State() == run.cache
  {
    var available := cache.IsAvailable(now);
    if !available {
      return fallback;
    }
    RetryAttempts(op, config);
    var success, result, _ := RetryWithBackoff(op, config, cache, now);
    if success {
      return result.value;
    }
    return fallback;
  }
}
