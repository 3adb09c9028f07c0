/**
 * The market-values request policy: the `Throttle` that spaces requests, the retry delay
 * `_compute_retry_after`, and the attempt loop `_fetch_market_batch`. The monotonic clock,
 * `time.sleep`, `random.uniform` and the network are state of the model: the clock is a
 * number that only sleeping advances, each uniform draw consumes the next value of an
 * injected stream in [0, 1), and each request gets the next of an injected series of replies.
 */
module Fetcher {
  import opened Wrappers
  import opened PyJson
  import opened PyFloat
  import opened MarketValues

  const ThrottleSeconds: real := 1.0
  const RetryJitterRange: (real, real) := (0.1, 0.3)
  const BackoffNoRetryAfter: seq<(real, real)> := [(2.0, 5.0), (5.0, 12.0), (10.0, 25.0)]
  const ServerErrorBackoff: (real, real) := (1.0, 3.0)
  const BatchDelaySeconds: real := 1.0
  const MaxAttempts: nat := 3

  /** A value of `random.random()`. */
  type Unit = u: real | 0.0 <= u < 1.0

  function MaxReal(a: real, b: real): real {
    if a >= b then a else b
  }

  /** `random.uniform(lo, hi)` for the draw `u`. */
  function Uniform(bounds: (real, real), u: Unit): (x: real)
    ensures bounds.0 <= bounds.1 ==> bounds.0 <= x <= bounds.1
  {
    var w := bounds.1 - bounds.0;
    assert w >= 0.0 ==> w * u <= w by {
      if w >= 0.0 {
        assert w * (1.0 - u) >= 0.0;
      }
    }
    bounds.0 + w * u
  }

  // ---- Throttle ----

  /** `Throttle.required_delay`: how much longer to wait until `delay` seconds have passed since the last request. */
  function RequiredDelay(delay: real, lastRequestAt: Option<real>, now: real): (d: real)
    ensures 0.0 <= d
    ensures lastRequestAt.None? ==> d == 0.0
    ensures lastRequestAt.Some? && now >= lastRequestAt.value ==> d <= MaxReal(0.0, delay)
  {
    match lastRequestAt
    case None => 0.0
    case Some(last) => MaxReal(0.0, delay - (now - last))
  }

  /** The delay is the shortest wait after which `delay` seconds have passed since the last request. */
  lemma RequiredDelayIsShortest(delay: real, last: real, now: real, w: real)
    requires 0.0 <= w
    ensures now + RequiredDelay(delay, Some(last), now) - last >= delay
    ensures w < RequiredDelay(delay, Some(last), now) ==> now + w - last < delay
  {
  }

  class Throttle {
    const delaySeconds: real
    var lastRequestAt: Option<real>

    constructor(delaySeconds: real)
      ensures this.delaySeconds == delaySeconds && lastRequestAt.None?
    {
      this.delaySeconds := delaySeconds;
      lastRequestAt := None;
    }

    function RequiredDelayAt(now: real): real
      reads this
    {
      RequiredDelay(delaySeconds, lastRequestAt, now)
    }

    /** `mark`: records the time of a request. */
    method Mark(now: real)
      modifies this
      ensures lastRequestAt == Some(now)
    {
      lastRequestAt := Some(now);
    }
  }

  // ---- Retry delay ----

  /** `float(retry_after)`, where a `ValueError` counts as 0. */
  function RetryAfterSeconds(header: string): real {
    match ParseFloat(header)
    case Some(v) => v
    case None => 0.0
  }

  /**
   * `_compute_retry_after` for the header value (`None` when absent), the attempt number, the
   * uniform draw and the throttle's required delay at that moment.
   */
  function ComputeRetryAfter(retryAfter: Option<string>, attempt: nat, u: Unit, throttleDelay: real): (w: real)
    requires attempt >= 1
    ensures w >= throttleDelay
    ensures retryAfter.Some? && retryAfter.value != [] ==>
      w >= RetryAfterSeconds(retryAfter.value) + RetryJitterRange.0
      && w <= MaxReal(RetryAfterSeconds(retryAfter.value) + RetryJitterRange.1, throttleDelay)
    ensures (retryAfter.None? || retryAfter.value == []) ==>
      var k := if attempt - 1 < |BackoffNoRetryAfter| - 1 then attempt - 1 else |BackoffNoRetryAfter| - 1;
      w >= BackoffNoRetryAfter[k].0 && w <= MaxReal(BackoffNoRetryAfter[k].1, throttleDelay)
  {
    var base :=
      if retryAfter.Some? && retryAfter.value != [] then
        RetryAfterSeconds(retryAfter.value) + Uniform(RetryJitterRange, u)
      else
        var k := if attempt - 1 < |BackoffNoRetryAfter| - 1 then attempt - 1 else |BackoffNoRetryAfter| - 1;
        Uniform(BackoffNoRetryAfter[k], u);
    MaxReal(base, throttleDelay)
  }

  /** The test scenario: `Retry-After: 2` with a jitter draw of 0.2 on an idle throttle waits 2.2 seconds. */
  lemma RetryAfterScenario()
    ensures Uniform(RetryJitterRange, 0.5) == 0.2
    ensures ComputeRetryAfter(Some("2"), 1, 0.5, 0.0) == 2.2
  {
    ParseFloatDecimal(2);
    assert PyText.Decimal(2) == "2";
  }

  // ---- The attempt loop ----

  /** What one request produced. */
  datatype Reply =
    | Ok(payload: Json)                                  // a decoded JSON body
    | HttpError(code: int, retryAfter: Option<string>)   // `HTTPError` with its `Retry-After` header
    | UrlError                                           // `URLError`
    | BadJson                                            // `json.JSONDecodeError`

  /** `_fetch_market_batch`'s result; `Crashed` is the `TypeError` decoding raises, which nothing catches. */
  datatype BatchResult = Values(values: map<int, int>) | GaveUp | Crashed

  /** The clock, the throttle's mark, the sleeps taken, and how many draws and requests were used. */
  datatype Env = Env(now: real, lastRequestAt: Option<real>, sleeps: seq<real>, drawn: nat, sent: nat)

  /** `time.sleep(d)`. */
  function SleepFor(e: Env, d: real): Env {
    e.(now := e.now + d, sleeps := e.sleeps + [d])
  }

  /** `Throttle.wait`: sleeps only when a positive delay remains. */
  function Throttled(e: Env, delay: real): Env {
    var d := RequiredDelay(delay, e.lastRequestAt, e.now);
    if d > 0.0 then SleepFor(e, d) else e
  }

  /** The pause before the next attempt after a 5xx, URL or JSON error, and the state after the draw. */
  function ErrorBackoff(e: Env, delay: real, draws: nat -> Unit): (real, Env) {
    var x := Uniform(ServerErrorBackoff, draws(e.drawn));
    var e1 := e.(drawn := e.drawn + 1);
    (MaxReal(x, RequiredDelay(delay, e1.lastRequestAt, e1.now)), e1)
  }

  /** How one attempt ends: with the batch's result, or with a retry from the state after the pause. */
  datatype Step = Finished(result: BatchResult, env: Env) | Retry(env: Env)

  /** One pass of `_fetch_market_batch`'s loop body, from state `e`. */
  function AttemptStep(e: Env, attempt: nat, delay: real, replies: nat -> Reply, draws: nat -> Unit): (s: Step)
    requires 1 <= attempt <= MaxAttempts
    ensures s.Retry? ==> attempt < MaxAttempts && Retryable(replies(Throttled(e, delay).sent))
  {
    var e1 := Throttled(e, delay);
    AfterReply(e1.(sent := e1.sent + 1, lastRequestAt := Some(e1.now)), replies(e1.sent), attempt, delay, draws)
  }

  /** What the loop body does with the reply to its request, from state `e` just after it. */
  function AfterReply(e: Env, reply: Reply, attempt: nat, delay: real, draws: nat -> Unit): (s: Step)
    requires 1 <= attempt <= MaxAttempts
    ensures s.Retry? ==> attempt < MaxAttempts && Retryable(reply)
  {
    match reply
    case Ok(payload) =>
      Finished(match MarketValuesOf(payload) case Success(m) => Values(m) case Failure(_) => Crashed, e)
    case HttpError(code, retryAfter) =>
      if code == 429 then
        var wait := ComputeRetryAfter(retryAfter, attempt, draws(e.drawn), RequiredDelay(delay, e.lastRequestAt, e.now));
        var e3 := e.(drawn := e.drawn + 1);
        if attempt == MaxAttempts then Finished(GaveUp, e3) else Retry(SleepFor(e3, wait))
      else if 500 <= code < 600 then
        if attempt == MaxAttempts then Finished(GaveUp, e)
        else
          var (wait, e3) := ErrorBackoff(e, delay, draws);
          Retry(SleepFor(e3, wait))
      else Finished(GaveUp, e)
    case _ =>
      if attempt == MaxAttempts then Finished(GaveUp, e)
      else
        var (wait, e3) := ErrorBackoff(e, delay, draws);
        Retry(SleepFor(e3, wait))
  }

  /** Attempts `attempt` to `MaxAttempts` of `_fetch_market_batch`, from state `e`. */
  function Attempts(e: Env, attempt: nat, delay: real, replies: nat -> Reply, draws: nat -> Unit): (BatchResult, Env)
    requires 1 <= attempt <= MaxAttempts
    decreases MaxAttempts - attempt
  {
    match AttemptStep(e, attempt, delay, replies, draws)
    case Finished(r, e1) => (r, e1)
    case Retry(e1) => if attempt < MaxAttempts then Attempts(e1, attempt + 1, delay, replies, draws) else (GaveUp, e1)
  }

  /** A second `Throttle.wait` straight after a first sleeps nothing: the first one used up the delay. */
  lemma ThrottledTwice(e: Env, delay: real)
    ensures Throttled(Throttled(e, delay), delay) == Throttled(e, delay)
  {
    var d := RequiredDelay(delay, e.lastRequestAt, e.now);
    if d > 0.0 {
      var e1 := SleepFor(e, d);
      assert RequiredDelay(delay, e1.lastRequestAt, e1.now) == 0.0;
    }
  }

  /**
   * The `throttle.wait()` the refresh makes before each batch but the first, and then the
   * batch's own attempts, end exactly as the attempts alone: the same result, clock and sleeps.
   */
  lemma WaitBeforeBatch(e: Env, delay: real, replies: nat -> Reply, draws: nat -> Unit)
    ensures Attempts(Throttled(e, delay), 1, delay, replies, draws) == Attempts(e, 1, delay, replies, draws)
  {
    assert AttemptStep(Throttled(e, delay), 1, delay, replies, draws) == AttemptStep(e, 1, delay, replies, draws) by {
      ThrottledTwice(e, delay);
    }
  }

  /** A reply the loop retries. */
  predicate Retryable(r: Reply) {
    match r
    case Ok(_) => false
    case HttpError(code, _) => code == 429 || 500 <= code < 600
    case _ => true
  }

  /** Every attempt sends exactly one request: a batch costs between one and `MaxAttempts` requests. */
  lemma {:induction false} AttemptsRequests(e: Env, attempt: nat, delay: real, replies: nat -> Reply, draws: nat -> Unit)
    requires 1 <= attempt <= MaxAttempts
    ensures var e1 := Attempts(e, attempt, delay, replies, draws).1;
      e.sent + 1 <= e1.sent <= e.sent + (MaxAttempts - attempt + 1)
    decreases MaxAttempts - attempt
  {
    match AttemptStep(e, attempt, delay, replies, draws)
    case Finished(_, _) =>
    case Retry(e1) =>
      AttemptsRequests(e1, attempt + 1, delay, replies, draws);
  }

  /** A reply that is not retried ends the batch after that one request. */
  lemma NotRetryableEndsBatch(e: Env, attempt: nat, delay: real, replies: nat -> Reply, draws: nat -> Unit)
    requires 1 <= attempt <= MaxAttempts
    requires !Retryable(replies(Throttled(e, delay).sent))
    ensures var (r, e1) := Attempts(e, attempt, delay, replies, draws);
      && e1.sent == e.sent + 1
      && (replies(Throttled(e, delay).sent).HttpError? ==> r == GaveUp)
      && (replies(Throttled(e, delay).sent).Ok? ==>
            r == match MarketValuesOf(replies(Throttled(e, delay).sent).payload)
                 case Success(m) => Values(m)
                 case Failure(_) => Crashed)
  {
  }

  predicate NoNegativeSleep(e: Env) {
    forall i :: 0 <= i < |e.sleeps| ==> e.sleeps[i] >= 0.0
  }

  /** Every pause is non-negative, so the clock never runs backwards; the sleeps taken before are kept. */
  lemma {:induction false} AttemptsSleepForward(e: Env, attempt: nat, delay: real, replies: nat -> Reply, draws: nat -> Unit)
    requires 1 <= attempt <= MaxAttempts
    requires NoNegativeSleep(e)
    ensures var e1 := Attempts(e, attempt, delay, replies, draws).1;
      NoNegativeSleep(e1) && e1.now >= e.now && e.sleeps <= e1.sleeps
    decreases MaxAttempts - attempt
  {
    var e1 := Throttled(e, delay);
    assert NoNegativeSleep(e1) && e1.now >= e.now && e.sleeps <= e1.sleeps;
    match AttemptStep(e, attempt, delay, replies, draws)
    case Finished(_, _) =>
    case Retry(e2) =>
      AttemptsSleepForward(e2, attempt + 1, delay, replies, draws);
  }

  /** A fetched batch holds no negative price. */
  lemma {:induction false} AttemptsValuesNonNegative(e: Env, attempt: nat, delay: real, replies: nat -> Reply, draws: nat -> Unit)
    requires 1 <= attempt <= MaxAttempts
    ensures var r := Attempts(e, attempt, delay, replies, draws).0;
      r.Values? ==> forall k :: k in r.values ==> r.values[k] >= 0
    decreases MaxAttempts - attempt
  {
    match AttemptStep(e, attempt, delay, replies, draws)
    case Finished(_, _) =>
      var reply := replies(Throttled(e, delay).sent);
      if reply.Ok? {
        MarketValuesNonNegative(reply.payload);
      }
    case Retry(e1) =>
      AttemptsValuesNonNegative(e1, attempt + 1, delay, replies, draws);
  }

  /** The replies of the retry scenario: a 429 with `Retry-After: 2`, then the market response. */
  function ScenarioReplies(n: nat): Reply {
    if n == 0 then HttpError(429, Some("2")) else Ok(TestMarketPayload())
  }

  /** A draw that makes `uniform(0.1, 0.3)` return 0.2. */
  function ScenarioDraws(n: nat): Unit {
    0.5
  }

  /**
   * With no throttle delay, the batch sleeps 2.2 seconds once, succeeds on the second request
   * with `{1: 10, 2: 0}`, and leaves the throttle marked at the time of that request.
   */
  lemma RetryScenario()
    ensures Attempts(Env(0.0, None, [], 0, 0), 1, 0.0, ScenarioReplies, ScenarioDraws)
         == (Values(map[1 := 10, 2 := 0]), Env(2.2, Some(2.2), [2.2], 1, 2))
  {
    ScenarioFirstAttempt();
    ScenarioSecondAttempt();
  }

  lemma ScenarioFirstAttempt()
    ensures AttemptStep(Env(0.0, None, [], 0, 0), 1, 0.0, ScenarioReplies, ScenarioDraws) == Retry(Env(2.2, Some(0.0), [2.2], 1, 1))
  {
    var e := Env(0.0, None, [], 0, 0);
    var e2 := Env(0.0, Some(0.0), [], 0, 1);
    assert Throttled(e, 0.0) == e;
    assert ScenarioReplies(0) == HttpError(429, Some("2"));
    var wait := ComputeRetryAfter(Some("2"), 1, ScenarioDraws(e2.drawn), RequiredDelay(0.0, e2.lastRequestAt, e2.now));
    assert wait == 2.2 by {
      assert ScenarioDraws(0) == 0.5;
      assert RequiredDelay(0.0, Some(0.0), 0.0) == 0.0;
      RetryAfterScenario();
    }
    assert SleepFor(e2.(drawn := 1), wait) == Env(2.2, Some(0.0), [2.2], 1, 1);
  }

  lemma ScenarioSecondAttempt()
    ensures AttemptStep(Env(2.2, Some(0.0), [2.2], 1, 1), 2, 0.0, ScenarioReplies, ScenarioDraws)
         == Finished(Values(map[1 := 10, 2 := 0]), Env(2.2, Some(2.2), [2.2], 1, 2))
  {
    DecodeTestResponse();
    var e := Env(2.2, Some(0.0), [2.2], 1, 1);
    assert RequiredDelay(0.0, Some(0.0), 2.2) == 0.0;
    assert Throttled(e, 0.0) == e;
    assert ScenarioReplies(1) == Ok(TestMarketPayload());
  }

  /** The `MarketRefresher` state the request policy touches. */
  class MarketFetcher {
    const throttle: Throttle
    const replies: nat -> Reply
    const draws: nat -> Unit
    var now: real
    var sleeps: seq<real>
    var drawn: nat
    var sent: nat

    function State(): Env
      reads this, throttle
    {
      Env(now, throttle.lastRequestAt, sleeps, drawn, sent)
    }

    constructor(throttleSeconds: real, replies: nat -> Reply, draws: nat -> Unit, start: real)
      ensures throttle.delaySeconds == throttleSeconds && this.replies == replies && this.draws == draws
      ensures State() == Env(start, None, [], 0, 0)
    {
      throttle := new Throttle(throttleSeconds);
      this.replies := replies;
      this.draws := draws;
      now := start;
      sleeps := [];
      drawn := 0;
      sent := 0;
    }

    method Sleep(d: real)
      modifies this
      ensures State() == SleepFor(old(State()), d)
    {
      now := now + d;
      sleeps := sleeps + [d];
    }

    method Draw(bounds: (real, real)) returns (x: real)
      modifies this
      ensures x == Uniform(bounds, draws(old(drawn)))
      ensures State() == old(State()).(drawn := old(drawn) + 1)
    {
      x := Uniform(bounds, draws(drawn));
      drawn := drawn + 1;
    }

    /** `Throttle.wait`. */
    method Wait()
      modifies this
      ensures State() == Throttled(old(State()), throttle.delaySeconds)
    {
      var d := throttle.RequiredDelayAt(now);
      if d > 0.0 {
        Sleep(d);
      }
    }

    /** `urlopen`: the next reply of the series. */
    method Request() returns (reply: Reply)
      modifies this
      ensures reply == replies(old(sent))
      ensures State() == old(State()).(sent := old(sent) + 1)
    {
      reply := replies(sent);
      sent := sent + 1;
    }

    method RetryAfter(retryAfter: Option<string>, attempt: nat) returns (w: real)
      requires attempt >= 1
      modifies this
      ensures w == ComputeRetryAfter(retryAfter, attempt, draws(old(drawn)),
                                     RequiredDelay(throttle.delaySeconds, throttle.lastRequestAt, now))
      ensures State() == old(State()).(drawn := old(drawn) + 1)
    {
      var base: real;
      if retryAfter.Some? && retryAfter.value != [] {
        var jitter := Draw(RetryJitterRange);
        base := RetryAfterSeconds(retryAfter.value) + jitter;
      } else {
        var k := if attempt - 1 < |BackoffNoRetryAfter| - 1 then attempt - 1 else |BackoffNoRetryAfter| - 1;
        base := Draw(BackoffNoRetryAfter[k]);
      }
      w := MaxReal(base, throttle.RequiredDelayAt(now));
    }

    method Backoff() returns (w: real)
      modifies this
      ensures (w, State()) == ErrorBackoff(old(State()), throttle.delaySeconds, draws)
    {
      var x := Draw(ServerErrorBackoff);
      w := MaxReal(x, throttle.RequiredDelayAt(now));
    }

    /** One pass of the attempt loop's body. */
    method Attempt(attempt: nat) returns (done: bool, r: BatchResult)
      requires 1 <= attempt <= MaxAttempts
      modifies this, throttle
      ensures done ==> AttemptStep(old(State()), attempt, throttle.delaySeconds, replies, draws) == Finished(r, State())
      ensures !done ==> AttemptStep(old(State()), attempt, throttle.delaySeconds, replies, draws) == Retry(State())
    {
      Wait();
      var reply := Request();
      throttle.Mark(now);
      done, r := Handle(reply, attempt);
    }

    /** The loop body after its request: the parsed values, a retry after a sleep, or giving up. */
    method Handle(reply: Reply, attempt: nat) returns (done: bool, r: BatchResult)
      requires 1 <= attempt <= MaxAttempts
      modifies this
      ensures done ==> AfterReply(old(State()), reply, attempt, throttle.delaySeconds, draws) == Finished(r, State())
      ensures !done ==> AfterReply(old(State()), reply, attempt, throttle.delaySeconds, draws) == Retry(State())
    {
      done := true;
      match reply
      case Ok(payload) =>
        var values := ParseMarketValues(payload);
        r := if values.Success? then Values(values.value) else Crashed;
      case HttpError(code, retryAfter) =>
        if code == 429 {
          var wait := RetryAfter(retryAfter, attempt);
          r := GaveUp;
          if attempt < MaxAttempts {
            Sleep(wait);
            done := false;
          }
        } else if 500 <= code < 600 {
          r := GaveUp;
          if attempt < MaxAttempts {
            var wait := Backoff();
            Sleep(wait);
            done := false;
          }
        } else {
          r := GaveUp;
        }
      case _ =>
        r := GaveUp;
        if attempt < MaxAttempts {
          var wait := Backoff();
          Sleep(wait);
          done := false;
        }
    }

    /** `_fetch_market_batch`: up to `MaxAttempts` requests for one batch. */
    method FetchMarketBatch() returns (r: BatchResult)
      modifies this, throttle
      ensures (r, State()) == Attempts(old(State()), 1, throttle.delaySeconds, replies, draws)
    {
      var attempt := 1;
      while true
        invariant 1 <= attempt <= MaxAttempts
        invariant Attempts(old(State()), 1, throttle.delaySeconds, replies, draws)
               == Attempts(State(), attempt, throttle.delaySeconds, replies, draws)
        decreases MaxAttempts - attempt
      {
        var done;
        done, r := Attempt(attempt);
        if done {
          return;
        }
        attempt := attempt + 1;
      }
    }
  }
}
