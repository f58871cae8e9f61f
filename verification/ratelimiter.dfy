/**
 * `RateLimiterService`: a rate gate per upstream (ProtonDB and the Steam
 * store), each followed by a resilience pipeline whose retry and
 * circuit-breaker strategies are configured by two outcome predicates.
 *
 * Time is an integer count of milliseconds; the gate's initial timestamp
 * `DateTime.MinValue` is 0. The gate's mutex only serialises concurrent
 * waiters, so waits are modelled one after another.
 */
module RateLimiter {
  import opened Common

  /** A rate gate: the minimum spacing and the time of the last admission. */
  datatype Gate = Gate(minInterval: nat, last: int)

  /** `new RateGate(minInterval)`: a non-positive interval is clamped to zero; nothing admitted yet. */
  function NewGate(minIntervalMs: int): (g: Gate)
    ensures g.last == 0
    ensures g.minInterval as int >= minIntervalMs
    ensures minIntervalMs > 0 ==> g.minInterval == minIntervalMs
    ensures minIntervalMs <= 0 ==> g.minInterval == 0
  {
    Gate(if minIntervalMs <= 0 then 0 else minIntervalMs, 0)
  }

  /** Where the caller's cancellation token fires, if at all. */
  datatype Cancel = NotCancelled | WhileQueued | DuringDelay

  /**
   * One call of `WaitAsync`: the clock reading taken once the mutex is held (`now`), the reading
   * taken after the pause, if any (`after`), and the cancellation.
   */
  datatype Call = Call(now: int, after: int, cancel: Cancel)

  /** The earliest time the next caller may be admitted. */
  function Next(g: Gate): int {
    g.last + g.minInterval
  }

  /** The pause `WaitAsync` asks for: whatever is left until `Next`, or none. */
  function Delay(g: Gate, now: int): (d: nat)
    ensures d == 0 <==> Next(g) <= now
    ensures d > 0 ==> now + d == Next(g)
  {
    if Next(g) > now then Next(g) - now else 0
  }

  /** The clock does not go backwards, and a pause lasts at least as long as asked. */
  predicate Honest(g: Gate, c: Call) {
    c.now <= c.after && (Delay(g, c.now) > 0 ==> Next(g) <= c.after)
  }

  /** What a wait ends with: the gate afterwards, and whether the caller was admitted or saw the cancellation. */
  datatype Waited = Waited(gate: Gate, admitted: bool)

  /**
   * `WaitAsync`. A token cancelled while queued for the mutex throws at once; one cancelled during the
   * pause throws out of the pause. Either way the timestamp is untouched. Otherwise the caller is
   * admitted and the timestamp becomes the clock reading after the pause.
   */
  function WaitAsync(g: Gate, c: Call): (w: Waited)
    requires Honest(g, c)
    ensures w.admitted <==> c.cancel == NotCancelled || (c.cancel == DuringDelay && Delay(g, c.now) == 0)
    ensures !w.admitted ==> w.gate == g
    ensures w.admitted ==> w.gate.minInterval == g.minInterval && w.gate.last == c.after
    ensures w.admitted ==> w.gate.last >= Next(g) && w.gate.last >= c.now
  {
    match c.cancel
    case WhileQueued => Waited(g, false)
    case DuringDelay => if Delay(g, c.now) > 0 then Waited(g, false) else Waited(Gate(g.minInterval, c.after), true)
    case NotCancelled => Waited(Gate(g.minInterval, c.after), true)
  }

  /** With a zero interval no wait ever pauses. */
  lemma ZeroIntervalNeverDelays(minIntervalMs: int, last: int, now: int)
    requires minIntervalMs <= 0 && last <= now
    ensures Delay(Gate(NewGate(minIntervalMs).minInterval, last), now) == 0
  {
  }

  /** Every call of a run meets `Honest` against the gate as the earlier calls left it. */
  predicate HonestRun(g: Gate, calls: seq<Call>)
    decreases |calls|
  {
    |calls| == 0 || (Honest(g, calls[0]) && HonestRun(WaitAsync(g, calls[0]).gate, calls[1..]))
  }

  /** A run of waits on one gate: the gate at the end and the admission times, in order. */
  function Run(g: Gate, calls: seq<Call>): (r: (Gate, seq<int>))
    requires HonestRun(g, calls)
    ensures r.0.minInterval == g.minInterval
    decreases |calls|
  {
    if |calls| == 0 then (g, [])
    else
      var w := WaitAsync(g, calls[0]);
      var rest := Run(w.gate, calls[1..]);
      if w.admitted then (rest.0, [w.gate.last] + rest.1) else rest
  }

  /**
   * The gate's purpose: the first admission of a run is no earlier than `Next` of the starting gate,
   * and any two consecutive admissions are at least the minimum interval apart, cancelled waits in
   * between notwithstanding.
   */
  lemma {:induction false} AdmissionsSpaced(g: Gate, calls: seq<Call>)
    requires HonestRun(g, calls)
    ensures var adm := Run(g, calls).1;
      (|adm| > 0 ==> adm[0] >= Next(g))
      && forall k :: 0 <= k < |adm| - 1 ==> adm[k + 1] - adm[k] >= g.minInterval
    decreases |calls|
  {
    if |calls| > 0 {
      var w := WaitAsync(g, calls[0]);
      AdmissionsSpaced(w.gate, calls[1..]);
      var rest := Run(w.gate, calls[1..]).1;
      if w.admitted {
        var adm := [w.gate.last] + rest;
        forall k | 0 <= k < |adm| - 1 ensures adm[k + 1] - adm[k] >= g.minInterval {
          if k > 0 {
            assert adm[k] == rest[k - 1] && adm[k + 1] == rest[k];
          }
        }
      }
    }
  }

  /** What one pipeline attempt ends with. */
  datatype Attempt =
    | HttpError         // HttpRequestException
    | TimedOut          // TimeoutRejectedException from the timeout strategy
    | OtherError        // any other exception
    | Status(code: int) // an HTTP response

  /** The retry strategy's `ShouldHandle`: network errors, timeouts, 5xx and 429. */
  predicate RetryHandles(a: Attempt) {
    a.HttpError? || a.TimedOut? || (a.Status? && (a.code >= 500 || a.code == 429))
  }

  /** The circuit breaker's `ShouldHandle`: network errors and 5xx only. */
  predicate BreakerCounts(a: Attempt) {
    a.HttpError? || (a.Status? && a.code >= 500)
  }

  /** Every breaker failure is also retried; 429 and timeouts are retried without counting as failures. */
  lemma BreakerFailuresAreRetried(a: Attempt)
    ensures BreakerCounts(a) ==> RetryHandles(a)
    ensures RetryHandles(a) && !BreakerCounts(a) <==> a.TimedOut? || a == Status(429)
  {
  }

  /** A status in 400-499 other than 429 (a 404, say) is handed back at once and never counts against the breaker. */
  lemma ClientErrorsPassThrough(code: int)
    requires 400 <= code <= 499 && code != 429
    ensures !RetryHandles(Status(code)) && !BreakerCounts(Status(code))
  {
  }

  /** `MaxRetryAttempts`: retries after the first attempt. */
  const MaxRetryAttempts: nat := 3

  /** The retry strategy's base delay, doubled per retry (before jitter). */
  const RetryBaseDelayMs: nat := 200

  /** The timeout strategy's limit per attempt. */
  const AttemptTimeoutMs: nat := 10000

  /** The circuit breaker's sampling window, minimum throughput and break duration. */
  const BreakerSamplingMs: nat := 60000
  const BreakerMinimumThroughput: nat := 5
  const BreakerBreakMs: nat := 120000

  /** The outcome the scripted upstream gives attempt `i`; past the end of the script it is a network error. */
  function AttemptAt(script: seq<Attempt>, i: nat): Attempt {
    if i < |script| then script[i] else HttpError
  }

  /**
   * The retry strategy over one call: attempts until one is not handled or the retries are used up,
   * and hands back the last outcome. The breaker's state and the pauses are not modelled.
   */
  method RunPipeline(script: seq<Attempt>) returns (last: Attempt, attempts: nat)
    ensures 1 <= attempts <= MaxRetryAttempts + 1
    ensures forall i :: 0 <= i < attempts - 1 ==> RetryHandles(AttemptAt(script, i))
    ensures last == AttemptAt(script, attempts - 1)
    ensures attempts <= MaxRetryAttempts ==> !RetryHandles(last)
  {
    attempts := 1;
    last := AttemptAt(script, 0);
    while RetryHandles(last) && attempts <= MaxRetryAttempts
      invariant 1 <= attempts <= MaxRetryAttempts + 1
      invariant forall i :: 0 <= i < attempts - 1 ==> RetryHandles(AttemptAt(script, i))
      invariant last == AttemptAt(script, attempts - 1)
      decreases MaxRetryAttempts + 1 - attempts
    {
      attempts := attempts + 1;
      last := AttemptAt(script, attempts - 1);
    }
  }

  /** The two upstreams, each with its own gate and pipeline. */
  datatype Upstream = ProtonDbApi | SteamStore

  /** The service's state: one gate per upstream. */
  datatype Service = Service(protonDbGate: Gate, steamStoreGate: Gate)

  function GateOf(s: Service, u: Upstream): Gate {
    match u
    case ProtonDbApi => s.protonDbGate
    case SteamStore => s.steamStoreGate
  }

  function WithGate(s: Service, u: Upstream, g: Gate): (s': Service)
    ensures GateOf(s', u) == g
    ensures forall v :: v != u ==> GateOf(s', v) == GateOf(s, v)
  {
    match u
    case ProtonDbApi => s.(protonDbGate := g)
    case SteamStore => s.(steamStoreGate := g)
  }

  /** The service constructor's defaults, in milliseconds. */
  const DefaultProtonDbRateLimitMs: int := 1000
  const DefaultSteamStoreRateLimitMs: int := 600

  /**
   * `new RateLimiterService(protonMs, steamMs)`: two fresh gates. The constructor's log line divides
   * 60000 by each interval, so a zero interval makes the constructor throw (`None`).
   */
  function NewService(protonDbRateLimitMs: int, steamStoreRateLimitMs: int): (s: Option<Service>)
    ensures s.None? <==> protonDbRateLimitMs == 0 || steamStoreRateLimitMs == 0
    ensures s.Some? ==>
      GateOf(s.value, ProtonDbApi) == NewGate(protonDbRateLimitMs)
      && GateOf(s.value, SteamStore) == NewGate(steamStoreRateLimitMs)
  {
    if protonDbRateLimitMs == 0 || steamStoreRateLimitMs == 0 then None
    else Some(Service(NewGate(protonDbRateLimitMs), NewGate(steamStoreRateLimitMs)))
  }

  /**
   * `ExecuteProtonDbAsync` / `ExecuteSteamStoreAsync`: pass the upstream's gate once, then run the
   * pipeline. A cancelled wait throws before any attempt. The other upstream's gate is never touched,
   * and however many attempts the pipeline makes, the gate was passed exactly once.
   */
  method Execute(s: Service, u: Upstream, c: Call, script: seq<Attempt>)
    returns (s': Service, result: Option<Attempt>, attempts: nat)
    requires Honest(GateOf(s, u), c)
    ensures var w := WaitAsync(GateOf(s, u), c);
      (!w.admitted ==> s' == s && result.None? && attempts == 0)
      && (w.admitted ==> s' == WithGate(s, u, w.gate) && result.Some? && 1 <= attempts <= MaxRetryAttempts + 1)
    ensures forall v :: v != u ==> GateOf(s', v) == GateOf(s, v)
    ensures result.Some? ==> GateOf(s', u).last == c.after && c.after >= Next(GateOf(s, u))
    ensures result.Some? ==>
      result.value == AttemptAt(script, attempts - 1)
      && (forall i :: 0 <= i < attempts - 1 ==> RetryHandles(AttemptAt(script, i)))
      && (attempts <= MaxRetryAttempts ==> !RetryHandles(result.value))
  {
    var w := WaitAsync(GateOf(s, u), c);
    if !w.admitted {
      return s, None, 0;
    }
    s' := WithGate(s, u, w.gate);
    var last;
    last, attempts := RunPipeline(script);
    result := Some(last);
  }
}
