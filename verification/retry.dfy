/**
 * The retry discipline both HTTP clients share: a scripted network, what one
 * attempt decides, and the doubling pause between attempts.
 *
 * The network is a script: the i-th request (counting from 0) gets the i-th
 * outcome of the script, and requests past its end fail as a network error.
 */
module Retry {

  /** What one request can end with; `B` is what the client reads from the body. */
  datatype Outcome<B> =
    | Response(status: int, body: B)   // an HTTP response
    | Fault                            // any exception other than cancellation by the caller's token
    | Cancelled                        // OperationCanceledException with the token cancelled

  /** The outcome the scripted network gives the request with index `i`. */
  function OutcomeAt<B>(script: seq<Outcome<B>>, i: nat): Outcome<B> {
    if i < |script| then script[i] else Fault
  }

  /** How a client call ends: a value, or one of the exceptions it lets escape. */
  datatype Ending<T> = Returned(value: T) | ThrewArgumentOutOfRange | ThrewCancelled

  /** What one attempt decides: finish the call, or try again. */
  datatype Step<T> = Finish(ending: Ending<T>) | Again

  /** `HttpResponseMessage.IsSuccessStatusCode`. */
  predicate IsSuccess(status: int) {
    200 <= status <= 299
  }

  predicate IsClientError(status: int) {
    400 <= status <= 499
  }

  function Pow2(n: nat): (r: nat)
    ensures r >= 1
  {
    if n == 0 then 1 else 2 * Pow2(n - 1)
  }

  /** The pause after failed attempt `attempt` (1-based): `200 * 2^(attempt-1)` milliseconds. */
  function Backoff(attempt: nat): nat
    requires attempt >= 1
  {
    200 * Pow2(attempt - 1)
  }

  /** The first pause is 200 ms and each later one doubles the one before. */
  lemma BackoffDoubles(attempt: nat)
    requires attempt >= 1
    ensures attempt == 1 ==> Backoff(attempt) == 200
    ensures attempt > 1 ==> Backoff(attempt) == 2 * Backoff(attempt - 1)
  {
  }

  /** The pauses taken before the first `n` retries. */
  function Backoffs(n: nat): (r: seq<nat>)
    ensures |r| == n
    ensures forall k :: 0 <= k < n ==> r[k] == Backoff(k + 1)
  {
    if n == 0 then [] else Backoffs(n - 1) + [Backoff(n)]
  }
}
