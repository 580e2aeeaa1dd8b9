/** The HTTP retry loop and its delays. */
module HttpRetry {
  import opened Basics

  /**
   One HTTP response. `retryAfter` is the number in the Retry-After header, if there is one; `content` is what the
   caller reads.
   */
  datatype Response<+B> = Response(status: int, retryAfter: Option<real>, content: B)

  /** What one request comes to: a response, or an exception from the transport, which is not retried. */
  datatype Reply<+B> = Answer(response: Response<B>) | Failure(error: string)

  predicate Retryable(status: int) {
    status in {423, 429, 502, 503, 504}
  }

  function Pow2(k: nat): (p: nat)
    ensures p > 0
  {
    if k == 0 then 1 else 2 * Pow2(k - 1)
  }

  /** `_retry_delay` */
  function RetryDelay<B>(response: Response<B>, base: real, attempt: nat): real {
    if response.status in {423, 429} && response.retryAfter.Some? && response.retryAfter.value > 0.0 then
      response.retryAfter.value
    else base * Pow2(attempt) as real
  }

  /** `retry_base_delay or 1.0` */
  function BaseDelay(configured: real): real {
    if configured == 0.0 then 1.0 else configured
  }

  /** The reply makes the loop go round again, unless the attempts are used up. */
  predicate Retried<B>(reply: Reply<B>) {
    reply.Answer? && Retryable(reply.response.status)
  }

  /** The replies of one call: all but the last are retried, and the last is final or the last allowed. */
  ghost predicate Exchanged<B>(maxRetries: nat, run: seq<Reply<B>>) {
    && 0 < |run| <= maxRetries + 1
    && (forall i | 0 <= i < |run| - 1 :: Retried(run[i]))
    && (|run| == maxRetries + 1 || !Retried(run[|run| - 1]))
  }

  /** The delays slept after each of the given replies. */
  function Delays<B>(run: seq<Reply<B>>, base: real): seq<real>
    requires forall i | 0 <= i < |run| :: run[i].Answer?
  {
    seq(|run|, i requires 0 <= i < |run| => RetryDelay(run[i].response, base, i))
  }

  /**
   `CoreHTTPClient.request_url` against the replies the server would give in turn. The result is the first of them that
   is not retried, or the one at attempt `maxRetries`; `sent` is its number; `sleeps` are the delays before it. With a
   negative `maxRetries` nothing is sent and the final `return` fails: `None`.
   */
  method RequestUrl<B>(maxRetries: int, configured: real, server: seq<Reply<B>>)
    returns (reply: Option<Reply<B>>, sent: nat, sleeps: seq<real>)
    requires |server| > maxRetries
    ensures maxRetries < 0 ==> reply == None && sent == 0 && sleeps == []
    ensures maxRetries >= 0 ==>
              && 1 <= sent <= maxRetries + 1
              && reply == Some(server[sent - 1])
              && (forall i | 0 <= i < sent - 1 :: Retried(server[i]))
              && (sent - 1 == maxRetries || !Retried(server[sent - 1]))
              && Exchanged(maxRetries, server[..sent])
              && sleeps == Delays(server[..sent - 1], BaseDelay(configured))
  {
    var delay := BaseDelay(configured);
    reply, sleeps := None, [];
    var attempt := 0;
    while attempt < maxRetries + 1
      invariant 0 <= attempt && (maxRetries >= 0 ==> attempt <= maxRetries)
      invariant maxRetries < 0 ==> reply == None && attempt == 0
      invariant forall i | 0 <= i < attempt :: Retried(server[i])
      invariant sleeps == Delays(server[..attempt], delay)
    {
      reply := Some(server[attempt]);
      if !Retried(server[attempt]) || attempt == maxRetries {
        return reply, attempt + 1, sleeps;
      }
      sleeps := sleeps + [RetryDelay(server[attempt].response, delay, attempt)];
      attempt := attempt + 1;
    }
    return reply, 0, sleeps;
  }

  /** The number of requests is determined by the replies. */
  lemma ExchangedUnique<B>(maxRetries: nat, server: seq<Reply<B>>, a: nat, b: nat)
    requires |server| > maxRetries && a <= b <= |server|
    requires Exchanged(maxRetries, server[..a]) && Exchanged(maxRetries, server[..b])
    ensures a == b
  {
  }

  /** Which replies are retried, and how long the client sleeps after the k-th of them. */
  lemma DelayIs<B>(run: seq<Reply<B>>, configured: real, k: nat)
    requires k < |run| && forall i | 0 <= i < |run| :: run[i].Answer?
    ensures var response := run[k].response;
            && (Retried(run[k]) <==>
                  response.status == 423 || response.status == 429 || 502 <= response.status <= 504)
            && var throttled := response.status == 423 || response.status == 429;
            Delays(run, BaseDelay(configured))[k] ==
            if throttled && response.retryAfter.Some? && response.retryAfter.value > 0.0 then response.retryAfter.value
            else (if configured == 0.0 then 1.0 else configured) * Pow2(k) as real
  {
    hide Pow2;
  }

  function Sum(xs: seq<real>): real {
    if xs == [] then 0.0 else Sum(xs[..|xs| - 1]) + xs[|xs| - 1]
  }

  function Times(base: real, n: nat): real {
    base * n as real
  }

  /** With no positive Retry-After on a throttling status, the sleeps double and add up to base * (2^k - 1). */
  lemma TotalSleep<B>(run: seq<Reply<B>>, base: real)
    requires forall i | 0 <= i < |run| :: run[i].Answer?
    requires forall i | 0 <= i < |run| :: NoRetryAfter(run[i].response)
    ensures Sum(Delays(run, base)) == base * (Pow2(|run|) - 1) as real
  {
    DelaysAddUp(run, base);
  }

  /** A positive Retry-After, where it would count, is missing. */
  predicate NoRetryAfter<B>(response: Response<B>) {
    response.status in {423, 429} ==> response.retryAfter.None? || response.retryAfter.value <= 0.0
  }

  lemma {:induction false} DelaysAddUp<B>(run: seq<Reply<B>>, base: real)
    requires forall i | 0 <= i < |run| :: run[i].Answer?
    requires forall i | 0 <= i < |run| :: NoRetryAfter(run[i].response)
    ensures Sum(Delays(run, base)) == Times(base, Pow2(|run|) - 1)
  {
    if run == [] {
      assert Times(base, 0) == 0.0;
    } else {
      var p := Pow2(|run| - 1);
      assert Pow2(|run|) == p + p;
      DelaysFront(run, base);
      hide Delays, Pow2, Times, NoRetryAfter;
      DelaysAddUp(run[..|run| - 1], base);
      TimesAdd(base, p - 1, p);
    }
  }

  lemma DelaysFront<B>(run: seq<Reply<B>>, base: real)
    requires run != [] && forall i | 0 <= i < |run| :: run[i].Answer?
    requires NoRetryAfter(run[|run| - 1].response)
    ensures |Delays(run, base)| == |run|
    ensures Delays(run, base)[..|run| - 1] == Delays(run[..|run| - 1], base)
    ensures Delays(run, base)[|run| - 1] == Times(base, Pow2(|run| - 1))
  {
    DoublingDelay(run[|run| - 1].response, base, |run| - 1);
    hide RetryDelay, Times, Pow2, NoRetryAfter;
  }

  lemma DoublingDelay<B>(response: Response<B>, base: real, attempt: nat)
    requires NoRetryAfter(response)
    ensures RetryDelay(response, base, attempt) == Times(base, Pow2(attempt))
  {
    hide Pow2;
  }

  lemma TimesAdd(base: real, m: nat, n: nat)
    ensures Times(base, m) + Times(base, n) == Times(base, m + n)
  {
    assert (m + n) as real == m as real + n as real;
    Distribute(base, m as real, n as real);
  }

  lemma Distribute(base: real, x: real, y: real)
    ensures base * x + base * y == base * (x + y)
  {
  }
}
