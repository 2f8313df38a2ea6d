/** The embedding client `get_embedding`: one request to the embedding
    service, retried on the rate-limit class of failure only, at most three
    attempts, with an exponential back-off between attempts. The same code
    appears in both server variants. */
module Embedding {

  /** An embedding vector (floats modelled as reals). */
  type Vector = seq<real>

  /** What the embedding service answers to one attempt: a vector, a
      rate-limit failure, or any other failure (auth, bad input, network). */
  datatype Reply =
    | Embedded(vector: Vector)
    | RateLimited(message: string)
    | Failed(message: string)

  /** The embedding service, scripted: `service(text, k)` is its answer to
      attempt `k` (counted from 0) of a request to embed `text`. */
  type Service = (string, nat) -> Reply

  /** `retries = 3`: the maximum number of attempts. */
  const Retries: nat := 3

  /** 2 to the power `n`. */
  function Pow2(n: nat): (r: nat)
    ensures r >= 1
  {
    if n == 0 then 1 else 2 * Pow2(n - 1)
  }

  /** What one run of the retry loop did: the reply it ended with (returned
      when `Embedded`, raised otherwise), how many times the service was
      called, and the seconds passed to `time.sleep`, in order. */
  datatype Call = Call(reply: Reply, attempts: nat, delays: seq<nat>)

  /** The retry loop as a recursive reference definition, entered at
      attempt number `attempt`. */
  function RetryFrom(service: Service, text: string, attempt: nat): (c: Call)
    requires attempt < Retries
    ensures attempt < c.attempts <= Retries
    ensures c.reply == service(text, c.attempts - 1)
    ensures forall k :: attempt <= k < c.attempts - 1 ==> service(text, k).RateLimited?
    ensures c.reply.RateLimited? ==> c.attempts == Retries
    ensures |c.delays| == c.attempts - 1 - attempt
    ensures forall k :: 0 <= k < |c.delays| ==> c.delays[k] == Pow2(attempt + k)
    decreases Retries - attempt
  {
    match service(text, attempt)
    case RateLimited(_) =>
      if attempt < Retries - 1 then
        var rest := RetryFrom(service, text, attempt + 1);
        Call(rest.reply, rest.attempts, [Pow2(attempt)] + rest.delays)
      else
        Call(service(text, attempt), attempt + 1, [])
    case _ => Call(service(text, attempt), attempt + 1, [])
  }

  /** The whole retry loop for one text:
      - at most three service calls, at least one;
      - the outcome is the reply to the last call made, so nothing is called
        after the first success, and the loop never ends without a reply;
      - every earlier call was answered with a rate-limit failure, so any
        other failure is not retried;
      - a rate-limit reply is the outcome only on the last allowed attempt;
      - one sleep of 2^k seconds after each failed attempt k except the last. */
  function Embed(service: Service, text: string): (c: Call)
    ensures 1 <= c.attempts <= Retries
    ensures c.reply == service(text, c.attempts - 1)
    ensures forall k :: 0 <= k < c.attempts - 1 ==> service(text, k).RateLimited?
    ensures c.reply.RateLimited? ==> c.attempts == Retries
    ensures |c.delays| == c.attempts - 1
    ensures forall k :: 0 <= k < |c.delays| ==> c.delays[k] == Pow2(k)
  {
    RetryFrom(service, text, 0)
  }

  /** The contract of `Embed` determines the run completely: any record that
      satisfies it is the one `Embed` produces. */
  lemma EmbedIsDetermined(service: Service, text: string, c: Call)
    requires 1 <= c.attempts <= Retries
    requires c.reply == service(text, c.attempts - 1)
    requires forall k :: 0 <= k < c.attempts - 1 ==> service(text, k).RateLimited?
    requires c.reply.RateLimited? ==> c.attempts == Retries
    requires |c.delays| == c.attempts - 1
    requires forall k :: 0 <= k < |c.delays| ==> c.delays[k] == Pow2(k)
    ensures c == Embed(service, text)
  {
    var e := Embed(service, text);
    assert c.attempts == e.attempts;
    assert c.delays == e.delays;
  }

  /** Two rate-limit failures followed by a success: the caller gets the
      vector, after sleeping one and then two seconds. */
  lemma RetryIsTransparent(service: Service, text: string)
    requires service(text, 0).RateLimited? && service(text, 1).RateLimited?
    requires service(text, 2).Embedded?
    ensures Embed(service, text) == Call(service(text, 2), 3, [1, 2])
  {
    assert Embed(service, text).delays == [Pow2(0), Pow2(1)];
  }

  /** Three rate-limit failures: the third one is re-raised, with no sleep
      after it. */
  lemma ThirdRateLimitIsRaised(service: Service, text: string)
    requires forall k :: 0 <= k < Retries ==> service(text, k).RateLimited?
    ensures Embed(service, text) == Call(service(text, 2), 3, [1, 2])
  {
    assert Embed(service, text).delays == [Pow2(0), Pow2(1)];
  }

  /** A failure other than rate limiting on attempt 0 propagates at once:
      one call, no sleep. */
  lemma OtherFailureIsNotRetried(service: Service, text: string)
    requires service(text, 0).Failed?
    ensures Embed(service, text) == Call(service(text, 0), 1, [])
  {
  }

  /** `get_embedding(text)`: the `for attempt in range(retries)` loop with its
      early return and its re-raise. */
  method GetEmbedding(service: Service, text: string) returns (reply: Reply, attempts: nat, delays: seq<nat>)
    ensures Call(reply, attempts, delays) == Embed(service, text)
  {
    delays := [];
    var attempt: nat := 0;
    while attempt < Retries
      invariant attempt < Retries
      invariant |delays| == attempt
      invariant forall k :: 0 <= k < attempt ==> delays[k] == Pow2(k)
      invariant forall k :: 0 <= k < attempt ==> service(text, k).RateLimited?
      decreases Retries - attempt
    {
      reply := service(text, attempt);
      attempts := attempt + 1;
      match reply
      case Embedded(_) =>
        EmbedIsDetermined(service, text, Call(reply, attempts, delays));
        return;
      case Failed(_) =>
        EmbedIsDetermined(service, text, Call(reply, attempts, delays));
        return;
      case RateLimited(_) =>
        if attempt < Retries - 1 {
          delays := delays + [Pow2(attempt)];
        } else {
          EmbedIsDetermined(service, text, Call(reply, attempts, delays));
          return;
        }
      attempt := attempt + 1;
    }
    assert false;
  }
}
