/**
 * The advisor coordinator of src/codingAdvisors.ts.
 *
 * The chat gateway is an oracle: the n-th call of a batch (counting from 0)
 * for model `id` with payload `opts` gets the reply `gateway(n, id, opts)`,
 * which carries the outcome of `client.chat` and the elapsed milliseconds
 * the two `Date.now()` readings would measure. The spec functions below say
 * what one batch does, as a value: its result, the fallback pointer after
 * it, and the trace of calls it made. The class then does the same step by
 * step, and its methods are proved equal to the spec functions.
 */
module CodingAdvisors {
  import opened Wrappers
  import opened Strings
  import opened AdvisorTypes
  import opened OpenRouter
  import opened ModelCatalog

  /** What one chat call returns, and how long it took. */
  datatype Reply = Reply(outcome: Result<ChatResult, Error>, elapsedMs: int)

  /** The chat gateway: call number within the batch, model id and payload to reply. */
  type Gateway = (nat, string, ChatOptions) -> Reply

  /** One chat call the coordinator made. */
  datatype Call = Call(spec: AdvisorModelSpec, usedFallback: bool)

  /** What a batch depends on: the two catalogs, the tool input and the gateway. */
  datatype Env = Env(free: seq<AdvisorModelSpec>, paid: seq<AdvisorModelSpec>, input: ToolInput, gateway: Gateway)

  /** The outcome of a step: its result, the fallback pointer after it, and all calls so far. */
  datatype Run<T> = Run(result: Result<T, Error>, pointer: nat, calls: seq<Call>)

  const NoFallbackModels := "No fallback models configured."
  const AllFallbacksRateLimited := "Every fallback model is currently rate limited."
  const EmptyResponse := "(empty response)"

  // ---------------------------------------------------------------- one call

  /** The payload sent to the client: the context goes along only when it is a non-empty string. */
  function ChatPayload(input: ToolInput): (opts: ChatOptions)
    ensures opts.question == input.question
    ensures opts.context.Some? <==> input.context.Some? && input.context.value != ""
    ensures opts.context.Some? ==> opts.context == input.context
  {
    if input.context.Some? && |input.context.value| > 0 then ChatOptions(input.question, input.context)
    else ChatOptions(input.question, None)
  }

  lemma EmptyResponseShape()
    ensures EmptyResponse != "" && NoEdgeWhitespace(EmptyResponse)
  {
    assert EmptyResponse[0] == '(' && EmptyResponse[|EmptyResponse| - 1] == ')';
  }

  /** `chat.text?.trim() || '(empty response)'`: never empty, never padded. */
  function ResponseText(text: string): (r: string)
    ensures r != "" && NoEdgeWhitespace(r)
    ensures Trim(text) != "" ==> r == Trim(text)
    ensures Trim(text) == "" ==> r == EmptyResponse
  {
    var trimmed := Trim(text);
    if trimmed != "" then trimmed
    else
      EmptyResponseShape();
      EmptyResponse
  }

  /**
   * `queryModel` once the reply is in: a failure propagates unchanged, and a
   * success becomes an answer that copies the catalog fields of `spec`.
   */
  function QueryModel(spec: AdvisorModelSpec, usedFallback: bool, reply: Reply): (r: Result<AdvisorCallResult, Error>)
    ensures r.Success? <==> reply.outcome.Success?
    ensures reply.outcome.Failure? ==> r == Failure(reply.outcome.error)
  {
    match reply.outcome
    case Failure(e) => Failure(e)
    case Success(chat) =>
      Success(AdvisorCallResult(spec.id, spec.labelText, spec.focus, spec.isFree, usedFallback,
                                ResponseText(chat.text), reply.elapsedMs, chat.usage))
  }

  /**
   * A successful reply becomes an answer that copies the catalog fields of
   * `spec` and carries the reply's text, latency and usage.
   */
  lemma QueryModelAnswer(spec: AdvisorModelSpec, usedFallback: bool, reply: Reply, r: Result<AdvisorCallResult, Error>)
    requires reply.outcome.Success? && r == QueryModel(spec, usedFallback, reply)
    ensures r.Success? && CopiedFrom(r.value, spec) && r.value.usedFallback == usedFallback
    ensures r.value.responseText == ResponseText(reply.outcome.value.text)
    ensures r.value.latencyMs == reply.elapsedMs && r.value.usage == reply.outcome.value.usage
  {
  }

  /** The reply to the next call of the batch, made after `calls`, for `spec`. */
  function Ask(env: Env, calls: seq<Call>, spec: AdvisorModelSpec): Reply
  {
    env.gateway(|calls|, spec.id, ChatPayload(env.input))
  }

  /** The reply the `k`-th call of the trace got. */
  function ReplyAt(env: Env, calls: seq<Call>, k: nat): Reply
    requires k < |calls|
  {
    env.gateway(k, calls[k].spec.id, ChatPayload(env.input))
  }

  /** The reply the last call of the trace got. */
  function LastReply(env: Env, calls: seq<Call>): Reply
    requires calls != []
  {
    ReplyAt(env, calls, |calls| - 1)
  }

  predicate IsRateLimited(reply: Reply)
  {
    reply.outcome.Failure? && reply.outcome.error.RateLimitError?
  }

  /** Every call of the trace was answered or rate limited: none failed otherwise. */
  predicate OnlyRateLimits(env: Env, calls: seq<Call>)
  {
    forall k :: 0 <= k < |calls| ==> ReplyAt(env, calls, k).outcome.Success? || IsRateLimited(ReplyAt(env, calls, k))
  }

  /** The answers the calls of the trace that succeeded gave, in call order. */
  function CallAnswers(env: Env, calls: seq<Call>): seq<AdvisorCallResult>
    decreases |calls|
  {
    if calls == [] then []
    else
      var k := |calls| - 1;
      var r := QueryModel(calls[k].spec, calls[k].usedFallback, ReplyAt(env, calls, k));
      CallAnswers(env, calls[..k]) + (if r.Success? then [r.value] else [])
  }

  /** One more call adds its answer, if it got one, and leaves the earlier calls' replies alone. */
  lemma CallAnswersSnoc(env: Env, calls: seq<Call>, c: Call)
    ensures var r := QueryModel(c.spec, c.usedFallback, Ask(env, calls, c.spec));
      CallAnswers(env, calls + [c]) == CallAnswers(env, calls) + (if r.Success? then [r.value] else [])
    ensures OnlyRateLimits(env, calls + [c]) <==>
              OnlyRateLimits(env, calls) && (Ask(env, calls, c.spec).outcome.Success? || IsRateLimited(Ask(env, calls, c.spec)))
  {
    var calls' := calls + [c];
    assert calls'[..|calls|] == calls;
    assert ReplyAt(env, calls', |calls|) == Ask(env, calls, c.spec);
    forall k | 0 <= k < |calls| ensures ReplyAt(env, calls', k) == ReplyAt(env, calls, k) {
      assert calls'[k] == calls[k];
    }
  }

  // ---------------------------------------------------------------- queryNextFallback

  /**
   * The remainder of `a` by `n`, by repeated subtraction; `ModIsRemainder`
   * shows it is `a % n`. The proofs about the attempt loop only need that
   * equal arguments give equal indices, which this form lets the verifier
   * see without arithmetic on `%`.
   */
  function Mod(a: nat, n: nat): (r: nat)
    requires 0 < n
    ensures r < n
    decreases a
  {
    if a < n then a else Mod(a - n, n)
  }

  /** The paid index the `k`-th attempt of a `queryNextFallback` call asks, with pointer `p`: `(p + k) % n`. */
  function AttemptIndex(p: nat, n: nat, k: nat): (idx: nat)
    requires 0 < n
    ensures idx < n
  {
    Mod(p + k, n)
  }

  /**
   * The attempt loop of `queryNextFallback` from attempt `attempt` on: try
   * `paid[(p + attempt) % n]`; an answer moves the pointer past the model
   * that gave it, a rate limit tries the next model, any other error is
   * thrown with the pointer untouched, and after `n` attempts the call
   * gives up with a rate-limit error of its own.
   */
  function FallbackFrom(env: Env, p: nat, attempt: nat, calls: seq<Call>): Run<AdvisorCallResult>
    requires 0 < |env.paid| && attempt <= |env.paid|
    decreases |env.paid| - attempt
  {
    var n := |env.paid|;
    if attempt == n then Run(Failure(RateLimitError(AllFallbacksRateLimited, None)), p, calls)
    else
      var spec := env.paid[AttemptIndex(p, n, attempt)];
      var reply := Ask(env, calls, spec);
      var calls' := calls + [Call(spec, true)];
      if reply.outcome.Success? then Run(QueryModel(spec, true, reply), AttemptIndex(p, n, attempt + 1), calls')
      else if IsRateLimited(reply) then FallbackFrom(env, p, attempt + 1, calls')
      else Run(Failure(reply.outcome.error), p, calls')
  }

  /** One attempt of the loop, for the method that runs it, with the index written as `%`. */
  lemma FallbackStep(env: Env, p: nat, attempt: nat, calls: seq<Call>, spec: AdvisorModelSpec, reply: Reply)
    requires 0 < |env.paid| && attempt < |env.paid|
    requires spec == env.paid[(p + attempt) % |env.paid|] && reply == env.gateway(|calls|, spec.id, ChatPayload(env.input))
    ensures reply.outcome.Success? ==>
              FallbackFrom(env, p, attempt, calls)
              == Run(QueryModel(spec, true, reply), (p + attempt + 1) % |env.paid|, calls + [Call(spec, true)])
    ensures IsRateLimited(reply) ==>
              FallbackFrom(env, p, attempt, calls) == FallbackFrom(env, p, attempt + 1, calls + [Call(spec, true)])
    ensures reply.outcome.Failure? && !IsRateLimited(reply) ==>
              FallbackFrom(env, p, attempt, calls) == Run(Failure(reply.outcome.error), p, calls + [Call(spec, true)])
  {
    ModIsRemainder(p + attempt, |env.paid|);
    ModIsRemainder(p + attempt + 1, |env.paid|);
  }

  /** `queryNextFallback`: with no paid models it fails straight away. */
  function NextFallback(env: Env, p: nat, calls: seq<Call>): Run<AdvisorCallResult>
  {
    if |env.paid| == 0 then Run(Failure(RateLimitError(NoFallbackModels, None)), p, calls)
    else FallbackFrom(env, p, 0, calls)
  }

  /** The calls of attempts `a`, `a + 1`, …, `a + m - 1` when the pointer is `p`. */
  function FallbackOrder(paid: seq<AdvisorModelSpec>, p: nat, a: nat, m: nat): (order: seq<Call>)
    requires 0 < |paid|
    ensures |order| == m
  {
    seq(m, k requires 0 <= k < m => Call(paid[AttemptIndex(p, |paid|, a + k)], true))
  }

  lemma FallbackOrderStep(paid: seq<AdvisorModelSpec>, p: nat, a: nat, m: nat)
    requires 0 < |paid| && 0 < m
    ensures FallbackOrder(paid, p, a, m) == [Call(paid[AttemptIndex(p, |paid|, a)], true)] + FallbackOrder(paid, p, a + 1, m - 1)
  {
    var lhs, rhs := FallbackOrder(paid, p, a, m), [Call(paid[AttemptIndex(p, |paid|, a)], true)] + FallbackOrder(paid, p, a + 1, m - 1);
    forall k | 0 <= k < m ensures lhs[k] == rhs[k] {
      if k > 0 {
        assert a + k == (a + 1) + (k - 1);
      }
    }
  }

  /**
   * The calls of the attempt loop: from attempt `attempt` on it makes at
   * least one and at most `n - attempt` calls, in round-robin order from the
   * pointer, and every call but the last was answered by a rate limit.
   */
  lemma {:induction false} FallbackTrace(env: Env, p: nat, attempt: nat, calls: seq<Call>, r: Run<AdvisorCallResult>)
    requires 0 < |env.paid| && attempt <= |env.paid| && r == FallbackFrom(env, p, attempt, calls)
    ensures |calls| <= |r.calls| <= |calls| + |env.paid| - attempt
    ensures attempt < |env.paid| ==> |calls| < |r.calls|
    ensures r.calls == calls + FallbackOrder(env.paid, p, attempt, |r.calls| - |calls|)
    ensures forall k :: |calls| <= k < |r.calls| - 1 ==> IsRateLimited(ReplyAt(env, r.calls, k))
    decreases |env.paid| - attempt
  {
    var n := |env.paid|;
    if attempt == n {
      assert FallbackOrder(env.paid, p, attempt, 0) == [];
    } else {
      var spec := env.paid[AttemptIndex(p, n, attempt)];
      var calls' := calls + [Call(spec, true)];
      if !IsRateLimited(Ask(env, calls, spec)) {
        assert FallbackOrder(env.paid, p, attempt, 1) == [Call(spec, true)];
      } else {
        FallbackTrace(env, p, attempt + 1, calls', r);
        var m := |r.calls| - |calls|;
        FallbackOrderStep(env.paid, p, attempt, m);
        assert r.calls == calls' + FallbackOrder(env.paid, p, attempt + 1, m - 1);
        assert r.calls[|calls|] == Call(spec, true);
        assert ReplyAt(env, r.calls, |calls|) == Ask(env, calls, spec);
      }
    }
  }

  /** On success the pointer has moved one past the paid model that answered. */
  lemma {:induction false} FallbackSuccess(env: Env, p: nat, attempt: nat, calls: seq<Call>, r: Run<AdvisorCallResult>)
    requires 0 < |env.paid| && attempt <= |env.paid| && r == FallbackFrom(env, p, attempt, calls)
    requires r.result.Success?
    ensures |calls| < |r.calls|
    ensures r.pointer == AttemptIndex(p, |env.paid|, attempt + (|r.calls| - |calls|))
    decreases |env.paid| - attempt
  {
    var n := |env.paid|;
    assert attempt < n;
    var spec := env.paid[AttemptIndex(p, n, attempt)];
    var reply := Ask(env, calls, spec);
    var calls' := calls + [Call(spec, true)];
    if reply.outcome.Success? {
      assert r.pointer == AttemptIndex(p, n, attempt + 1) && r.calls == calls';
    } else {
      assert IsRateLimited(reply);
      FallbackSuccess(env, p, attempt + 1, calls', r);
      var k := attempt + 1 + (|r.calls| - |calls'|);
      assert r.pointer == AttemptIndex(p, n, k);
      assert k == attempt + (|r.calls| - |calls|);
    }
  }

  /** On success the answer is the one the last paid model asked gave. */
  lemma {:induction false} FallbackAnswer(env: Env, p: nat, attempt: nat, calls: seq<Call>, r: Run<AdvisorCallResult>)
    requires 0 < |env.paid| && attempt <= |env.paid| && r == FallbackFrom(env, p, attempt, calls)
    requires r.result.Success?
    ensures |calls| < |r.calls|
    ensures r.result == QueryModel(r.calls[|r.calls| - 1].spec, true, LastReply(env, r.calls))
    decreases |env.paid| - attempt
  {
    var n := |env.paid|;
    assert attempt < n;
    var spec := env.paid[AttemptIndex(p, n, attempt)];
    var reply := Ask(env, calls, spec);
    var calls' := calls + [Call(spec, true)];
    if reply.outcome.Success? {
      assert r.calls == calls';
      assert LastReply(env, r.calls) == reply;
    } else {
      assert IsRateLimited(reply);
      FallbackAnswer(env, p, attempt + 1, calls', r);
    }
  }

  /**
   * On success the loop adds exactly one answer to those of the trace, and
   * every call it made was rate limited except the one that answered.
   */
  lemma {:induction false} FallbackAnswers(env: Env, p: nat, attempt: nat, calls: seq<Call>, r: Run<AdvisorCallResult>)
    requires 0 < |env.paid| && attempt <= |env.paid| && r == FallbackFrom(env, p, attempt, calls)
    requires r.result.Success?
    ensures CallAnswers(env, r.calls) == CallAnswers(env, calls) + [r.result.value]
    ensures OnlyRateLimits(env, calls) ==> OnlyRateLimits(env, r.calls)
    decreases |env.paid| - attempt
  {
    var n := |env.paid|;
    assert attempt < n;
    var spec := env.paid[AttemptIndex(p, n, attempt)];
    var reply := Ask(env, calls, spec);
    CallAnswersSnoc(env, calls, Call(spec, true));
    if !reply.outcome.Success? {
      assert IsRateLimited(reply);
      FallbackAnswers(env, p, attempt + 1, calls + [Call(spec, true)], r);
    }
  }

  /** An error other than a rate limit is the last reply's, and the pointer is unchanged. */
  lemma {:induction false} FallbackError(env: Env, p: nat, attempt: nat, calls: seq<Call>, r: Run<AdvisorCallResult>)
    requires 0 < |env.paid| && attempt <= |env.paid| && r == FallbackFrom(env, p, attempt, calls)
    requires r.result.Failure? && !r.result.error.RateLimitError?
    ensures |calls| < |r.calls| && r.pointer == p
    ensures LastReply(env, r.calls).outcome == Failure(r.result.error)
    decreases |env.paid| - attempt
  {
    var n := |env.paid|;
    var spec := env.paid[AttemptIndex(p, n, attempt)];
    if IsRateLimited(Ask(env, calls, spec)) {
      FallbackError(env, p, attempt + 1, calls + [Call(spec, true)], r);
    } else {
      assert LastReply(env, r.calls) == Ask(env, calls, spec);
    }
  }

  /**
   * A rate-limit error is the loop's own: every remaining paid model was
   * tried, and the pointer is unchanged.
   */
  lemma {:induction false} FallbackExhausted(env: Env, p: nat, attempt: nat, calls: seq<Call>, r: Run<AdvisorCallResult>)
    requires 0 < |env.paid| && attempt <= |env.paid| && r == FallbackFrom(env, p, attempt, calls)
    requires r.result.Failure? && r.result.error.RateLimitError?
    ensures r.result.error == RateLimitError(AllFallbacksRateLimited, None) && r.pointer == p
    ensures |r.calls| == |calls| + |env.paid| - attempt
    decreases |env.paid| - attempt
  {
    if attempt < |env.paid| {
      var spec := env.paid[AttemptIndex(p, |env.paid|, attempt)];
      FallbackExhausted(env, p, attempt + 1, calls + [Call(spec, true)], r);
    }
  }

  /** When the loop gives up, every paid model it asked answered with a rate limit. */
  lemma {:induction false} FallbackExhaustedReplies(env: Env, p: nat, attempt: nat, calls: seq<Call>, r: Run<AdvisorCallResult>)
    requires 0 < |env.paid| && attempt <= |env.paid| && r == FallbackFrom(env, p, attempt, calls)
    requires r.result.Failure? && r.result.error.RateLimitError?
    ensures forall k :: |calls| <= k < |r.calls| ==> IsRateLimited(ReplyAt(env, r.calls, k))
    decreases |env.paid| - attempt
  {
    if attempt < |env.paid| {
      var spec := env.paid[AttemptIndex(p, |env.paid|, attempt)];
      var calls' := calls + [Call(spec, true)];
      FallbackExhaustedReplies(env, p, attempt + 1, calls', r);
      FallbackTrace(env, p, attempt + 1, calls', r);
      assert r.calls[|calls|] == calls'[|calls|];
      assert ReplyAt(env, r.calls, |calls|) == Ask(env, calls, spec);
    }
  }

  lemma {:induction false} MulAtLeast(n: nat, d: nat)
    requires d >= 1
    ensures n * d >= n
  {
    if d > 1 {
      MulAtLeast(n, d - 1);
      assert n * d == n * (d - 1) + n;
    }
  }

  /** A remainder is determined by any quotient-remainder decomposition. */
  lemma ModUnique(a: int, n: int, q: int, r: int)
    requires 0 < n && 0 <= r < n && a == n * q + r
    ensures a % n == r
  {
    var q', r' := a / n, a % n;
    assert n * (q - q') == r' - r;
    if q > q' {
      MulAtLeast(n, q - q');
    } else if q < q' {
      MulAtLeast(n, q' - q);
    }
  }

  lemma {:induction false} ModIsRemainder(a: nat, n: nat)
    requires 0 < n
    ensures Mod(a, n) == a % n
    decreases a
  {
    if a < n {
      ModUnique(a, n, 0, a);
    } else {
      ModIsRemainder(a - n, n);
      var q := (a - n) / n;
      assert a - n == n * q + (a - n) % n;
      assert a == n * (q + 1) + (a - n) % n;
      ModUnique(a, n, q + 1, (a - n) % n);
    }
  }

  /** Two shifts of `p` less than `n` apart leave different remainders. */
  lemma RemainderDistinct(p: nat, n: nat, k1: nat, k2: nat)
    requires k1 < k2 < n
    ensures (p + k1) % n != (p + k2) % n
  {
    var q, s := p / n, p % n;
    assert p == n * q + s;
    if s + k1 < n { ModUnique(p + k1, n, q, s + k1); } else { ModUnique(p + k1, n, q + 1, s + k1 - n); }
    if s + k2 < n { ModUnique(p + k2, n, q, s + k2); } else { ModUnique(p + k2, n, q + 1, s + k2 - n); }
  }

  /** Distinct attempts of one call address distinct paid models. */
  lemma ModDistinct(p: nat, n: nat, k1: nat, k2: nat)
    requires k1 < k2 < n
    ensures AttemptIndex(p, n, k1) != AttemptIndex(p, n, k2)
  {
    ModIsRemainder(p + k1, n);
    ModIsRemainder(p + k2, n);
    RemainderDistinct(p, n, k1, k2);
  }

  /**
   * One `queryNextFallback` call round-robins over the paid catalog: its
   * `k`-th attempt asks `paid[(p + k) % n]`, at most `n` attempts are made,
   * so no paid model is asked twice.
   */
  lemma RoundRobin(env: Env, p: nat, calls: seq<Call>, r: Run<AdvisorCallResult>)
    requires 0 < |env.paid| && r == NextFallback(env, p, calls)
    ensures 1 <= |r.calls| - |calls| <= |env.paid|
    ensures forall k :: |calls| <= k < |r.calls| ==>
              r.calls[k] == Call(env.paid[AttemptIndex(p, |env.paid|, k - |calls|)], true)
    ensures forall k1, k2 :: 0 <= k1 < k2 < |r.calls| - |calls| ==>
              AttemptIndex(p, |env.paid|, k1) != AttemptIndex(p, |env.paid|, k2)
  {
    FallbackTrace(env, p, 0, calls, r);
    var m := |r.calls| - |calls|;
    forall k | |calls| <= k < |r.calls| ensures r.calls[k] == Call(env.paid[AttemptIndex(p, |env.paid|, k - |calls|)], true) {
      assert r.calls[k] == FallbackOrder(env.paid, p, 0, m)[k - |calls|];
    }
    forall k1, k2 | 0 <= k1 < k2 < m ensures AttemptIndex(p, |env.paid|, k1) != AttemptIndex(p, |env.paid|, k2) {
      ModDistinct(p, |env.paid|, k1, k2);
    }
  }

  /** The answer was given by a paid model, on the fallback path. */
  predicate PaidAnswer(env: Env, answer: AdvisorCallResult)
  {
    answer.usedFallback && exists spec :: spec in env.paid && CopiedFrom(answer, spec)
  }

  /**
   * What a `queryNextFallback` call adds to the trace: only calls of paid
   * models, on the fallback path, after the calls already made.
   */
  lemma NextFallbackTrace(env: Env, p: nat, calls: seq<Call>, r: Run<AdvisorCallResult>)
    requires r == NextFallback(env, p, calls)
    ensures |calls| <= |r.calls| && r.calls[..|calls|] == calls
    ensures forall k :: |calls| <= k < |r.calls| ==> r.calls[k].usedFallback && r.calls[k].spec in env.paid
  {
    if env.paid != [] {
      FallbackTrace(env, p, 0, calls, r);
      var order := FallbackOrder(env.paid, p, 0, |r.calls| - |calls|);
      assert r.calls == calls + order;
      forall k | |calls| <= k < |r.calls| ensures r.calls[k].usedFallback && r.calls[k].spec in env.paid {
        assert r.calls[k] == order[k - |calls|];
      }
    }
  }

  /**
   * What a `queryNextFallback` call returns: an answer comes from a paid
   * model, any other error is the last reply's, a rate-limit error is one of
   * its own two, and the pointer stays in range.
   */
  lemma NextFallbackResult(env: Env, p: nat, calls: seq<Call>, r: Run<AdvisorCallResult>)
    requires r == NextFallback(env, p, calls)
    ensures r.result.Success? ==> PaidAnswer(env, r.result.value)
    ensures r.result.Failure? && !r.result.error.RateLimitError? ==>
              |calls| < |r.calls| && LastReply(env, r.calls).outcome == Failure(r.result.error)
    ensures r.result.Failure? && r.result.error.RateLimitError? ==>
              r.result.error == RateLimitError(if env.paid == [] then NoFallbackModels else AllFallbacksRateLimited, None)
    ensures p < |env.paid| ==> r.pointer < |env.paid|
    ensures env.paid == [] ==> r.pointer == p
  {
    if env.paid != [] {
      if r.result.Success? {
        FallbackSuccess(env, p, 0, calls, r);
        FallbackAnswer(env, p, 0, calls, r);
        NextFallbackTrace(env, p, calls, r);
        var last := r.calls[|r.calls| - 1];
        assert last.spec in env.paid && CopiedFrom(r.result.value, last.spec);
      } else if r.result.error.RateLimitError? {
        FallbackExhausted(env, p, 0, calls, r);
      } else {
        FallbackError(env, p, 0, calls, r);
      }
    }
  }

  // ---------------------------------------------------------------- advise

  /**
   * The slot loop of `advise` from slot `i` on. Outside fallback mode slot
   * `i` asks free model `i`: an answer fills the slot, a rate limit switches
   * to fallback mode for good (and fills this slot from the paid pool), any
   * other error is thrown. In fallback mode each slot is filled by
   * `queryNextFallback`, whose errors are thrown, rate limits included.
   * `fallbackTriggered` and `fallbackMode` are always equal, so one flag.
   */
  function AdviseFrom(env: Env, i: nat, answers: seq<AdvisorCallResult>, fallbackMode: bool, p: nat, calls: seq<Call>): Run<AdvisorBatchResult>
    requires i <= |env.free|
    decreases |env.free| - i, 1
  {
    if i == |env.free| then Run(Success(AdvisorBatchResult(answers, fallbackMode)), p, calls)
    else if !fallbackMode then
      var spec := env.free[i];
      var calls' := calls + [Call(spec, false)];
      match QueryModel(spec, false, Ask(env, calls, spec))
      case Success(answer) => AdviseFrom(env, i + 1, answers + [answer], false, p, calls')
      case Failure(e) =>
        if e.RateLimitError? then FillFromFallback(env, i, answers, p, calls')
        else Run(Failure(e), p, calls')
    else FillFromFallback(env, i, answers, p, calls)
  }

  /** Slot `i` in fallback mode. */
  function FillFromFallback(env: Env, i: nat, answers: seq<AdvisorCallResult>, p: nat, calls: seq<Call>): Run<AdvisorBatchResult>
    requires i < |env.free|
    decreases |env.free| - i, 0
  {
    var r := NextFallback(env, p, calls);
    match r.result
    case Success(answer) => AdviseFrom(env, i + 1, answers + [answer], true, r.pointer, r.calls)
    case Failure(e) => Run(Failure(e), r.pointer, r.calls)
  }

  /** One `advise` call when the pointer is `p`. */
  function AdviseRun(env: Env, p: nat): Run<AdvisorBatchResult>
  {
    AdviseFrom(env, 0, [], false, p, [])
  }

  /** The reply free model `k` gets when every free model before it answered. */
  function FreeReply(env: Env, k: nat): Reply
    requires k < |env.free|
  {
    env.gateway(k, env.free[k].id, ChatPayload(env.input))
  }

  /** The first free slot from `k` on whose model does not answer, or `|free|`. */
  function FreeLeadFrom(env: Env, k: nat): (j: nat)
    requires k <= |env.free|
    ensures k <= j <= |env.free|
    ensures forall m :: k <= m < j ==> FreeReply(env, m).outcome.Success?
    ensures j < |env.free| ==> FreeReply(env, j).outcome.Failure?
    decreases |env.free| - k
  {
    if k == |env.free| || FreeReply(env, k).outcome.Failure? then k else FreeLeadFrom(env, k + 1)
  }

  /** The slot where the free phase stops: the first free model that does not answer. */
  function FreeLead(env: Env): (j: nat)
    ensures j <= |env.free|
    ensures forall m :: 0 <= m < j ==> FreeReply(env, m).outcome.Success?
    ensures j < |env.free| ==> FreeReply(env, j).outcome.Failure?
  {
    FreeLeadFrom(env, 0)
  }

  /** The answer of free model `k` in the free phase. */
  function FreeAnswer(env: Env, k: nat): (answer: AdvisorCallResult)
    requires k < FreeLead(env)
    ensures CopiedFrom(answer, env.free[k]) && !answer.usedFallback
  {
    QueryModel(env.free[k], false, FreeReply(env, k)).value
  }

  /** The trace so far: free calls up to slot `j`, paid fallback calls after it. */
  predicate TraceShape(env: Env, calls: seq<Call>)
  {
    var j := FreeLead(env);
    && (forall k :: 0 <= k < |calls| && k <= j ==> k < |env.free| && calls[k] == Call(env.free[k], false))
    && (forall k :: j < k < |calls| ==> calls[k].usedFallback && calls[k].spec in env.paid)
  }

  /** The answers so far: free answers before slot `j`, paid ones from it on. */
  predicate AnswersShape(env: Env, answers: seq<AdvisorCallResult>)
  {
    var j := FreeLead(env);
    && (forall k :: 0 <= k < |answers| && k < j ==> answers[k] == FreeAnswer(env, k))
    && (forall k :: j <= k < |answers| ==> PaidAnswer(env, answers[k]))
  }

  /** The state of the slot loop before slot `i`, with `j` the slot where the free phase stops. */
  predicate Consistent(env: Env, i: nat, answers: seq<AdvisorCallResult>, fallbackMode: bool, calls: seq<Call>)
  {
    var j := FreeLead(env);
    && i <= |env.free| && |answers| == i
    && (!fallbackMode ==> i <= j && |calls| == i)
    && (fallbackMode ==> j <= i && j < |env.free| && j < |calls| && IsRateLimited(FreeReply(env, j)))
    && AnswersShape(env, answers)
    && TraceShape(env, calls)
    && OnlyRateLimits(env, calls) && answers == CallAnswers(env, calls)
  }

  /** What the batch promises, for a run started with pointer `p`. */
  predicate AdviseOutcome(env: Env, p: nat, r: Run<AdvisorBatchResult>)
  {
    var j := FreeLead(env);
    && TraceShape(env, r.calls)
    && (r.result.Success? ==>
          && |r.result.value.answers| == |env.free|
          && (r.result.value.fallbackTriggered <==> j < |env.free|)
          && (j < |env.free| ==> IsRateLimited(FreeReply(env, j)))
          && AnswersShape(env, r.result.value.answers)
          && OnlyRateLimits(env, r.calls)
          && r.result.value.answers == CallAnswers(env, r.calls))
    && (r.result.Failure? && !r.result.error.RateLimitError? ==>
          r.calls != [] && LastReply(env, r.calls).outcome == Failure(r.result.error))
    && (r.result.Failure? && r.result.error.RateLimitError? ==>
          && j < |env.free| && IsRateLimited(FreeReply(env, j))
          && r.result.error == RateLimitError(if env.paid == [] then NoFallbackModels else AllFallbacksRateLimited, None))
    && (p < |env.paid| ==> r.pointer < |env.paid|)
    && (env.paid == [] ==> r.pointer == p)
  }

  /** A free model that answers fills its slot and keeps the loop in the free phase. */
  lemma FreeAnswerStep(env: Env, i: nat, answers: seq<AdvisorCallResult>, calls: seq<Call>)
    requires Consistent(env, i, answers, false, calls) && i < |env.free|
    requires FreeReply(env, i).outcome.Success?
    ensures i < FreeLead(env)
    ensures Consistent(env, i + 1, answers + [FreeAnswer(env, i)], false, calls + [Call(env.free[i], false)])
  {
    var j := FreeLead(env);
    assert i < j;
    assert Ask(env, calls, env.free[i]) == FreeReply(env, i);
    CallAnswersSnoc(env, calls, Call(env.free[i], false));
    FreeAnswersShape(env, answers);
  }

  /** Appending the next free answer in the free phase keeps the answers' shape. */
  lemma FreeAnswersShape(env: Env, answers: seq<AdvisorCallResult>)
    requires AnswersShape(env, answers) && |answers| < FreeLead(env)
    ensures AnswersShape(env, answers + [FreeAnswer(env, |answers|)])
  {
    var answers' := answers + [FreeAnswer(env, |answers|)];
    forall k | 0 <= k < |answers'| && k < FreeLead(env) ensures answers'[k] == FreeAnswer(env, k) {
      if k < |answers| {
        assert answers'[k] == answers[k];
      }
    }
  }

  /** A free model that is rate limited stops the free phase at its slot and switches to fallback mode. */
  lemma RateLimitStep(env: Env, i: nat, answers: seq<AdvisorCallResult>, calls: seq<Call>)
    requires Consistent(env, i, answers, false, calls) && i < |env.free|
    requires IsRateLimited(FreeReply(env, i))
    ensures i == FreeLead(env)
    ensures Consistent(env, i, answers, true, calls + [Call(env.free[i], false)])
  {
    assert Ask(env, calls, env.free[i]) == FreeReply(env, i);
    CallAnswersSnoc(env, calls, Call(env.free[i], false));
  }

  /** A free model failing otherwise ends the batch with its error, which is the last reply's. */
  lemma FreeErrorStep(env: Env, i: nat, answers: seq<AdvisorCallResult>, p: nat, calls: seq<Call>)
    requires Consistent(env, i, answers, false, calls) && i < |env.free|
    requires FreeReply(env, i).outcome.Failure? && !IsRateLimited(FreeReply(env, i))
    ensures AdviseOutcome(env, p, Run(Failure(FreeReply(env, i).outcome.error), p, calls + [Call(env.free[i], false)]))
  {
    var calls' := calls + [Call(env.free[i], false)];
    assert i == FreeLead(env);
    assert LastReply(env, calls') == FreeReply(env, i);
    assert TraceShape(env, calls');
  }

  lemma {:induction false} AdviseFromOutcome(env: Env, i: nat, answers: seq<AdvisorCallResult>, fallbackMode: bool, p: nat, calls: seq<Call>)
    requires Consistent(env, i, answers, fallbackMode, calls)
    ensures AdviseOutcome(env, p, AdviseFrom(env, i, answers, fallbackMode, p, calls))
    decreases |env.free| - i, 1
  {
    if i < |env.free| && !fallbackMode {
      var spec := env.free[i];
      var calls' := calls + [Call(spec, false)];
      assert Ask(env, calls, spec) == FreeReply(env, i);
      var reply := FreeReply(env, i);
      if reply.outcome.Success? {
        FreeAnswerStep(env, i, answers, calls);
        AdviseFromOutcome(env, i + 1, answers + [FreeAnswer(env, i)], false, p, calls');
      } else if IsRateLimited(reply) {
        RateLimitStep(env, i, answers, calls);
        FillFromFallbackOutcome(env, i, answers, p, calls');
      } else {
        FreeErrorStep(env, i, answers, p, calls);
      }
    } else if i < |env.free| {
      FillFromFallbackOutcome(env, i, answers, p, calls);
    }
  }

  /** A `queryNextFallback` call in slot `i` keeps the trace's shape: it only adds paid calls. */
  lemma FallbackSlotTrace(env: Env, i: nat, answers: seq<AdvisorCallResult>, p: nat, calls: seq<Call>, r: Run<AdvisorCallResult>)
    requires i < |env.free| && Consistent(env, i, answers, true, calls) && r == NextFallback(env, p, calls)
    ensures TraceShape(env, r.calls)
  {
    var j := FreeLead(env);
    NextFallbackTrace(env, p, calls, r);
    forall k | 0 <= k < |r.calls| && k <= j ensures k < |env.free| && r.calls[k] == Call(env.free[k], false) {
      assert r.calls[k] == r.calls[..|calls|][k];
    }
  }

  /** A slot filled by `queryNextFallback` leaves the loop consistent for the next slot. */
  lemma FallbackSlotAnswered(env: Env, i: nat, answers: seq<AdvisorCallResult>, p: nat, calls: seq<Call>, r: Run<AdvisorCallResult>)
    requires i < |env.free| && Consistent(env, i, answers, true, calls) && r == NextFallback(env, p, calls)
    requires r.result.Success?
    ensures 0 < |env.paid| && (p < |env.paid| ==> r.pointer < |env.paid|)
    ensures Consistent(env, i + 1, answers + [r.result.value], true, r.calls)
  {
    FallbackSlotTrace(env, i, answers, p, calls, r);
    NextFallbackTrace(env, p, calls, r);
    NextFallbackResult(env, p, calls, r);
    FallbackAnswers(env, p, 0, calls, r);
    assert AnswersShape(env, answers + [r.result.value]);
  }

  /** A `queryNextFallback` error in slot `i` ends the batch as the promise says. */
  lemma FallbackSlotFailed(env: Env, i: nat, answers: seq<AdvisorCallResult>, p: nat, calls: seq<Call>, r: Run<AdvisorCallResult>)
    requires i < |env.free| && Consistent(env, i, answers, true, calls) && r == NextFallback(env, p, calls)
    requires r.result.Failure?
    ensures AdviseOutcome(env, p, Run(Failure(r.result.error), r.pointer, r.calls))
  {
    FallbackSlotTrace(env, i, answers, p, calls, r);
    NextFallbackResult(env, p, calls, r);
  }

  lemma {:induction false} FillFromFallbackOutcome(env: Env, i: nat, answers: seq<AdvisorCallResult>, p: nat, calls: seq<Call>)
    requires i < |env.free| && Consistent(env, i, answers, true, calls)
    ensures AdviseOutcome(env, p, FillFromFallback(env, i, answers, p, calls))
    decreases |env.free| - i, 0
  {
    var r := NextFallback(env, p, calls);
    if r.result.Success? {
      FallbackSlotAnswered(env, i, answers, p, calls, r);
      AdviseFromOutcome(env, i + 1, answers + [r.result.value], true, r.pointer, r.calls);
    } else {
      FallbackSlotFailed(env, i, answers, p, calls, r);
    }
  }

  /**
   * The theorem about one `advise` batch, for any catalogs, input, gateway
   * and starting pointer `p`. With `j` the first free slot whose model does
   * not answer:
   * - a batch has one answer per free slot, in slot order; slots before `j`
   *   hold the free models' own answers, with `usedFallback` false, and the
   *   slots from `j` on hold paid answers, with `usedFallback` true;
   * - `fallbackTriggered` holds iff `j` is a slot, and then free model `j`
   *   was rate limited;
   * - the calls are free models `0..j` in order, then only paid models: no
   *   free model is asked after the first rate limit;
   * - a successful batch is exactly the answers of the calls that got one,
   *   in call order, and every other call was rate limited: an error from
   *   any call, free or paid, that is not a rate limit ends the batch;
   * - an error other than a rate limit is the reply to the last call made,
   *   and no batch is returned;
   * - a rate-limit error escapes only from the fallback path, as one of its
   *   two messages;
   * - a pointer inside the paid catalog stays inside it.
   */
  lemma AdviseTheorem(env: Env, p: nat)
    ensures AdviseOutcome(env, p, AdviseRun(env, p))
  {
    AdviseFromOutcome(env, 0, [], false, p, []);
  }

  /** A call that fails other than by a rate limit ends the batch: no batch comes back. */
  lemma HardErrorEndsBatch(env: Env, p: nat, k: nat)
    requires k < |AdviseRun(env, p).calls|
    requires var reply := ReplyAt(env, AdviseRun(env, p).calls, k); reply.outcome.Failure? && !IsRateLimited(reply)
    ensures AdviseRun(env, p).result.Failure?
  {
    AdviseTheorem(env, p);
  }

  // ---------------------------------------------------------------- the catalog instance

  /** A batch over the shipped catalog. */
  function CatalogEnv(input: ToolInput, gateway: Gateway): Env
  {
    Env(FreeCodingModels, PaidFallbackModels, input, gateway)
  }

  /**
   * With the shipped catalog a batch has exactly three answers, the
   * no-fallback-models error never occurs, and every answer is either a
   * free model's own (`isFree`, no fallback) or a paid fallback's.
   */
  lemma CatalogBatch(input: ToolInput, gateway: Gateway, p: nat)
    ensures var r := AdviseRun(CatalogEnv(input, gateway), p);
      && (r.result.Success? ==> |r.result.value.answers| == 3)
      && (r.result.Success? ==> forall a :: a in r.result.value.answers ==>
            (a.isFree && !a.usedFallback) || (!a.isFree && a.usedFallback))
      && (r.result.Failure? ==> r.result.error != RateLimitError(NoFallbackModels, None))
      && (p < 2 ==> r.pointer < 2)
  {
    var env := CatalogEnv(input, gateway);
    var r := AdviseRun(env, p);
    CatalogShape();
    AdviseTheorem(env, p);
    if r.result.Success? {
      var answers := r.result.value.answers;
      var j := FreeLead(env);
      forall a | a in answers ensures (a.isFree && !a.usedFallback) || (!a.isFree && a.usedFallback) {
        var k :| 0 <= k < |answers| && answers[k] == a;
        if k < j {
          assert CopiedFrom(a, env.free[k]) && env.free[k] in FreeCodingModels;
        } else {
          assert PaidAnswer(env, a);
          var spec :| spec in env.paid && CopiedFrom(a, spec);
        }
      }
    }
  }

  // ---------------------------------------------------------------- the coordinator object

  /**
   * `CodingAdvisorCoordinator`. The only state that outlives a batch is
   * `fallbackPointer`. The catalogs it reads are the two `const` fields,
   * which the constructor binds to the shipped catalog; the client is the
   * `gateway` each call is given.
   */
  class CodingAdvisorCoordinator {
    var fallbackPointer: nat
    const free: seq<AdvisorModelSpec>
    const paid: seq<AdvisorModelSpec>

    /** The pointer addresses a paid model (or, with no paid models, is still 0). */
    predicate Valid()
      reads this
    {
      fallbackPointer < |paid| || (paid == [] && fallbackPointer == 0)
    }

    constructor()
      ensures free == FreeCodingModels && paid == PaidFallbackModels
      ensures fallbackPointer == 0 && Valid()
    {
      free := FreeCodingModels;
      paid := PaidFallbackModels;
      fallbackPointer := 0;
    }

    function EnvFor(input: ToolInput, gateway: Gateway): Env
    {
      Env(free, paid, input, gateway)
    }

    /**
     * `queryNextFallback`; `calls` is the batch's trace so far, which fixes
     * the call numbers the gateway sees.
     */
    method QueryNextFallback(input: ToolInput, gateway: Gateway, calls: seq<Call>)
      returns (r: Result<AdvisorCallResult, Error>, calls': seq<Call>)
      requires Valid()
      modifies this
      ensures Valid()
      ensures Run(r, fallbackPointer, calls') == NextFallback(EnvFor(input, gateway), old(fallbackPointer), calls)
    {
      var env := EnvFor(input, gateway);
      var maxAttempts := |paid|;
      if maxAttempts == 0 {
        return Failure(RateLimitError(NoFallbackModels, None)), calls;
      }
      var pointer := fallbackPointer;
      calls' := calls;
      var attempt := 0;
      while attempt < maxAttempts
        invariant 0 <= attempt <= maxAttempts
        invariant fallbackPointer == pointer
        invariant NextFallback(env, pointer, calls) == FallbackFrom(env, pointer, attempt, calls')
        decreases maxAttempts - attempt
      {
        var spec := paid[(pointer + attempt) % maxAttempts];
        var reply := gateway(|calls'|, spec.id, ChatPayload(input));
        FallbackStep(env, pointer, attempt, calls', spec, reply);
        calls' := calls' + [Call(spec, true)];
        var answer := QueryModel(spec, true, reply);
        if answer.Success? {
          fallbackPointer := (pointer + attempt + 1) % maxAttempts;
          return answer, calls';
        }
        if !answer.error.RateLimitError? {
          return answer, calls';
        }
        attempt := attempt + 1;
      }
      return Failure(RateLimitError(AllFallbacksRateLimited, None)), calls';
    }

    /** `advise`: one batch; what it returns and the pointer it leaves are those of `AdviseRun`. */
    method Advise(input: ToolInput, gateway: Gateway) returns (r: Result<AdvisorBatchResult, Error>)
      requires Valid()
      modifies this
      ensures Valid()
      ensures r == AdviseRun(EnvFor(input, gateway), old(fallbackPointer)).result
      ensures fallbackPointer == AdviseRun(EnvFor(input, gateway), old(fallbackPointer)).pointer
    {
      var env := EnvFor(input, gateway);
      var answers: seq<AdvisorCallResult> := [];
      var fallbackTriggered := false;
      var fallbackMode := false;
      var calls: seq<Call> := [];
      for i := 0 to |free|
        invariant Valid()
        invariant fallbackTriggered == fallbackMode
        invariant AdviseRun(env, old(fallbackPointer)) == AdviseFrom(env, i, answers, fallbackMode, fallbackPointer, calls)
      {
        if !fallbackMode {
          var spec := free[i];
          var reply := gateway(|calls|, spec.id, ChatPayload(input));
          calls := calls + [Call(spec, false)];
          var answer := QueryModel(spec, false, reply);
          if answer.Success? {
            answers := answers + [answer.value];
            continue;
          }
          if answer.error.RateLimitError? {
            fallbackMode := true;
            fallbackTriggered := true;
          } else {
            return Failure(answer.error);
          }
        }
        var fallbackAnswer, calls' := QueryNextFallback(input, gateway, calls);
        calls := calls';
        if fallbackAnswer.Failure? {
          return Failure(fallbackAnswer.error);
        }
        answers := answers + [fallbackAnswer.value];
      }
      return Success(AdvisorBatchResult(answers, fallbackTriggered));
    }
  }
}
