/**
 * The tool layer of src/server.ts: which arguments the `ask-coding-advisors`
 * tool accepts, how they become a `ToolInput`, how a batch is rendered as
 * text, and how a thrown error becomes an error response. The MCP server,
 * its transport and the schema library are not modelled; the schema's
 * bounds are the predicate `AcceptsArgs`. `formatLatency` works on floating
 * point, so the renderer takes the latency text as a parameter.
 */
module Server {
  import opened Wrappers
  import opened Strings
  import opened AdvisorTypes
  import opened CodingAdvisors

  // ---------------------------------------------------------------- input

  /** The arguments as the schema parses them; `context` may be absent. */
  datatype ToolArgs = ToolArgs(question: string, context: Option<string>)

  const MinQuestionLength := 4
  const MaxQuestionLength := 4000
  const MaxContextLength := 12000
  const QuestionTooShort := "Bitte fasse dein Problem in mindestens vier Zeichen zusammen."
  const QuestionTooLong := "Question too long (4k char cap)."

  /** The schema's check on the question, with its message when it fails. */
  function QuestionIssue(question: string): (issue: Option<string>)
    ensures issue.None? <==> MinQuestionLength <= |question| <= MaxQuestionLength
    ensures issue.Some? ==> issue.value == (if |question| < MinQuestionLength then QuestionTooShort else QuestionTooLong)
  {
    if |question| < MinQuestionLength then Some(QuestionTooShort)
    else if |question| > MaxQuestionLength then Some(QuestionTooLong)
    else None
  }

  /** The schema: a question of 4 to 4000 characters, an optional context of at most 12000. */
  predicate AcceptsArgs(args: ToolArgs)
  {
    && QuestionIssue(args.question).None?
    && (args.context.Some? ==> |args.context.value| <= MaxContextLength)
  }

  /** The tool input: the context goes along only when it is a non-empty string. */
  function ToolInputFrom(args: ToolArgs): (input: ToolInput)
    ensures input.question == args.question
    ensures input.context.Some? <==> args.context.Some? && args.context.value != ""
    ensures input.context.Some? ==> input.context == args.context
  {
    if args.context.Some? && |args.context.value| > 0 then ToolInput(args.question, args.context)
    else ToolInput(args.question, None)
  }

  /**
   * Accepted arguments give an input whose question is within the bounds
   * and whose context, when there is one, is non-empty and within its
   * bound; and the payload the client receives carries that same context.
   */
  lemma AcceptedInput(args: ToolArgs)
    requires AcceptsArgs(args)
    ensures var input := ToolInputFrom(args);
      && MinQuestionLength <= |input.question| <= MaxQuestionLength
      && (input.context.Some? ==> 0 < |input.context.value| <= MaxContextLength)
      && ChatPayload(input).context == input.context
  {
  }

  // ---------------------------------------------------------------- responses

  /** What the tool hands back: a text, flagged as an error or not. */
  datatype ToolResponse = ToolResponse(isError: bool, text: string)

  const FailurePrefix := "Coding advisor tool failed"

  /** Whether the caller may retry: the error is one of the two gateway errors. */
  predicate IsRetryable(e: Error)
  {
    e.RateLimitError? || e.OpenRouterError?
  }

  /** The `catch` branch: the prefixed message, flagged as an error for the gateway errors only. */
  function FailureResponse(e: Error): (resp: ToolResponse)
    ensures resp.isError <==> IsRetryable(e)
    ensures |resp.text| == |FailurePrefix| + 2 + |e.message|
    ensures resp.text[..|FailurePrefix|] == FailurePrefix
    ensures resp.text[|FailurePrefix|..|FailurePrefix| + 2] == ": "
    ensures resp.text[|FailurePrefix| + 2..] == e.message
  {
    ToolResponse(IsRetryable(e), FailurePrefix + ": " + e.message)
  }

  /** The message of a failure response is recoverable from its text. */
  lemma FailureMessageRoundTrip(e1: Error, e2: Error)
    requires FailureResponse(e1).text == FailureResponse(e2).text
    ensures e1.message == e2.message
  {
    assert e1.message == FailureResponse(e1).text[|FailurePrefix| + 2..];
  }

  // ---------------------------------------------------------------- formatting

  /** The label after the model name. */
  function TierLabel(answer: AdvisorCallResult): string
  {
    if answer.isFree then "free tier" else if answer.usedFallback then "paid fallback" else "paid"
  }

  /** Two answers get the same label exactly when they agree on `isFree` and, if paid, on `usedFallback`. */
  lemma TierLabelDistinguishes(a: AdvisorCallResult, b: AdvisorCallResult)
    ensures TierLabel(a) == TierLabel(b) <==> a.isFree == b.isFree && (a.isFree || a.usedFallback == b.usedFallback)
  {
    assert "free tier"[0] == 'f' && "paid fallback"[0] == 'p';
    assert |"paid fallback"| != |"paid"|;
  }

  /** The parts of `formatUsage`: prompt, completion and total, each only when present. */
  function UsageParts(u: Usage): (parts: seq<string>)
    ensures |parts| == (if u.promptTokens.Some? then 1 else 0) + (if u.completionTokens.Some? then 1 else 0)
                       + (if u.totalTokens.Some? then 1 else 0)
    ensures forall k :: 0 <= k < |parts| ==> parts[k] != ""
    ensures u.promptTokens.Some? ==> parts[0] == "prompt " + IntToString(u.promptTokens.value)
    ensures u.completionTokens.Some? ==>
              parts[if u.promptTokens.Some? then 1 else 0] == "completion " + IntToString(u.completionTokens.value)
    ensures u.totalTokens.Some? ==> parts[|parts| - 1] == "total " + IntToString(u.totalTokens.value)
  {
    (if u.promptTokens.Some? then ["prompt " + IntToString(u.promptTokens.value)] else [])
    + (if u.completionTokens.Some? then ["completion " + IntToString(u.completionTokens.value)] else [])
    + (if u.totalTokens.Some? then ["total " + IntToString(u.totalTokens.value)] else [])
  }

  /** `formatUsage`: the parts joined by `", "`, or nothing without usage. */
  function FormatUsage(usage: Option<Usage>): string
  {
    if usage.None? then "" else Join(UsageParts(usage.value), ", ")
  }

  /** The usage text is empty exactly when there is no usage or none of its counts is present. */
  lemma FormatUsageEmpty(usage: Option<Usage>)
    ensures FormatUsage(usage) == "" <==>
              usage.None? || (usage.value.promptTokens.None? && usage.value.completionTokens.None? && usage.value.totalTokens.None?)
  {
    if usage.Some? {
      var parts := UsageParts(usage.value);
      JoinEmpty(parts, ", ");
      if |parts| == 1 {
        assert parts[0] != "";
      }
    }
  }

  /** With all three counts present the usage text lists them in order. */
  lemma FormatUsageFull(p: int, c: int, t: int)
    ensures FormatUsage(Some(Usage(Some(p), Some(c), Some(t))))
            == ("prompt " + IntToString(p)) + ", " + ("completion " + IntToString(c)) + ", " + ("total " + IntToString(t))
  {
    var a, b, d := "prompt " + IntToString(p), "completion " + IntToString(c), "total " + IntToString(t);
    assert UsageParts(Usage(Some(p), Some(c), Some(t))) == [a, b, d];
    JoinTriple(a, b, d, ", ");
  }

  /** The latency line, with the usage appended only when there is usage text. */
  function LatencyLine(latency: string, usageText: string): (line: string)
  {
    "Latency: " + latency + (if usageText != "" then " | Usage: " + usageText else "")
  }

  /** Advisors are numbered from 1. */
  function AdvisorNumber(index: nat): string
  {
    NatToString(index + 1)
  }

  /** The first line of advisor block `index` (counted from 0). */
  function HeadingLine(answer: AdvisorCallResult, index: nat): string
  {
    "Advisor " + AdvisorNumber(index) + ": " + answer.modelLabel + " (" + TierLabel(answer) + ")"
  }

  /**
   * The lines of one advisor block: the heading, the focus, the latency
   * line with the answer's usage, a blank line and the response.
   */
  function BlockLines(answer: AdvisorCallResult, index: nat, latencyText: int -> string): (lines: seq<string>)
    ensures |lines| == 5
    ensures lines[0] == HeadingLine(answer, index)
    ensures lines[1] == "Focus: " + answer.focus
    ensures lines[2] == LatencyLine(latencyText(answer.latencyMs), FormatUsage(answer.usage))
    ensures lines[3] == "" && lines[4] == answer.responseText
  {
    [ HeadingLine(answer, index),
      "Focus: " + answer.focus,
      LatencyLine(latencyText(answer.latencyMs), FormatUsage(answer.usage)),
      "",
      answer.responseText ]
  }

  function AdvisorBlock(answer: AdvisorCallResult, index: nat, latencyText: int -> string): string
  {
    Join(BlockLines(answer, index, latencyText), "\n")
  }

  /** The warning sign (U+26A0 with the emoji variation selector) the header opens with. */
  const WarningSign := "\U{26A0}\U{FE0F}"
  const RateLimitHeader := WarningSign + " OpenRouter rate limit hit \U{2014} switched to paid fallbacks for the remaining slots.\n"
  const BlockSeparator := "\n\n---\n\n"

  /** The blocks of a batch, numbered in answer order. */
  function Blocks(batch: AdvisorBatchResult, latencyText: int -> string): (blocks: seq<string>)
    ensures |blocks| == |batch.answers|
  {
    seq(|batch.answers|, k requires 0 <= k < |batch.answers| => AdvisorBlock(batch.answers[k], k, latencyText))
  }

  /** `formatBatch`: the warning header when fallbacks were used, then the blocks. */
  function FormatBatch(batch: AdvisorBatchResult, latencyText: int -> string): string
  {
    (if batch.fallbackTriggered then RateLimitHeader else "") + Join(Blocks(batch, latencyText), BlockSeparator)
  }

  /** Every block starts with its heading (`Join` puts the first line first). */
  lemma BlockStartsWithHeading(answer: AdvisorCallResult, index: nat, latencyText: int -> string)
    ensures var h := HeadingLine(answer, index);
      |h| <= |AdvisorBlock(answer, index, latencyText)| && AdvisorBlock(answer, index, latencyText)[..|h|] == h
  {
    var lines := BlockLines(answer, index, latencyText);
    JoinCons(lines, "\n");
  }

  /** Blocks are never empty, and begin with `A`. */
  lemma BlockFirstChar(answer: AdvisorCallResult, index: nat, latencyText: int -> string)
    ensures AdvisorBlock(answer, index, latencyText) != [] && AdvisorBlock(answer, index, latencyText)[0] == 'A'
  {
    BlockStartsWithHeading(answer, index, latencyText);
    var h := HeadingLine(answer, index);
    assert h[0] == 'A';
    assert AdvisorBlock(answer, index, latencyText)[..|h|][0] == h[0];
  }

  lemma HeaderFirstChar()
    ensures RateLimitHeader != [] && RateLimitHeader[0] != 'A'
  {
    assert RateLimitHeader[0] == WarningSign[0];
  }

  /**
   * The text starts with the rate-limit warning exactly when the batch
   * switched to fallbacks: without it the text is empty or begins with the
   * first advisor's heading.
   */
  lemma HeaderIffFallback(batch: AdvisorBatchResult, latencyText: int -> string)
    ensures var text := FormatBatch(batch, latencyText);
      batch.fallbackTriggered <==> |RateLimitHeader| <= |text| && text[..|RateLimitHeader|] == RateLimitHeader
  {
    var text := FormatBatch(batch, latencyText);
    var body := Join(Blocks(batch, latencyText), BlockSeparator);
    if batch.fallbackTriggered {
      assert text == RateLimitHeader + body;
      assert text[..|RateLimitHeader|] == RateLimitHeader;
    } else {
      assert text == body;
      if |batch.answers| > 0 {
        var blocks := Blocks(batch, latencyText);
        JoinCons(blocks, BlockSeparator);
        BlockFirstChar(batch.answers[0], 0, latencyText);
        assert text[0] == blocks[0][0] == 'A';
        HeaderFirstChar();
      } else {
        assert text == "";
      }
    }
  }

  /**
   * The body is the blocks joined by the separator, one block per answer;
   * block `k` opens with `Advisor k+1: <label> (<tier>)`, and distinct
   * blocks carry distinct numbers.
   */
  lemma BatchLayout(batch: AdvisorBatchResult, latencyText: int -> string)
    ensures var blocks := Blocks(batch, latencyText);
      && FormatBatch(batch, latencyText) == (if batch.fallbackTriggered then RateLimitHeader else "") + Join(blocks, BlockSeparator)
      && |blocks| == |batch.answers|
      && (forall k :: 0 <= k < |blocks| ==> blocks[k] == AdvisorBlock(batch.answers[k], k, latencyText))
      && (forall k, m :: 0 <= k < m < |blocks| ==> AdvisorNumber(k) != AdvisorNumber(m))
  {
    forall k, m | 0 <= k < m < |batch.answers| ensures AdvisorNumber(k) != AdvisorNumber(m) {
      if AdvisorNumber(k) == AdvisorNumber(m) {
        NatToStringInjective(k + 1, m + 1);
      }
    }
  }

  /**
   * The usage suffix is on the latency line exactly when the usage text is
   * non-empty, and it is `" | Usage: "` followed by that text.
   */
  lemma LatencyLineUsage(latency: string, usageText: string)
    ensures var line := LatencyLine(latency, usageText);
      usageText != "" <==> |line| > |"Latency: " + latency|
    ensures usageText != "" ==> LatencyLine(latency, usageText) == "Latency: " + latency + " | Usage: " + usageText
    ensures usageText == "" ==> LatencyLine(latency, usageText) == "Latency: " + latency
  {
  }

  /** A batch of the shipped catalog never shows the plain `paid` label. */
  lemma CatalogBatchLabels(input: ToolInput, gateway: Gateway, p: nat)
    ensures var r := AdviseRun(CatalogEnv(input, gateway), p);
      r.result.Success? ==> forall a :: a in r.result.value.answers ==> TierLabel(a) != "paid"
  {
    CatalogBatch(input, gateway, p);
  }

  // ---------------------------------------------------------------- the tool handler

  /** The handler's response to the outcome of `advise`. */
  function Respond(outcome: Result<AdvisorBatchResult, Error>, latencyText: int -> string): (resp: ToolResponse)
    ensures outcome.Success? ==> !resp.isError && resp.text == FormatBatch(outcome.value, latencyText)
    ensures outcome.Failure? ==> resp == FailureResponse(outcome.error)
  {
    match outcome
    case Success(batch) => ToolResponse(false, FormatBatch(batch, latencyText))
    case Failure(e) => FailureResponse(e)
  }

  /**
   * The `ask-coding-advisors` handler, for arguments the schema accepted:
   * build the input, run one batch, render it or the error.
   */
  method HandleAsk(coordinator: CodingAdvisorCoordinator, args: ToolArgs, gateway: Gateway, latencyText: int -> string)
    returns (resp: ToolResponse)
    requires AcceptsArgs(args) && coordinator.Valid()
    modifies coordinator
    ensures coordinator.Valid()
    ensures var run := AdviseRun(coordinator.EnvFor(ToolInputFrom(args), gateway), old(coordinator.fallbackPointer));
      resp == Respond(run.result, latencyText) && coordinator.fallbackPointer == run.pointer
  {
    var input := ToolInputFrom(args);
    var outcome := coordinator.Advise(input, gateway);
    match outcome {
      case Success(batch) =>
        resp := ToolResponse(false, FormatBatch(batch, latencyText));
      case Failure(e) =>
        resp := FailureResponse(e);
    }
  }
}
