/**
 * The records of src/types.ts and the error classes of src/errors.ts.
 * Token counts and latencies are integers; a count that is not a finite
 * number is `None`.
 */
module AdvisorTypes {
  import opened Wrappers

  /** One tool invocation: the question and, optionally, extra context. */
  datatype ToolInput = ToolInput(question: string, context: Option<string>)

  /** A catalog entry, immutable once defined (`label` is a Dafny keyword, hence `labelText`). */
  datatype AdvisorModelSpec = AdvisorModelSpec(id: string, labelText: string, focus: string, isFree: bool)

  /** Token accounting reported by the gateway. */
  datatype Usage = Usage(promptTokens: Option<int>, completionTokens: Option<int>, totalTokens: Option<int>)

  /** One successful answer. */
  datatype AdvisorCallResult = AdvisorCallResult(
    modelId: string,
    modelLabel: string,
    focus: string,
    isFree: bool,
    usedFallback: bool,
    responseText: string,
    latencyMs: int,
    usage: Option<Usage>)

  /** The coordinator's only output. */
  datatype AdvisorBatchResult = AdvisorBatchResult(answers: seq<AdvisorCallResult>, fallbackTriggered: bool)

  /**
   * What a call can throw: the two classes of src/errors.ts, and any other
   * `Error` (a failed `fetch`, a body that is not JSON, the missing-key check).
   */
  datatype Error =
    | RateLimitError(message: string, retryAfterSeconds: Option<int>)
    | OpenRouterError(message: string, status: Option<int>)
    | OtherError(message: string)

  /** The answer carries the catalog fields of `spec` unchanged. */
  predicate CopiedFrom(answer: AdvisorCallResult, spec: AdvisorModelSpec)
  {
    answer.modelId == spec.id && answer.modelLabel == spec.labelText
    && answer.focus == spec.focus && answer.isFree == spec.isFree
  }
}
