# coding-advisor MCP server: a Dafny model of its decision logic

The server answers a debugging question with several opinions at once. It
exposes one MCP tool, `ask-coding-advisors`. The tool asks three free
coding models through the OpenRouter chat API, one after another. Once one
of them is rate limited, it fills that slot and every later slot from a
small pool of paid models, chosen round-robin. It then renders the answers
as one text.

This project models that logic on values, and where the source keeps state,
on a class:

- `wrappers.dfy`, `strings.dfy`: `Option`/`Result`, and JavaScript's
  `join`, `split`, `trim` and integer printing.
  - `Trim` is characterised as the infix between leading and trailing
    whitespace.
  - Printing, of naturals and of integers, comes with a parse-back round trip.
- `advisor_types.dfy`: the records and the two error classes.
  - `RateLimitError` carries an optional retry hint.
  - `OpenRouterError` carries an optional status.
  - `OtherError` stands for any other thrown `Error`.
- `model_catalog.dfy`: the three free and the two paid models.
- `js_values.dfy`: the JSON values the decoders inspect, with JavaScript
  truthiness, `typeof … === 'object'`, `in` and `String(v)`.
- `openrouter_client.dfy`: the client without its network I/O.
  - The API-key check.
  - The user message.
  - The status classification of the reply.
  - The decoders `formatErrorMessage` and `extractText`.
  - The HTTP exchange is an oracle `Exchange`.
- `coding_advisors.dfy`: `CodingAdvisorCoordinator`.
  - Spec functions (`AdviseRun`, `NextFallback`, `FallbackFrom`) say what a
    batch and a fallback call do. They return the result, the fallback
    pointer afterwards, and the trace of calls made.
  - The class holds `fallbackPointer`. Its methods `Advise` and
    `QueryNextFallback` run the source's loops and are proved equal to those
    functions.
  - The chat call is a gateway oracle indexed by the call's position in the
    batch. It yields the outcome of `client.chat` and the elapsed time.
- `model_router.dfy`: tagging, scoring, the stable descending sort and the
  free/paid split.
  - The router is parameterised over any library whose entries carry a
    reliability tier and strengths.
  - Each tag's regular expressions are an opaque predicate on the
    lower-cased text.
- `server.dfy`: the tool handler.
  - The schema's length bounds, and how the input is built.
  - How errors become responses.
  - `formatBatch` and `formatUsage`, with the latency text as a parameter.

The coordinator is modelled as src/codingAdvisors.ts has it: no per-model
cooldowns, no availability check before a call, and no use of the router;
it walks the free catalog in the order written and throws on any error
other than a rate limit.

## Model

| member | source | states |
|---|---|---|
| ModelCatalog.AllIds | src/modelCatalog.ts:3-37 | One id per catalog entry: id k is free model k's, and the paid models' ids follow in order. |
| ModelCatalog.CatalogShape | src/modelCatalog.ts:3-37 | Three free models and two paid ones. Every free entry has `isFree` and no paid entry does. All five ids are pairwise distinct. |
| JsValues.ToJsString | src/openrouterClient.ts:159 | Computes `String(v)`, arrays printed element by element with nullish elements empty; `ExtractText` states where it is applied. |
| Strings.Trim | src/openrouterClient.ts:37 | `trim()` never grows the string and leaves no whitespace at either end (JavaScript's whitespace set). |
| Strings.TrimInfix | src/openrouterClient.ts:37 | The trimmed text is the infix of the input that starts after its leading whitespace, with only whitespace on either side of it. |
| Strings.TrimIdempotent | src/codingAdvisors.ts:58 | Trimming twice is trimming once. |
| Strings.NatToString | src/server.ts:108 | Decimal printing of a natural number is non-empty, all digits, with no leading zero except for 0 itself. |
| Strings.NatToStringRoundTrip | src/server.ts:108 | Reading the printed digits back gives the number. |
| Strings.NatToStringInjective | src/server.ts:108 | Distinct numbers print differently. |
| Strings.IntToString | src/openrouterClient.ts:79 | Printing an integer gives a non-empty text that starts with '-' iff the integer is negative, and only digits for a non-negative one. |
| Strings.IntToStringRoundTrip | src/openrouterClient.ts:79 | Reading the printed text back gives the integer: the digits of a non-negative one, and the digits after the sign of a negative one, read as its negation. |
| Strings.IntToStringInjective | src/openrouterClient.ts:79 | Distinct integers print differently. |
| Strings.DropEmpty | src/openrouterClient.ts:154 | `filter(Boolean)` on strings keeps exactly the non-empty pieces; a single piece is kept iff it is non-empty. |
| Strings.DropEmptyAppend | src/modelRouter.ts:26 | Filtering a concatenation is concatenating the filtered parts, so the filter keeps the order and the repeats of what it keeps. |
| OpenRouter.NewClient | src/openrouterClient.ts:23-30 | Construction succeeds iff the API key is non-empty. The client keeps key and metadata. An empty key fails with "Missing OpenRouter API key." |
| OpenRouter.OpenRouterClient.Chat | src/openrouterClient.ts:32-97 | `chat` sends the user message for the options. An error the request throws propagates. Otherwise the reply is classified by `InterpretResponse`. A success always has a usage object. |
| OpenRouter.UserMessageLayout | src/openrouterClient.ts:36-52 | The user message, in order: "Question: " + the trimmed question; then "\nAdditional context:\n" + the trimmed context, only for a non-empty context; then the closing hint. Parts are joined by newlines. |
| OpenRouter.UserMessage | src/openrouterClient.ts:36-52 | Computes the user message; `UserMessageLayout` states its layout. |
| OpenRouter.FormatErrorMessage | src/openrouterClient.ts:112-129 | A falsy payload gives none. A string gives itself. A string `error` field gives that string. A truthy object `error` gives its `message`, or else its serialisation. Every other payload gives none. Any result comes from a string payload or one with an `error` key. |
| OpenRouter.FormatErrorBody | src/openrouterClient.ts:112-122 | A message wrapped as `{error: {message}}` or as `{error: message}` is decoded back to itself. |
| OpenRouter.ErrorObjectText | src/openrouterClient.ts:124 | Computes `errorValue.message ?? JSON.stringify(errorValue)` as text; `FormatErrorMessage` states when it is used and `FormatErrorBody` that it recovers a message. |
| OpenRouter.ChunkText | src/openrouterClient.ts:143-153 | A non-object chunk gives "". A string `text` gives itself; otherwise a string `content` gives itself; otherwise "". `TextChunk` is its inverse. |
| OpenRouter.ExtractText | src/openrouterClient.ts:131-163 | Falsy content gives "". A string gives itself. An array gives the non-empty chunk texts joined by newlines. An object with `text` gives `String(text ?? '')`. Booleans, numbers and objects without `text` give "". |
| OpenRouter.TextChunk | src/openrouterClient.ts:144-148 | Encoding a text as a `{text}` chunk is inverted by the chunk decoder. |
| OpenRouter.TextChunks | src/openrouterClient.ts:142-153 | An array of `{text}` chunks decodes back to the list of texts. |
| OpenRouter.ExtractTextChunks | src/openrouterClient.ts:142-156 | `extractText` of a chunk array is the non-empty texts joined by newlines. When no text holds a newline and at least one text is non-empty, splitting the result at newlines recovers the non-empty texts. |
| OpenRouter.RetryAfterMissingHeader | src/openrouterClient.ts:68-72 | As written, a 429 without `retry-after` reports a hint of 0 seconds. The corrected reading reports none. |
| OpenRouter.RetryAfterSeconds | src/openrouterClient.ts:68-72 | The corrected reading: a missing header gives no hint, a present header its finite numeric value. When a header is present it agrees with the code as written. |
| OpenRouter.InterpretResponse | src/openrouterClient.ts:67-96 | Success iff the status is 2xx. A rate-limit error iff the status is 429 (checked first). A provider error carrying the status iff any other non-2xx status. Failure messages are the decoded error body, or else "OpenRouter rate limit reached." or "OpenRouter error <status>". A rate-limit error carries the retry hint as the code computes it (`RetryAfterAsWritten`, 0 without the header). A success carries the extracted text and the usage. |
| CodingAdvisors.ChatPayload | src/codingAdvisors.ts:45-48 | The payload keeps the question, and carries the context iff it is a non-empty string. |
| CodingAdvisors.ResponseText | src/codingAdvisors.ts:58 | The response text is the trimmed chat text, or "(empty response)" when that is empty. It is never empty and never padded. |
| CodingAdvisors.QueryModel | src/codingAdvisors.ts:39-67 | A call succeeds iff the chat call does, and a chat error is passed through unchanged. |
| CodingAdvisors.QueryModelAnswer | src/codingAdvisors.ts:52-64 | An answer copies id, label, focus and `isFree` from its spec. It records `usedFallback`, the response text, the measured latency and the chat result's usage. |
| CodingAdvisors.AttemptIndex | src/codingAdvisors.ts:76 | The attempt's index addresses a paid model (below `n`). |
| CodingAdvisors.ModIsRemainder | src/codingAdvisors.ts:76 | The index the model computes is JavaScript's `%` on non-negative operands. |
| CodingAdvisors.ModDistinct | src/codingAdvisors.ts:75-76 | Distinct attempts of one call ask distinct paid models. |
| CodingAdvisors.FallbackFrom | src/codingAdvisors.ts:75-92 | Computes the attempt loop from a given attempt on; `FallbackTrace`, `FallbackSuccess`, `FallbackAnswer`, `FallbackError`, `FallbackExhausted` and `FallbackExhaustedReplies` state what it does. |
| CodingAdvisors.NextFallback | src/codingAdvisors.ts:69-93 | Computes one `queryNextFallback` call, failing at once without paid models; `RoundRobin`, `NextFallbackTrace` and `NextFallbackResult` state what it does. |
| CodingAdvisors.FallbackTrace | src/codingAdvisors.ts:75-92 | The attempts made are paid models `(p + k) % n` for consecutive `k`, at most the remaining number. Every attempt before the last was rate limited. |
| CodingAdvisors.FallbackSuccess | src/codingAdvisors.ts:81-83 | On success the pointer becomes (index of the answering model + 1) mod n. |
| CodingAdvisors.FallbackAnswers | src/codingAdvisors.ts:75-92 | On success the attempt loop adds exactly one answer, the answering call's, to the answers of the trace. Every call it made before that one was rate limited. |
| CodingAdvisors.FallbackAnswer | src/codingAdvisors.ts:81-83 | On success the answer is the last paid model's reply, marked as a fallback. |
| CodingAdvisors.FallbackError | src/codingAdvisors.ts:84-89 | An error other than a rate limit is the last reply's, and the pointer is unchanged. |
| CodingAdvisors.FallbackExhausted | src/codingAdvisors.ts:75-92 | Giving up means every remaining paid model was tried. The error is "Every fallback model is currently rate limited." and the pointer is unchanged. |
| CodingAdvisors.FallbackExhaustedReplies | src/codingAdvisors.ts:84-87 | When the loop gives up, every paid model it asked replied with a rate limit. |
| CodingAdvisors.RoundRobin | src/codingAdvisors.ts:70-76 | One fallback call makes between 1 and n attempts. Attempt k asks `paid[(p + k) % n]`, and no paid model is asked twice. |
| CodingAdvisors.NextFallbackTrace | src/codingAdvisors.ts:69-93 | A fallback call only appends calls of paid models, on the fallback path. |
| CodingAdvisors.NextFallbackResult | src/codingAdvisors.ts:69-93 | An answer comes from a paid model, with `usedFallback`. Another error is the last reply's. A rate-limit error is one of the call's own two messages, "No fallback models configured." exactly when there are no paid models. The pointer stays in range. |
| CodingAdvisors.FreeLead | src/codingAdvisors.ts:16-21 | The slot where the free phase stops: every free model before it answered, and the one at it did not. |
| CodingAdvisors.FreeAnswer | src/codingAdvisors.ts:19-20 | A free-phase answer is copied from its free model, with `usedFallback` false. |
| CodingAdvisors.FreeAnswerStep | src/codingAdvisors.ts:17-21 | A free model that answers appends its answer and keeps the loop in the free phase. |
| CodingAdvisors.RateLimitStep | src/codingAdvisors.ts:22-25 | A rate-limited free model is where the free phase stops. The loop switches to fallback mode with that slot still to be filled. |
| CodingAdvisors.FreeErrorStep | src/codingAdvisors.ts:26-27 | Any other error of a free model ends the batch with that error. |
| CodingAdvisors.AdviseFrom | src/codingAdvisors.ts:16-34 | Computes the slot loop from a given slot on; `AdviseFromOutcome` states what it does. |
| CodingAdvisors.FillFromFallback | src/codingAdvisors.ts:32-33 | Computes a slot filled by `queryNextFallback`; `FillFromFallbackOutcome` states what it does. |
| CodingAdvisors.AdviseRun | src/codingAdvisors.ts:11-37 | Computes one `advise` call from a given pointer; `AdviseTheorem` states what it does. |
| CodingAdvisors.AdviseFromOutcome | src/codingAdvisors.ts:16-36 | From any consistent loop state, the rest of the loop meets the batch promise of `AdviseTheorem`. |
| CodingAdvisors.FillFromFallbackOutcome | src/codingAdvisors.ts:32-33 | A slot filled in fallback mode keeps that promise. The slot's answer is the one answer that `queryNextFallback` call got. Any error from it ends the batch, rate limits included: an error other than a rate limit is the last paid reply, and a rate-limit error is one of the call's own two. |
| CodingAdvisors.AdviseTheorem | src/codingAdvisors.ts:11-37 | Let j be the first free slot whose model does not answer. A batch has one answer per free slot, in slot order. Slots before j hold the free models' own answers (`usedFallback` false); slots from j on hold paid answers (`usedFallback` true). `fallbackTriggered` holds iff j is a slot, and then model j was rate limited. No free model is called after j. A successful batch is exactly the answers of the calls that got one, in call order, and every other call was rate limited: a call, free or paid, that fails in any other way ends the batch. Any other error is the last call's reply, with no batch. A rate-limit error escapes only from the fallback path. The pointer stays in range. |
| CodingAdvisors.HardErrorEndsBatch | src/codingAdvisors.ts:26-33 | If any call of a batch fails other than by a rate limit, free or paid, the batch fails. |
| CodingAdvisors.CatalogBatch | src/codingAdvisors.ts:16-36 | With the shipped catalog a batch has exactly three answers, and "No fallback models configured." never occurs. Every answer is a free model's own or a paid fallback's. |
| CodingAdvisors.CodingAdvisorCoordinator.constructor | src/codingAdvisors.ts:6-9 | The pointer starts at 0, over the shipped catalog. |
| CodingAdvisors.CodingAdvisorCoordinator.QueryNextFallback | src/codingAdvisors.ts:69-93 | The method computes `NextFallback`: same result, same new pointer, same calls. The pointer stays in range. |
| CodingAdvisors.CodingAdvisorCoordinator.Advise | src/codingAdvisors.ts:11-37 | The method computes `AdviseRun`: same result, same new pointer. The pointer stays in range. |
| ModelRouter.Haystack | src/modelRouter.ts:26 | The haystack is question + "\n" + context. An empty question or an absent or empty context is dropped. |
| ModelRouter.CollectTags | src/modelRouter.ts:37-41 | The scan over the keyword table keeps detection order. It adds exactly the pending tags whose pattern matches. |
| ModelRouter.KeywordTagsShape | src/modelRouter.ts:4-11 | The keyword table lists every tag but `general`, once each, in order. |
| ModelRouter.DetectTags | src/modelRouter.ts:34-48 | `general` is always present and last. Tags appear without repeats, in the order frontend, node, go, memory, ai, infra. A keyword tag is present iff its pattern matches the lower-cased text. |
| ModelRouter.ReliabilityWeight | src/modelRouter.ts:13-17 | Platinum weighs 3, gold 2, silver and anything unlisted 1. |
| ModelRouter.MatchedTags | src/modelRouter.ts:55 | The matched tags are exactly the detected tags among the model's strengths. |
| ModelRouter.MatchedTagsInOrder | src/modelRouter.ts:55 | For tags in detection order, the matched tags keep that order; so no matched tag repeats and the score counts each match once. |
| ModelRouter.MatchScoreCounts | src/modelRouter.ts:55 | The `reduce` adds 4 per detected tag among the strengths. |
| ModelRouter.Score | src/modelRouter.ts:54-59 | The score is at least the reliability weight plus the free bonus, so at least 1. |
| ModelRouter.ScoreFormula | src/modelRouter.ts:54-59 | The score is 4 × matched tags + the weight + (1 if free). It lies between 1 and 4 × (number of tags) + 4. |
| ModelRouter.Insert | src/modelRouter.ts:51 | Inserting adds exactly one copy of the element. |
| ModelRouter.InsertSorted | src/modelRouter.ts:51 | Insertion keeps the list sorted by descending score. |
| ModelRouter.InsertWithScore | src/modelRouter.ts:51 | Insertion places the element ahead of every model of equal score already placed, and leaves the models of every other score as they were. The ranking inserts each model into the ranking of the models after it in the library, so this is stability. |
| ModelRouter.RankModels | src/modelRouter.ts:50-52 | The ranking is a permutation of the library, sorted by non-increasing score. Models of equal score keep their library order. |
| ModelRouter.RankingUnique | src/modelRouter.ts:50-52 | A sorted list with the same models per score, in the same order, is the ranking itself. So the stable sort's result is determined. |
| ModelRouter.Tier | src/modelRouter.ts:29-30 | A tier holds only models of that tier. |
| ModelRouter.TierMembers | src/modelRouter.ts:29-30 | A tier holds exactly the models of that tier. |
| ModelRouter.TiersPartition | src/modelRouter.ts:29-31 | The two tiers together are a permutation of the list, and their lengths sum to its length. |
| ModelRouter.TierSorted | src/modelRouter.ts:29-30 | Splitting a sorted list keeps each tier sorted. |
| ModelRouter.TierOfRanking | src/modelRouter.ts:28-30 | The tier of the ranking is the ranking of the tier, so the filter preserves ranked order. |
| ModelRouter.BuildModelLineup | src/modelRouter.ts:25-32 | The lineup's tags are those detected in the haystack. `free` holds only free models and `paid` only paid ones. |
| ModelRouter.LineupSplitsLibrary | src/modelRouter.ts:25-32 | `free` and `paid` are exactly the ranked free and the ranked paid models. Together they hold every library model once. |
| Server.QuestionIssue | src/server.ts:37-40 | A question is accepted iff its length is 4 to 4000. Otherwise the schema's message for too short or for too long applies. |
| Server.ToolInputFrom | src/server.ts:53-55 | The input keeps the question, and carries the context iff it is a non-empty string. |
| Server.AcceptedInput | src/server.ts:36-55 | Accepted arguments give a question within the bounds and, if any, a context of 1 to 12000 characters. The client receives that same context. |
| Server.FailureResponse | src/server.ts:68-84 | The failure text is "Coding advisor tool failed: " + the error's message. `isError` holds iff the error is a rate-limit or provider error. |
| Server.FailureMessageRoundTrip | src/server.ts:69-71 | Equal failure texts come from equal messages: the message can be recovered from the text. |
| Server.TierLabel | src/server.ts:103 | Computes the tier label; `TierLabelDistinguishes` and `CatalogBatchLabels` state what it tells apart. |
| Server.TierLabelDistinguishes | src/server.ts:103 | Two answers get the same label iff they agree on `isFree` and, when paid, on `usedFallback`. So "free tier", "paid fallback" and "paid" are distinct. |
| Server.UsageParts | src/server.ts:132-141 | One non-empty part per present count, in the order prompt, completion, total: a prompt part is first, a total part last, and a completion part comes right after the prompt part or first. |
| Server.FormatUsage | src/server.ts:130-143 | Computes the usage text; `FormatUsageEmpty`, `FormatUsageFull` and `UsageParts` state what it holds. |
| Server.FormatUsageEmpty | src/server.ts:130-143 | The usage text is empty iff there is no usage or no count is present. |
| Server.FormatUsageFull | src/server.ts:130-143 | With all three counts, the text is "prompt P, completion C, total T", in that order. |
| Server.LatencyLine | src/server.ts:110 | Computes the latency line; `LatencyLineUsage` states when the usage suffix is there and what it is. |
| Server.BlockLines | src/server.ts:107-113 | A block has five lines, in this order: the heading `HeadingLine`, "Focus: " and the focus, the latency line with the answer's formatted usage, an empty line, and the response text. |
| Server.Blocks | src/server.ts:101-114 | One block per answer. |
| Server.BlockStartsWithHeading | src/server.ts:107-108 | Every block opens with "Advisor <n>: <label> (<tier>)". |
| Server.HeaderIffFallback | src/server.ts:96-118 | The text starts with the rate-limit warning iff `fallbackTriggered`. |
| Server.FormatBatch | src/server.ts:96-118 | Computes the batch text; `BatchLayout` and `HeaderIffFallback` state its layout. |
| Server.BatchLayout | src/server.ts:101-117 | The text is the optional header, then the blocks joined by "\n\n---\n\n". Block k is answer k's, numbered k + 1. Distinct blocks carry distinct numbers. |
| Server.LatencyLineUsage | src/server.ts:110 | The usage suffix is there iff the usage text is non-empty. It is a space, a vertical bar, a space, "Usage: " and then that text, and without usage text the line is "Latency: " and the latency. |
| Server.CatalogBatchLabels | src/server.ts:103 | With the shipped catalog no answer is labelled plain "paid". |
| Server.Respond | src/server.ts:57-84 | A batch becomes its `FormatBatch` text, not flagged as an error. A failure becomes the failure response. |
| Server.HandleAsk | src/server.ts:52-85 | For accepted arguments the handler runs one batch through the coordinator. It responds with `Respond` of the outcome and leaves the pointer `AdviseRun` gives. |

## Left out

- Cooldowns, availability checks and routing in the coordinator: src/codingAdvisors.ts has none of them, so the model has none either.
  - The code walks `FREE_CODING_MODELS` directly, without the router.
  - The code throws on any non-rate-limit error instead of moving to the next model.
- Network I/O: `fetch`, the request headers, the JSON body, `response.json()` and `safeJson` are the oracle `Exchange`.
  - Its reply holds the status, the raw `retry-after` header, the error body as `safeJson` returns it, the message content and the usage counts.
- System prompt, model id and payload fields: these go straight into the request body.
  - The system prompt, the model id, `temperature` (0.15) and `max_output_tokens` (900) are in the request only.
  - Of the body, only the user message is modelled.
- Floating point is not modelled.
  - `formatLatency` is the `latencyText` parameter of the renderer.
  - `Number(…)` on the `retry-after` header is the `numberOf` parameter; an absent usage count, or one that is not a finite number, is `None`.
  - Numbers in JSON are integers.
- `JSON.stringify` is the `stringify` parameter.
- Latency: `Date.now()` is abstract; the measured time comes with the gateway's reply.
- Regular expressions (`TAG_KEYWORDS`), including the `g\b` alternative that matches any word ending in "g": each tag's patterns are the `TagMatcher` parameter.
- ModelRouter.DetectTags: lower-casing is ASCII only, and non-ASCII letters are unchanged; `toLowerCase` folds all of Unicode.
- Server.QuestionIssue: lengths count Unicode code points, while the schema counts UTF-16 code units, so the bounds differ for text outside the Basic Multilingual Plane.
- `MODEL_LIBRARY`: not part of src/modelCatalog.ts, and the catalog's types lack `reliability` and `strengths`. The router is therefore proved for any library of models that carry them.
- Catalog binding: the coordinator's catalogs are `const` fields bound to the shipped catalog. The client is passed to each call as the gateway rather than held by the object.
- The `!spec` guard in `queryNextFallback`: it cannot fire, since the index is always within the paid list. The loop therefore sees no `continue` for it.
- Thrown values that are not `Error`: the source handles them with `String(error)`, which the model does not cover. Every failure it models carries a message.
- Usage: the client always returns a usage object, so `queryModel`'s `if (chat.usage)` always holds. The model copies the usage as it is.
- Schema: the context's length message and the zod error format are not modelled; only the bounds are.
- Responses: the success response carries no `isError`, which is modelled as `false`.
- MCP server setup: the MCP server, the stdio transport, process exit, `assertConfig`, src/cli.ts, src/config.ts and the scenario scripts are not part of this model.
- Concurrency: the calls are awaited one after another and are modelled sequentially. Concurrent batches on one coordinator are not modelled.

## Findings

| source | as written | input that shows it | evidently intended | confidence | as-written member | corrected member |
|---|---|---|---|---|---|---|
| src/openrouterClient.ts:68-72 | A missing header makes `Number(response.headers.get('retry-after'))` equal to `Number(null)`, which is 0 and finite, so the rate-limit error reports a retry hint of 0 seconds. | A 429 reply without a `retry-after` header. | No retry hint when the header is absent. | medium, not executed | OpenRouter.RetryAfterAsWritten (witness OpenRouter.RetryAfterMissingHeader; `OpenRouter.InterpretResponse` keeps this reading, as the code does) | OpenRouter.RetryAfterSeconds |

Nothing in the core reads `retryAfterSeconds` after it is set, so the corrected reading changes no other result; the model of `chat` keeps the value the code computes.
