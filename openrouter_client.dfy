/**
 * The client of src/openrouterClient.ts, less its network I/O: the
 * constructor's key check, the user message it sends, how it classifies the
 * HTTP status of the reply, and the two decoders `formatErrorMessage` and
 * `extractText`.
 *
 * The request itself (`fetch`, headers, the JSON body, `safeJson`) is an
 * oracle, `Exchange`: given the model id and the user message it yields the
 * parts of the reply the client reads, or the error that `fetch` or
 * `response.json()` threw. `JSON.stringify` and `Number(string)` are
 * parameters of the model (`JsRuntime`).
 */
module OpenRouter {
  import opened Wrappers
  import opened Strings
  import opened JsValues
  import opened AdvisorTypes

  /** `ChatOptions`; the coordinator never sets `temperature` or `maxTokens`. */
  datatype ChatOptions = ChatOptions(question: string, context: Option<string>)

  datatype ChatResult = ChatResult(text: string, usage: Option<Usage>)

  /**
   * The parts of an HTTP reply the client reads: the status, the raw
   * `retry-after` header, the error body as `safeJson` returns it, the
   * message content at `choices[0].message.content` and the token counts.
   */
  datatype HttpResponse = HttpResponse(
    status: int,
    retryAfterHeader: Option<string>,
    errorPayload: Value,
    content: Value,
    usage: Usage)

  datatype HttpOutcome = Responded(response: HttpResponse) | Threw(message: string)

  /** The request: model id and user message in, reply (or thrown error) out. */
  type Exchange = (string, string) -> HttpOutcome

  /**
   * The JavaScript built-ins the model does not spell out: `JSON.stringify`
   * on an object or array, and `Number(s)` on a header string when that is a
   * finite integer.
   */
  datatype JsRuntime = JsRuntime(stringify: Value -> string, numberOf: string -> Option<int>)

  const MissingKeyMessage := "Missing OpenRouter API key."
  const RateLimitDefault := "OpenRouter rate limit reached."
  const QuestionPrefix := "Question: "
  const ContextHeading := "\nAdditional context:\n"
  const ClosingHint := "\nWhen relevant, propose next debugging actions or references."

  datatype OpenRouterClient = OpenRouterClient(apiKey: string, referer: string, appName: string)
  {
    /**
     * `chat`: send the user message for `opts` to `model`; a thrown error
     * propagates, otherwise the reply is classified by its status. A
     * successful result always carries a usage object.
     */
    function Chat(model: string, opts: ChatOptions, exchange: Exchange, js: JsRuntime): (r: Result<ChatResult, Error>)
      ensures exchange(model, UserMessage(opts)).Threw? ==>
                r == Failure(OtherError(exchange(model, UserMessage(opts)).message))
      ensures exchange(model, UserMessage(opts)).Responded? ==>
                r == InterpretResponse(exchange(model, UserMessage(opts)).response, js)
      ensures r.Success? ==> r.value.usage.Some?
    {
      match exchange(model, UserMessage(opts))
      case Threw(message) => Failure(OtherError(message))
      case Responded(response) => InterpretResponse(response, js)
    }
  }

  /** The constructor: an empty API key is refused. */
  function NewClient(apiKey: string, referer: string, appName: string): (r: Result<OpenRouterClient, Error>)
    ensures r.Success? <==> apiKey != ""
    ensures r.Success? ==> r.value == OpenRouterClient(apiKey, referer, appName)
    ensures r.Failure? ==> r.error == OtherError(MissingKeyMessage)
  {
    if apiKey == "" then Failure(OtherError(MissingKeyMessage))
    else Success(OpenRouterClient(apiKey, referer, appName))
  }

  /** `opts.context` is truthy. */
  predicate HasContext(opts: ChatOptions)
  {
    opts.context.Some? && opts.context.value != ""
  }

  /** The lines of the user message, in the order they are pushed. */
  function UserLines(opts: ChatOptions): seq<string>
  {
    [QuestionPrefix + Trim(opts.question)]
    + (if HasContext(opts) then [ContextHeading + Trim(opts.context.value)] else [])
    + [ClosingHint]
  }

  /** The user message: the lines joined by newlines. */
  function UserMessage(opts: ChatOptions): string
  {
    Join(UserLines(opts), "\n")
  }

  /**
   * The user message starts with the trimmed question, carries the heading
   * and the trimmed context only for a non-empty context, and ends with the
   * closing hint.
   */
  lemma UserMessageLayout(opts: ChatOptions)
    ensures UserMessage(opts) == (QuestionPrefix + Trim(opts.question))
              + (if HasContext(opts) then "\n" + (ContextHeading + Trim(opts.context.value)) else "")
              + "\n" + ClosingHint
  {
    var second := if HasContext(opts) then ContextHeading + Trim(opts.context.value) else "";
    JoinOptionalMiddle(QuestionPrefix + Trim(opts.question), second, ClosingHint, HasContext(opts), "\n");
  }

  /** `errorValue.message ?? JSON.stringify(errorValue)`, as the `Error` constructor turns it into text. */
  function ErrorObjectText(errorValue: Value, js: JsRuntime): string
  {
    var message := Get(errorValue, "message");
    if Nullish(message) then js.stringify(errorValue) else ToJsString(message)
  }

  /**
   * `formatErrorMessage`: a text for the error body, or `None`
   * (`undefined`). A falsy body has none; a string is its own text; for an
   * object with an `error` key, a string `error` is the text and an object
   * `error` gives its `message` (or its serialisation); nothing else has one.
   */
  function FormatErrorMessage(payload: Value, js: JsRuntime): (r: Option<string>)
    ensures !Truthy(payload) ==> r == None
    ensures Truthy(payload) && payload.Str? ==> r == Some(payload.s)
    ensures r.Some? ==> payload.Str? || HasKey(payload, "error")
    ensures HasKey(payload, "error") && Get(payload, "error").Str? ==> r == Some(Get(payload, "error").s)
    ensures HasKey(payload, "error") && Truthy(Get(payload, "error")) && IsObjectType(Get(payload, "error")) ==>
              r == Some(ErrorObjectText(Get(payload, "error"), js))
    ensures (HasKey(payload, "error") && !Get(payload, "error").Str?
             && !(Truthy(Get(payload, "error")) && IsObjectType(Get(payload, "error")))) ==> r == None
  {
    if !Truthy(payload) then None
    else if payload.Str? then Some(payload.s)
    else if IsObjectType(payload) && HasKey(payload, "error") then
      var errorValue := Get(payload, "error");
      if errorValue.Str? then Some(errorValue.s)
      else if Truthy(errorValue) && IsObjectType(errorValue) then Some(ErrorObjectText(errorValue, js))
      else None
    else None
  }

  /** The body OpenRouter sends with an error: `{"error": {"message": …}}`. */
  function ErrorBody(message: string): Value
  {
    Obj(map["error" := Obj(map["message" := Str(message)])])
  }

  /** The message of an error body is recovered whole, whatever the serialiser. */
  lemma FormatErrorBody(message: string, js: JsRuntime)
    ensures FormatErrorMessage(ErrorBody(message), js) == Some(message)
    ensures FormatErrorMessage(Obj(map["error" := Str(message)]), js) == Some(message)
  {
  }

  /** The text of one array chunk: its string `text`, else its string `content`, else nothing. */
  function ChunkText(chunk: Value): (text: string)
    ensures !(chunk.Obj? || chunk.Arr?) ==> text == ""
    ensures HasKey(chunk, "text") && Get(chunk, "text").Str? ==> text == Get(chunk, "text").s
    ensures !(HasKey(chunk, "text") && Get(chunk, "text").Str?) && HasKey(chunk, "content") && Get(chunk, "content").Str? ==>
              text == Get(chunk, "content").s
    ensures !(HasKey(chunk, "text") && Get(chunk, "text").Str?) && !(HasKey(chunk, "content") && Get(chunk, "content").Str?) ==>
              text == ""
  {
    if !Truthy(chunk) || !IsObjectType(chunk) then ""
    else if HasKey(chunk, "text") && Get(chunk, "text").Str? then Get(chunk, "text").s
    else if HasKey(chunk, "content") && Get(chunk, "content").Str? then Get(chunk, "content").s
    else ""
  }

  function ChunkTexts(items: seq<Value>): (texts: seq<string>)
    ensures |texts| == |items|
    ensures forall k :: 0 <= k < |items| ==> texts[k] == ChunkText(items[k])
  {
    seq(|items|, k requires 0 <= k < |items| => ChunkText(items[k]))
  }

  /**
   * `extractText`: the reply text. Falsy content gives `''` and a string is
   * itself; an array gives the non-empty chunk texts joined by newlines; an
   * object with a `text` key gives `String(text)`, or `''` when that is
   * nullish; anything else gives `''`.
   */
  function ExtractText(content: Value): (text: string)
    ensures !Truthy(content) ==> text == ""
    ensures content.Str? ==> text == content.s
    ensures content.Arr? ==> text == Join(DropEmpty(ChunkTexts(content.items)), "\n")
    ensures HasKey(content, "text") ==>
              text == (if Nullish(Get(content, "text")) then "" else ToJsString(Get(content, "text")))
    ensures content.Bool? || content.Num? || (content.Obj? && !HasKey(content, "text")) ==> text == ""
  {
    if !Truthy(content) then ""
    else if content.Str? then content.s
    else if content.Arr? then Join(DropEmpty(ChunkTexts(content.items)), "\n")
    else if IsObjectType(content) && HasKey(content, "text") then
      var t := Get(content, "text");
      if Nullish(t) then "" else ToJsString(t)
    else ""
  }

  /** One `{type: 'text', text}` chunk of a multi-part reply. */
  function TextChunk(text: string): (chunk: Value)
    ensures ChunkText(chunk) == text
  {
    var chunk := Obj(map["type" := Str("text"), "text" := Str(text)]);
    assert HasKey(chunk, "text") && Get(chunk, "text") == Str(text);
    chunk
  }

  /** The content of a multi-part reply: one text chunk per piece. */
  function TextChunks(texts: seq<string>): (content: Value)
    ensures content.Arr? && ChunkTexts(content.items) == texts
  {
    Arr(seq(|texts|, k requires 0 <= k < |texts| => TextChunk(texts[k])))
  }

  /**
   * The pieces of a multi-part reply come back out of `extractText`: empty
   * pieces are dropped and, when no piece holds a newline, splitting the
   * text on newlines gives exactly the remaining pieces.
   */
  lemma ExtractTextChunks(texts: seq<string>)
    ensures ExtractText(TextChunks(texts)) == Join(DropEmpty(texts), "\n")
    ensures (forall k :: 0 <= k < |texts| ==> '\n' !in texts[k]) && DropEmpty(texts) != [] ==>
              SplitOn(ExtractText(TextChunks(texts)), '\n') == DropEmpty(texts)
  {
    if (forall k :: 0 <= k < |texts| ==> '\n' !in texts[k]) && DropEmpty(texts) != [] {
      var kept := DropEmpty(texts);
      forall k | 0 <= k < |kept| ensures '\n' !in kept[k] {
        assert kept[k] in texts;
      }
      SplitJoin(kept, '\n');
    }
  }

  /** `Number(response.headers.get('retry-after'))` kept only when finite, as written. */
  function RetryAfterAsWritten(header: Option<string>, js: JsRuntime): Option<int>
  {
    match header
    case None => Some(0)   // `Number(null)` is 0, which is finite
    case Some(h) => js.numberOf(h)
  }

  /** A 429 without the header reports a retry hint of 0 seconds rather than none. */
  lemma RetryAfterMissingHeader(js: JsRuntime)
    ensures RetryAfterAsWritten(None, js) == Some(0)
    ensures RetryAfterSeconds(None, js) == None
  {
  }

  /** The retry hint: the parsed header when there is one and it is a finite number, else none. */
  function RetryAfterSeconds(header: Option<string>, js: JsRuntime): (r: Option<int>)
    ensures header.None? ==> r.None?
    ensures header.Some? ==> r == js.numberOf(header.value)
    ensures header.Some? ==> r == RetryAfterAsWritten(header, js)
  {
    match header
    case None => None
    case Some(h) => js.numberOf(h)
  }

  /** `response.ok`. */
  predicate IsOk(status: int)
  {
    200 <= status <= 299
  }

  /**
   * What `chat` makes of a reply: 429 is a rate limit (checked first), any
   * other non-2xx status a provider error carrying that status, a 2xx status
   * a result. Without a usable error body the messages default to the fixed
   * rate-limit text and to "OpenRouter error <status>".
   */
  function InterpretResponse(response: HttpResponse, js: JsRuntime): (r: Result<ChatResult, Error>)
    ensures r.Success? <==> IsOk(response.status)
    ensures (r.Failure? && r.error.RateLimitError?) <==> response.status == 429
    ensures (r.Failure? && r.error.OpenRouterError?) <==> response.status != 429 && !IsOk(response.status)
    ensures !(r.Failure? && r.error.OtherError?)
    ensures r.Failure? && r.error.OpenRouterError? ==> r.error.status == Some(response.status)
    ensures r.Failure? && r.error.RateLimitError? ==>
              r.error.retryAfterSeconds == RetryAfterAsWritten(response.retryAfterHeader, js)
    ensures r.Failure? ==>
              r.error.message == FormatErrorMessage(response.errorPayload, js).GetOr(
                if response.status == 429 then RateLimitDefault
                else "OpenRouter error " + IntToString(response.status))
    ensures r.Success? ==> r.value == ChatResult(ExtractText(response.content), Some(response.usage))
  {
    if response.status == 429 then
      Failure(RateLimitError(
        FormatErrorMessage(response.errorPayload, js).GetOr(RateLimitDefault),
        RetryAfterAsWritten(response.retryAfterHeader, js)))
    else if !IsOk(response.status) then
      Failure(OpenRouterError(
        FormatErrorMessage(response.errorPayload, js).GetOr("OpenRouter error " + IntToString(response.status)),
        Some(response.status)))
    else
      Success(ChatResult(ExtractText(response.content), Some(response.usage)))
  }
}
