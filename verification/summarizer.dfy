/** `Summarizer` and `OpenRouterHandler`: which service a summary request
    goes to, with which prompt, and what the caller gets back from the
    service's answer. The services are parameters: their answer to one
    request. */
module Summarizer {
  import opened Wrappers
  import opened Text
  import Settings
  import opened Prompts

  datatype Backend = Ollama | OpenRouter

  /** A summariser: the provider flag it was made with, whether it made an
      OpenRouter handler, and its current context. */
  datatype SummarizerState = SummarizerState(useOpenRouter: bool, hasHandler: bool, context: string)

  /** The constructor: a handler is made only for OpenRouter with a key. */
  function Create(s: Settings.AppSettings): (r: SummarizerState)
    ensures r.useOpenRouter == s.useOpenRouter
    ensures r.hasHandler <==> s.useOpenRouter && s.openRouterKey != ""
    ensures IsLowerCased(r.context) && KindOf(r.context) == Meeting
  {
    MeetingIsLowerCased();
    SummarizerState(s.useOpenRouter, s.useOpenRouter && s.openRouterKey != "", DefaultContext)
  }

  predicate IsLowerCased(s: string)
  {
    ToLower(s) == s
  }

  lemma MeetingIsLowerCased()
    ensures IsLowerCased(DefaultContext)
  {
    LowerOfLowercase(DefaultContext);
  }

  /** `Summarizer.SetContext`. */
  function WithContext(sm: SummarizerState, context: string): (r: SummarizerState)
    ensures r.useOpenRouter == sm.useOpenRouter && r.hasHandler == sm.hasHandler
    ensures IsLowerCased(r.context)
    ensures KindOf(r.context) == KindOf(ToLower(context))
  {
    ToLowerIdempotent(context);
    sm.(context := SetContext(context))
  }

  /** A request to a summarisation service. */
  datatype Request = Request(backend: Backend, prompt: string)

  const SummaryNotConfigured: string := "OpenRouter is not configured. Please check your API key."
  const NotConfigured: string := "OpenRouter is not configured."

  /** Where a request goes: OpenRouter exactly when the flag is set, and then
      only if the handler exists. The handler is given the summariser's
      context through its own `SetContext`, which lower-cases it again. */
  function Route(sm: SummarizerState, prompt: string -> string, missingHandler: string): (r: Result<Request>)
    ensures r.Failure? <==> sm.useOpenRouter && !sm.hasHandler
    ensures r.Failure? ==> r.error == missingHandler
    ensures r.Success? ==> (r.value.backend == OpenRouter <==> sm.useOpenRouter)
    ensures r.Success? && sm.useOpenRouter ==> r.value.prompt == prompt(SetContext(sm.context))
    ensures r.Success? && !sm.useOpenRouter ==> r.value.prompt == prompt(sm.context)
  {
    if sm.useOpenRouter then
      if !sm.hasHandler then Failure(missingHandler)
      else Success(Request(OpenRouter, prompt(SetContext(sm.context))))
    else Success(Request(Ollama, prompt(sm.context)))
  }

  /** `SummarizeAsync`. */
  function Summarize(sm: SummarizerState, transcript: string): (r: Result<Request>)
    ensures r.Failure? <==> sm.useOpenRouter && !sm.hasHandler
    ensures r.Failure? ==> r.error == SummaryNotConfigured
    ensures r.Success? ==> r.value.backend == (if sm.useOpenRouter then OpenRouter else Ollama)
    ensures r.Success? ==> r.value.prompt == BuildPrompt(transcript, if sm.useOpenRouter then SetContext(sm.context) else sm.context)
  {
    Route(sm, (c: string) => BuildPrompt(transcript, c), SummaryNotConfigured)
  }

  /** `SummarizeChunkAsync`. */
  function SummarizeChunk(sm: SummarizerState, chunkTranscript: string, chunkNumber: int): (r: Result<Request>)
    ensures r.Failure? <==> sm.useOpenRouter && !sm.hasHandler
    ensures r.Failure? ==> r.error == NotConfigured
    ensures r.Success? ==> r.value.backend == (if sm.useOpenRouter then OpenRouter else Ollama)
    ensures r.Success? ==>
      r.value.prompt == BuildChunkPrompt(chunkTranscript, chunkNumber, if sm.useOpenRouter then SetContext(sm.context) else sm.context)
  {
    Route(sm, (c: string) => BuildChunkPrompt(chunkTranscript, chunkNumber, c), NotConfigured)
  }

  /** `SummarizeCombinedChunksAsync`. */
  function SummarizeCombined(sm: SummarizerState, combinedSummaries: string, totalChunks: int): (r: Result<Request>)
    ensures r.Failure? <==> sm.useOpenRouter && !sm.hasHandler
    ensures r.Failure? ==> r.error == NotConfigured
    ensures r.Success? ==> r.value.backend == (if sm.useOpenRouter then OpenRouter else Ollama)
    ensures r.Success? ==>
      r.value.prompt == BuildCombinedPrompt(combinedSummaries, totalChunks, if sm.useOpenRouter then SetContext(sm.context) else sm.context)
  {
    Route(sm, (c: string) => BuildCombinedPrompt(combinedSummaries, totalChunks, c), NotConfigured)
  }

  /** The service follows the saved provider flag, and nothing else. */
  lemma RoutingFollowsSetting(s: Settings.AppSettings, context: string, transcript: string)
    requires !s.useOpenRouter || s.openRouterKey != ""
    ensures var sm := WithContext(Create(s), context);
      && Summarize(sm, transcript).Success?
      && (Summarize(sm, transcript).value.backend == OpenRouter <==> s.useOpenRouter)
  {
  }

  /** OpenRouter chosen without a key: every kind of summary fails, each
      with its own message. */
  lemma MissingKeyFailsEverySummary(s: Settings.AppSettings, text: string, n: int)
    requires s.useOpenRouter && s.openRouterKey == ""
    ensures Summarize(Create(s), text) == Failure(SummaryNotConfigured)
    ensures SummarizeChunk(Create(s), text, n) == Failure(NotConfigured)
    ensures SummarizeCombined(Create(s), text, n) == Failure(NotConfigured)
  {
  }

  /** Both services are sent the same prompt: the context is stored
      lower-cased, so the handler's second lower-casing changes nothing. */
  lemma BackendsGetSamePrompt(sm: SummarizerState, transcript: string)
    requires IsLowerCased(sm.context)
    ensures var viaOpenRouter := Summarize(sm.(useOpenRouter := true, hasHandler := true), transcript);
      var viaOllama := Summarize(sm.(useOpenRouter := false), transcript);
      viaOpenRouter.Success? && viaOllama.Success? && viaOpenRouter.value.prompt == viaOllama.value.prompt
  {
  }

  // ---------------------------------------------------------------- answers

  /** What Ollama answers: no connection, an error status (with the message
      of the exception it raises), or a body whose message may be missing. */
  datatype OllamaReply =
    | OllamaUnreachable(message: string)
    | OllamaErrorStatus(message: string)
    | OllamaMessage(content: Option<string>)

  const NoSummaryContent: string := "No summary content received."

  /** `CallOllamaAsync` after the request. */
  function OllamaOutcome(ollamaUrl: string, reply: OllamaReply): (r: Result<string>)
    ensures r.Success? <==> reply.OllamaMessage?
    ensures reply.OllamaMessage? && reply.content.Some? ==> r == Success(reply.content.value)
    ensures reply == OllamaMessage(None) ==> r == Success(NoSummaryContent)
    ensures reply.OllamaUnreachable? ==> r == Failure(reply.message)
    ensures reply.OllamaErrorStatus? ==>
      r == Failure("Failed to call Ollama API. Is Ollama running at " + ollamaUrl + "? Error: " + reply.message)
  {
    match reply
    case OllamaUnreachable(m) => Failure(m)
    case OllamaErrorStatus(m) =>
      Failure("Failed to call Ollama API. Is Ollama running at " + ollamaUrl + "? Error: " + m)
    case OllamaMessage(content) => Success(content.GetOr(NoSummaryContent))
  }

  /** What OpenRouter answers: no connection, an error status with its
      body, or a completion whose content may be null. */
  datatype CompletionReply =
    | Unreachable(message: string)
    | ErrorStatus(status: string, body: string)
    | Completion(content: Option<string>)

  const NoResponseContent: string := "No response content received."

  /** `GetCompletionAsync` after the request. */
  function CompletionOutcome(reply: CompletionReply): (r: Result<string>)
    ensures r.Success? <==> reply.Completion?
    ensures reply.Completion? && reply.content.Some? ==> r == Success(reply.content.value)
    ensures reply == Completion(None) ==> r == Success(NoResponseContent)
    ensures reply.ErrorStatus? ==> r == Failure("OpenRouter API error (" + reply.status + "): " + reply.body)
    ensures reply.Unreachable? ==> r == Failure("OpenRouter API call failed: " + reply.message)
  {
    match reply
    case Unreachable(m) => Failure("OpenRouter API call failed: " + m)
    case ErrorStatus(status, body) => Failure("OpenRouter API error (" + status + "): " + body)
    case Completion(content) => Success(content.GetOr(NoResponseContent))
  }

  /** The caller cannot tell a missing answer from a service that answered
      with the fallback text itself. */
  lemma FallbackIsIndistinguishable()
    ensures CompletionOutcome(Completion(None)) == CompletionOutcome(Completion(Some(NoResponseContent)))
    ensures OllamaOutcome("", OllamaMessage(None)) == OllamaOutcome("", OllamaMessage(Some(NoSummaryContent)))
  {
  }
}
