/**
 * The shapes of the `@google/generative-ai` values the two route handlers read. The SDK calls
 * themselves (`generateContent`, `sendMessage`) are parameters of the handlers.
 */
module GenAi {
  import opened Wrappers
  import opened JsRuntime

  /** An opaque handle on a stateful multi-turn chat with the model. */
  datatype ChatSession = ChatSession(id: nat)

  /** One fragment of a candidate's content; `text` may be absent. */
  datatype Part = Part(text: Option<string>)

  /** A candidate's content; `parts` may be absent. */
  datatype Content = Content(parts: Option<seq<Part>>)

  /** One candidate answer; `content` may be absent. */
  datatype Candidate = Candidate(content: Option<Content>)

  /**
   * A model response: what its `text()` accessor returns or throws, and its `candidates`
   * array, which may be absent.
   */
  datatype ModelResponse = ModelResponse(text: Result<string, JsError>, candidates: Option<seq<Candidate>>)
}
