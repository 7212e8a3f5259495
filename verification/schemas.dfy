/** The request and response bodies of the Python backend and the checks
    pydantic applies when they are built. Lengths count code points, which is
    what `len` on a Python string counts. */
module Schemas {
  import opened Wrappers

  const QuestionMinLength := 1
  const QuestionMaxLength := 2000

  /** The body of `POST /chat`. */
  datatype ChatRequest = ChatRequest(question: string)

  /** The answer, with the sources list only when there is one; the creation
      timestamp is not modelled. */
  datatype ChatResponse = ChatResponse(response: string, sources: Option<seq<string>>)

  /** The body of `GET /health`, with its field defaults. */
  datatype HealthResponse = HealthResponse(status: string := "healthy", vectorStoreStatus: string := "unknown")

  /** Validation of a request body whose "question" field is `question`
      (`None` when the field is absent). */
  function ParseChatRequest(question: Option<string>): (r: Option<ChatRequest>)
    ensures r.Some? <==> question.Some? && QuestionMinLength <= |question.value| <= QuestionMaxLength
    ensures r.Some? ==> r.value.question == question.value
  {
    if question.Some? && QuestionMinLength <= |question.value| <= QuestionMaxLength
    then Some(ChatRequest(question.value)) else None
  }

  /** `ChatResponse(response=..., sources=...)`: the response is required and
      must be a string, so `None` fails validation; sources default to `None`. */
  function MakeChatResponse(response: Option<string>, sources: Option<seq<string>> := None): (r: Option<ChatResponse>)
    ensures r.Some? <==> response.Some?
    ensures r.Some? ==> r.value.response == response.value && r.value.sources == sources
  {
    if response.None? then None else Some(ChatResponse(response.value, sources))
  }
}
