/** The FastAPI application of the Python backend: start-up of the single
    `RAGService`, the dependency that hands it to the chat endpoint, and the
    chat and health endpoints. HTTP framing, CORS and logging are not
    modelled; an endpoint either returns a body or raises an `HttpError`. */
module BackendApp {
  import opened Wrappers
  import opened DocumentProcessing
  import opened RagPipeline
  import opened Schemas

  datatype HttpError = HttpError(statusCode: int, detail: string)

  /** An endpoint's outcome: a response body, or an HTTP error. */
  datatype Reply<+T> = Ok(body: T) | Err(error: HttpError)

  const ServiceUnavailableDetail :=
    "RAG service is not available. The service failed to initialize. Please check server logs for details."
  const ChatErrorPrefix := "Error processing your question: "
  /** Stand-in for the text of pydantic's request validation errors. */
  const RequestValidationDetail := "question: invalid"
  /** Stand-in for the text of pydantic's error for a `None` response. */
  const ResponseValidationMessage := "response: Input should be a valid string"

  /** The reply `chat_endpoint` builds from what `get_answer` returned. */
  function ChatReply(answer: Option<string>, sources: seq<string>): (reply: Reply<ChatResponse>)
    ensures reply.Err? <==> answer.None?
    ensures reply.Err? ==> reply.error == HttpError(500, ChatErrorPrefix + ResponseValidationMessage)
    ensures reply.Ok? ==> reply.body.response == answer.value
    ensures reply.Ok? ==> (reply.body.sources.None? <==> sources == [])
    ensures reply.Ok? && sources != [] ==> reply.body.sources == Some(sources)
  {
    match MakeChatResponse(answer, if sources != [] then Some(sources) else None)
    case None => Err(HttpError(500, ChatErrorPrefix + ResponseValidationMessage))
    case Some(response) => Ok(response)
  }

  class App {
    /** The module-level `rag_service` singleton. */
    var ragService: Option<RagService>

    /** A running service always has its chain and its vector store. */
    predicate Valid()
      reads this, if ragService.Some? then {ragService.value, ragService.value.processor} else {}
    {
      ragService.Some? ==> ragService.value.Ready()
    }

    constructor ()
      ensures ragService == None && Valid()
    {
      ragService := None;
    }

    /** The start-up half of `lifespan`: a failed `RAGService()` leaves the
        service unset and the application still starts. */
    method Startup(env: Environment, docsDirectory: string, persistPath: string, embeddings: Result<()>,
                   llm: Result<Llm>, buildChain: (VectorStore, Llm) -> Result<Chain>)
      modifies this
      ensures Valid()
      ensures ragService.Some? <==> StartsUp(env, docsDirectory, persistPath, embeddings, llm, buildChain)
      ensures ragService.Some? ==> fresh(ragService.value) && ragService.value.processor.env == env
    {
      var created := RagService.Create(env, docsDirectory, persistPath, embeddings, llm, buildChain);
      if created.Success? {
        ragService := Some(created.value);
      } else {
        ragService := None;
      }
    }

    /** `get_rag_service`: the service, or 503 while there is none. */
    function GetRagService(): (r: Reply<RagService>)
      reads this
      ensures r.Ok? <==> ragService.Some?
      ensures r.Ok? ==> r.body == ragService.value
      ensures r.Err? ==> r.error == HttpError(503, ServiceUnavailableDetail)
    {
      if ragService.None? then Err(HttpError(503, ServiceUnavailableDetail)) else Ok(ragService.value)
    }

    /** `POST /chat`: the dependency is resolved first (503), then the body is
        validated (422), then the service answers; a `None` answer fails the
        response's validation (500), and an empty sources list is sent as
        `None`. */
    method ChatEndpoint(question: Option<string>) returns (reply: Reply<ChatResponse>)
      ensures ragService.None? ==> reply == Err(HttpError(503, ServiceUnavailableDetail))
      ensures ragService.Some? && ParseChatRequest(question).None? ==>
        reply == Err(HttpError(422, RequestValidationDetail))
      ensures ragService.Some? && ParseChatRequest(question).Some? ==>
        var (answer, sources) := AnswerOf(ragService.value.retrievalChain, question.value);
        reply == ChatReply(answer, sources)
    {
      var service := GetRagService();
      if service.Err? {
        return Err(service.error);
      }
      var request := ParseChatRequest(question);
      if request.None? {
        return Err(HttpError(422, RequestValidationDetail));
      }
      var answer, sources, _ := service.body.GetAnswer(request.value.question);
      reply := ChatReply(answer, sources);
    }

    /** `GET /health`: "degraded"/"unavailable" without a service; otherwise
        the vector store status the service reports, which fetching the store
        may have loaded. A running service always reports a healthy store. */
    method HealthEndpoint() returns (reply: Reply<HealthResponse>)
      modifies if ragService.Some? then {ragService.value.processor} else {}
      ensures ragService.None? ==> reply == Ok(HealthResponse(status := "degraded", vectorStoreStatus := "unavailable"))
      ensures ragService.Some? ==>
        var p := ragService.value.processor;
        var (store, state) := GetOutcome(p.env, p.docsDirectory, p.persistPath, old(p.vectorStore));
        && p.vectorStore == state
        && reply == Ok(HealthResponse(vectorStoreStatus := if store.Success? then "healthy" else "error"))
      ensures old(Valid()) ==> Valid()
      ensures old(Valid()) && ragService.Some? ==> reply == Ok(HealthResponse(vectorStoreStatus := "healthy"))
    {
      var healthInfo := HealthResponse();
      if ragService.Some? {
        var serviceHealth := ragService.value.HealthCheck();
        healthInfo := healthInfo.(vectorStoreStatus :=
          if "vector_store_status" in serviceHealth then serviceHealth["vector_store_status"] else "unknown");
      } else {
        healthInfo := healthInfo.(vectorStoreStatus := "unavailable", status := "degraded");
      }
      reply := Ok(healthInfo);
    }
  }
}
