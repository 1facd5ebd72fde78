/**
 * The `/query_answer` endpoint: retrieve a context for the question, detect
 * the question's language, generate the answer, and map every exception to
 * an HTTP error reply.
 */
module Routes {
  import opened Errors
  import opened Embedding
  import VectorDb
  import LlmService

  /** The request body: a user name and a question. */
  datatype Query = Query(userName: string, question: string)

  /** What langid's `classify` returns: a language code and a score. */
  datatype Classification = Classification(language: string, score: real)

  type LanguageClassifier = string -> Result<Classification>

  /** A JSON reply with status 200, or the `HTTPException` that leaves the endpoint. */
  datatype Reply = Json(body: map<string, string>) | HttpError(statusCode: int, detail: string)

  const NotFoundDetail := "No relevant context found"
  const UnexpectedDetail := "An unexpected error occurred."

  /**
   * The two `except` clauses: an `HTTPException` is re-raised as it is,
   * anything else becomes a 500.
   */
  function Escalate(e: Error): (reply: Reply)
    ensures reply.HttpError?
    ensures e.HTTPException? ==> reply == HttpError(e.statusCode, e.detail)
    ensures !e.HTTPException? ==> reply == HttpError(500, UnexpectedDetail)
  {
    match e
    case HTTPException(status, detail) => HttpError(status, detail)
    case _ => HttpError(500, UnexpectedDetail)
  }

  /** `query_answer(query)`. */
  function QueryAnswer(query: Query, embedder: Embedder, collection: VectorDb.Collection,
                       classify: LanguageClassifier, chat: LlmService.ChatService): (reply: Reply)
    reads collection
    // Search first; an empty context is answered 404 before the later stages.
    ensures var found := VectorDb.SearchSimilarDocuments(query.question, embedder, collection);
      && (found.Err? ==> reply == Escalate(found.error))
      && (found == Ok([]) ==> reply == HttpError(404, NotFoundDetail))
    // Then language detection, then generation from the first context text.
    ensures var found := VectorDb.SearchSimilarDocuments(query.question, embedder, collection);
      found.Ok? && found.value != [] ==>
        var language := classify(query.question);
        && (language.Err? ==> reply == Escalate(language.error))
        && (language.Ok? ==>
              var answer := LlmService.GetLlmResponse(query.question, found.value[0], language.value.language, chat);
              && (answer.Err? ==> reply == Escalate(answer.error))
              && (answer.Ok? ==> reply == Json(map["response" := answer.value])))
    // A 200 reply happens exactly when every stage succeeded.
    ensures var found := VectorDb.SearchSimilarDocuments(query.question, embedder, collection);
      reply.Json? <==>
        found.Ok? && found.value != [] && classify(query.question).Ok?
        && LlmService.GetLlmResponse(query.question, found.value[0], classify(query.question).value.language, chat).Ok?
  {
    match VectorDb.SearchSimilarDocuments(query.question, embedder, collection)
    case Err(e) => Escalate(e)
    case Ok(context) =>
      if context == [] then Escalate(HTTPException(404, NotFoundDetail))
      else
        match classify(query.question)
        case Err(e) => Escalate(e)
        case Ok(classification) =>
          match LlmService.GetLlmResponse(query.question, context[0], classification.language, chat)
          case Err(e) => Escalate(e)
          case Ok(response) => Json(map["response" := response])
  }

  /** With no context found, neither the language classifier nor the chat model matters. */
  lemma NotFoundSkipsLaterStages(query: Query, embedder: Embedder, collection: VectorDb.Collection,
                                 classify1: LanguageClassifier, chat1: LlmService.ChatService,
                                 classify2: LanguageClassifier, chat2: LlmService.ChatService)
    requires VectorDb.SearchSimilarDocuments(query.question, embedder, collection) == Ok([])
    ensures QueryAnswer(query, embedder, collection, classify1, chat1)
         == QueryAnswer(query, embedder, collection, classify2, chat2)
         == HttpError(404, NotFoundDetail)
  {
  }

  /**
   * The chat model is consulted only on the request built from the question,
   * the first context text and the detected language.
   */
  lemma GenerationSeesFirstContext(query: Query, embedder: Embedder, collection: VectorDb.Collection,
                                   classify: LanguageClassifier,
                                   chat1: LlmService.ChatService, chat2: LlmService.ChatService)
    requires var found := VectorDb.SearchSimilarDocuments(query.question, embedder, collection);
      found.Ok? && found.value != [] && classify(query.question).Ok? ==>
        var request := LlmService.BuildRequest(query.question, found.value[0], classify(query.question).value.language);
        chat1(request) == chat2(request)
    ensures QueryAnswer(query, embedder, collection, classify, chat1)
         == QueryAnswer(query, embedder, collection, classify, chat2)
  {
  }

  /**
   * Every reply is a 200 with one `response` field, the 404 for a missing
   * context, the 500, or an `HTTPException` raised by one of the stages.
   */
  lemma ReplyKinds(query: Query, embedder: Embedder, collection: VectorDb.Collection,
                   classify: LanguageClassifier, chat: LlmService.ChatService)
    ensures var reply := QueryAnswer(query, embedder, collection, classify, chat);
      || (reply.Json? && reply.body.Keys == {"response"})
      || reply == HttpError(404, NotFoundDetail)
      || reply == HttpError(500, UnexpectedDetail)
      || (var found := VectorDb.SearchSimilarDocuments(query.question, embedder, collection);
          || found == Err(HTTPException(reply.statusCode, reply.detail))
          || classify(query.question) == Err(HTTPException(reply.statusCode, reply.detail))
          || (found.Ok? && found.value != [] && classify(query.question).Ok?
              && LlmService.GetLlmResponse(query.question, found.value[0], classify(query.question).value.language, chat)
                 == Err(HTTPException(reply.statusCode, reply.detail))))
  {
  }
}
