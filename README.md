# rag-cohere-api in Dafny

A model of the retrieval pipeline of a small Retrieval-Augmented-Generation service written in
Python on FastAPI, Cohere and ChromaDB. At start-up a Word document is split into paragraphs
("chunks"), each chunk is embedded and added to a ChromaDB collection. A `/query_answer`
request embeds the question, takes the most similar stored chunk as context, detects the
question's language, and asks the Cohere chat model for a one-sentence answer. An empty context
becomes a 404 reply, an `HTTPException` raised by a stage keeps its own status, and any other
exception becomes a 500.

The external services become values:

- the two Cohere embedding modes are two functions in `Embedding.Embedder`;
- the chat endpoint is `LlmService.ChatService`;
- langid's `classify` is `Routes.LanguageClassifier`;
- python-docx's `Document(path)` is `Docx.DocumentReader`;
- ChromaDB's answers to `add` and `query` are the `verdict` and `answer` functions of a
  `VectorDb.Collection`.

Each of these functions returns a result or the exception the call raised. Python exceptions are
the `Errors.Error` datatype, and every `raise` is an `Err`/`Fail` value. So every `try`/`except`
becomes a case split.

Modules, one per source file plus helpers:

- `Text` (`text.dfy`): Python's `str.strip()` over Python's whitespace characters, with lemmas
  that pin it down. The result is the slice between two whitespace margins, and it is the only
  stripped string with that property. Stripping is idempotent.
- `Decimal` (`decimal.dfy`): `str(i)` for the record ids, and parsing it back.
- `Docx`, `Embedding`: the data the collaborators exchange.
- `LoadDocuments` (`app/utils/load_documents.py`): the chunk filter `Chunks`. The loop
  `ExtractChunks` is proved equal to it. `LoadDocument` swallows and logs every error.
- `ScriptLoadDocuments` (`scripts/load_documents.py`): the same filter, and a `LoadDocument`
  that lets every error through.
- `VectorDb` (`app/services/vector_db_service.py`):
  - the collection is a class whose state is the sequence of `add` calls it has accepted;
  - `AddDocuments` is the ingestion loop, proved equal to the recursive `IngestFrom`;
  - `SearchSimilarDocuments` returns the first result row.
- `LlmService` (`app/services/llm_service.py`): the instruction text, the chat request and its
  inverse `ParseRequest`, and the extraction of the first content segment.
- `Routes` (`app/api/routes.py`): `QueryAnswer` and its mapping of exceptions to replies.

How the code treats errors and stored records:

- Every exception is re-raised exactly as the callee raised it. There are no separate error kinds,
  so `AddDocuments`, `SearchSimilarDocuments` and `GetLlmResponse` return the callee's `Error`
  unchanged.
- A failing `classify` has no fallback language. It ends in a 500.
- An unreadable document is only logged by the application, which then adds nothing. The script
  raises instead.

## Model

| member | source | states |
|---|---|---|
| `Text.StripLeftSpec` | app/utils/load_documents.py:41 | `lstrip` leaves a suffix of the text, removes only whitespace, and never leaves leading whitespace |
| `Text.StripRightSpec` | app/utils/load_documents.py:41 | `rstrip` leaves a prefix of the text, removes only whitespace, and never leaves trailing whitespace |
| `Text.Strip` | app/utils/load_documents.py:41-42 | `strip()` is never longer than its input and has no whitespace at either end; it is empty exactly when the text is whitespace only |
| `Text.StripMargins` | app/utils/load_documents.py:41-42 | the text is a whitespace prefix, then `strip()`'s result, then a whitespace suffix |
| `Text.StripUnique` | app/utils/load_documents.py:41-42 | removing any whitespace margins from a stripped string gives `strip()`'s result, so `strip()` is fully determined |
| `Text.StripIdempotent` | app/utils/load_documents.py:41-42 | stripping twice is stripping once |
| `Decimal.NatToString` | app/services/vector_db_service.py:46-47 | `str(i)` is a non-empty string of decimal digits without a leading zero |
| `Decimal.ParseNatToString` | app/services/vector_db_service.py:46-47 | `int(str(i)) == i` |
| `Decimal.NatToStringInjective` | app/services/vector_db_service.py:47 | distinct indices have distinct decimal strings |
| `LoadDocuments.ChunksWellFormed` | app/utils/load_documents.py:39-43 | `Chunks`, the trim-and-filter of the loop: every chunk is non-empty with no leading or trailing whitespace, and there are at most as many chunks as paragraphs |
| `LoadDocuments.ChunksSelect` | app/utils/load_documents.py:39-43 | `Chunks` of the paragraphs is, in paragraph order, the stripped texts of exactly those paragraphs whose stripped text is non-empty |
| `LoadDocuments.ChunksAppend` | app/utils/load_documents.py:40-43 | chunking a concatenation concatenates the chunks, so paragraph order is kept |
| `LoadDocuments.BlankParagraphIgnored` | app/utils/load_documents.py:41 | an empty or whitespace-only paragraph contributes nothing, wherever it stands |
| `LoadDocuments.ChunksOfChunks` | app/utils/load_documents.py:39-43 | chunking paragraphs that are already non-empty and stripped returns their texts unchanged |
| `LoadDocuments.ChunksIdempotent` | app/utils/load_documents.py:41-42 | applying the trim-and-filter again to its output returns that output |
| `LoadDocuments.ExtractChunks` | app/utils/load_documents.py:26-43 | the loop returns exactly `Chunks` of the document's paragraphs |
| `LoadDocuments.LogFor` | app/utils/load_documents.py:66-71 | the handlers are tried in order: a `FileNotFoundError` is logged with the document's path, a ValueError with its message, anything else as unexpected |
| `LoadDocuments.LoadDocument` | app/utils/load_documents.py:45-71 | the extract_chunks result goes to add_documents; the method always returns, and an error's only effect is its log entry; when the file cannot be opened nothing is added |
| `ScriptLoadDocuments.ExtractParagraphs` | scripts/load_documents.py:4-9 | computes the same `Chunks` as the application's extract_chunks |
| `ScriptLoadDocuments.LoadDocument` | scripts/load_documents.py:11-17 | the extracted paragraphs go to add_documents; an error from opening or adding is returned to the caller unchanged |
| `VectorDb.Collection.constructor` | app/services/vector_db_service.py:24-25 | the collection opens holding its persisted calls |
| `VectorDb.Collection.Add` | app/services/vector_db_service.py:43-48 | an accepted add appends that one call; a failing add raises and changes nothing |
| `VectorDb.AddCallForShape` | app/services/vector_db_service.py:42-48 | `AddCallFor`, the `collection.add` call for document `i`: exactly that document as its single text, the embeddings as returned, id exactly `"id_" + str(i)` and metadata exactly `{"source": "doc_" + str(i)}`, whose numbers parse back to `i` |
| `VectorDb.IngestFrom` | app/services/vector_db_service.py:40-53 | ingestion only appends to the collection, attempts at most the remaining documents, and attempts none when none remain |
| `VectorDb.IngestStoresInOrder` | app/services/vector_db_service.py:40-48 | the k-th added call is the record of document k, built from its document-mode embeddings; all documents are added when nothing fails |
| `VectorDb.IngestStopsAtFirstFailure` | app/services/vector_db_service.py:40-53 | on failure at index j, the documents before j stay added, none after j is embedded, and the exception of the embedder or of add at j is re-raised |
| `VectorDb.IngestAcceptedBefore` | app/services/vector_db_service.py:40-53 | every add before the stopping index was accepted, each on the collection holding exactly the records before it, so no failing add is passed over |
| `VectorDb.IngestSeesOnlyAttempted` | app/services/vector_db_service.py:40-53 | ingestion is unchanged under any embedder that agrees on the documents it attempted, so no document after the failing one is embedded |
| `VectorDb.IngestIdAt` | app/services/vector_db_service.py:40-47 | the record stored at position `k` has one id, whose number is its document's index, `k` minus the calls held before ingestion |
| `VectorDb.IngestIdsDistinct` | app/services/vector_db_service.py:47 | the records one ingestion adds have pairwise distinct ids |
| `VectorDb.AddDocuments` | app/services/vector_db_service.py:27-53 | the loop leaves the collection and the outcome exactly as `IngestFrom` says, and embeds exactly `attempted` documents |
| `VectorDb.FirstRow` | app/services/vector_db_service.py:78 | the first row of the reply, or `[]` when there are no rows |
| `VectorDb.SearchSimilarDocuments` | app/services/vector_db_service.py:55-81 | the default `n_results` is 1; the query is embedded in query mode; errors are re-raised, never turned into `[]`; on success the result is the first row |
| `VectorDb.SearchUsesQueryMode` | app/services/vector_db_service.py:73 | search does not depend on the document-mode embedder |
| `LlmService.LanguageOfSystemMessage` | app/services/llm_service.py:48-56 | `SystemMessage`, the instruction text: the language is recovered from the instruction text built for it |
| `LlmService.SystemMessageOfLanguage` | app/services/llm_service.py:48-56 | a text that carries a language is the fixed instruction text with that language interpolated in `2. Responde en idioma (...)` |
| `LlmService.ParseRequest` | app/services/llm_service.py:59-71 | an accepted request has the fixed model and temperature, the system and user messages in that order, and the context as its only document |
| `LlmService.ParseBuildRequest` | app/services/llm_service.py:48-71 | `BuildRequest`, the chat call's arguments: a request has that shape exactly when it is built from the (message, context, language) that ParseRequest reads back |
| `LlmService.GetLlmResponse` | app/services/llm_service.py:65-76 | a chat failure is re-raised unchanged with no fallback; an empty content raises IndexError; a successful reply with content gives exactly its first segment's text, and nothing else succeeds |
| `Routes.Escalate` | app/api/routes.py:38-42 | an HTTPException is re-raised unchanged; any other exception becomes 500 "An unexpected error occurred." |
| `Routes.QueryAnswer` | app/api/routes.py:27-42 | stages run in order (search, detection, generation); an empty context gives 404 "No relevant context found"; generation uses the question, `context[0]` and the detected language; success is exactly `{"response": r}`; it is 200 exactly when every stage succeeds |
| `Routes.NotFoundSkipsLaterStages` | app/api/routes.py:30-32 | with an empty context, the reply is the 404 whatever the classifier and chat model do |
| `Routes.GenerationSeesFirstContext` | app/api/routes.py:34-35 | the reply depends on the chat model only through the request built from the question, `context[0]` and the detected language |
| `Routes.ReplyKinds` | app/api/routes.py:29-42 | every reply is a 200 with one `response` field, the 404, the 500, or an HTTPException raised by one of the stages |

## Left out

- Logging (`logger.error`, `logger.info`), the script's `print` of the paragraph count, and each logger's configuration: these are output only. The application's `LoadDocument` returns its log entry, so which handler ran stays visible.
- `async` on the route and FastAPI's routing, application start-up and health endpoint: these are wiring with no logic. `app/config.py`, `app/main.py` and `app/services/__init__.py` are not part of this model.
- Cohere embedding calls: `get_query_embeddings` and `get_document_embeddings` are two opaque functions, because their behaviour is the remote model's. Vector components are never computed with, so reals stand in for floats.
- ChromaDB internals: the similarity metric, ranking, tie-breaking, persistence, dimensionality checks and duplicate-id handling are all library behaviour. The collection records the add calls it accepted and answers queries through an opaque function of them.
- `collection.add` is not assumed to upsert by id: what ChromaDB does with a repeated id is library behaviour, and the model only records the call.
- VectorDb.Collection.Add: assumes a failing `collection.add` leaves the collection unchanged. The library gives no such promise in the code.
- The Cohere chat call and langid's `classify` are opaque functions. The temperature `0.0` is recorded as a fixed request field and never computed with.
- LlmService.GetLlmResponse: reads only `response.message.content`. A reply without a `message` attribute is not modelled.
- The Pydantic `Query` model is only a datatype: its field validation happens before the route runs.
