# ChatBot RAG System — a verified model of its core

The system answers questions about a folder of text documents. It has two halves:

- **A Python backend (FastAPI).** At start-up it builds one `RAGService`.
  - The service's `DocumentProcessor` loads the `.txt` files of the documents directory, tags each document with its `source` file name and `file_path`, splits them into chunks, and builds a Chroma vector store from the chunks. If the store is already persisted, it opens that store instead.
  - Over the store it builds a LangChain retrieval chain with an Ollama LLM.
  - `get_answer` asks the chain and cleans the LLM's answer with a seven-step rewrite (`_clean_response`). It returns the distinct source files of the retrieved chunks, in the order they first appear.
  - `POST /chat` returns that answer and those sources. `GET /health` reports the vector store's status.
- **A C# API (`ChatService`).** It validates a `ChatRequestDto` and records the question in a `UserQueries` table as "Processing". It then calls the Python backend and records the reply, or the failure, in `ChatbotResponses`. A history query reads both tables back.

The Dafny modules follow that structure, one file each:

| file | module | what it holds |
|---|---|---|
| `wrappers.dfy` | `Wrappers` | `Option` and `Result` |
| `response_cleaner.dfy` | `ResponseCleaner` | `_clean_response`, one function per rewrite step, with the properties of each step |
| `document_processor.dfy` | `DocumentProcessing` | class `DocumentProcessor`; its loop over the directory listing is proved against `CollectText`, and its vector store cache against `GetOutcome` |
| `rag_service.dfy` | `RagPipeline` | class `RagService`: start-up, `GetAnswer` (proved against `AnswerOf`; its loop, `CollectSources`, against `Distinct` and `ChunkCounts`), `HealthCheck` |
| `schemas.dfy` | `Schemas` | the pydantic request and response bodies |
| `backend_app.dfy` | `BackendApp` | class `App`: the service singleton, the chat and health endpoints |
| `request_dto.dfy` | `RequestValidation` | the data annotations of `ChatRequestDto` |
| `sources_json.dfy` | `SourcesJson` | the JSON text of a sources list, written and read back |
| `chat_service.dfy` | `ChatBookkeeping` | class `ChatService` over the two tables, proved against `ProcessOutcome` and `History` |

Conventions:
- The outside world is a value handed in. The filesystem, the text loader, the splitter and Chroma are the functions of an `Environment`. The retrieval chain is a function from the question to its output, or to a raise. The Python backend's reply to the C# API is a `Result`.
- Each of those either returns a value or raises, so every raise the code handles is a branch of the model.
- Python's `str.strip()` and the regex class `\s` use Python's `isspace` set (`ResponseCleaner.IsSpace`). C#'s `[Required]` uses `char.IsWhiteSpace` (`RequestValidation.IsWhiteSpace`). The two sets differ on U+001C–U+001F.
- Lengths also differ between the halves. `[StringLength]` counts UTF-16 code units, while pydantic counts code points.

Where the system's documentation and the code disagree, the model follows the code:
- **Surrounding quotes.** The documentation describes the cleaner as removing one layer of quotes when the whole answer is quoted. Line 60 of `rag_service.py` removes every run of quote characters at the start, and independently every run at the end.
- **Idempotence.** The documentation calls the cleaner idempotent. It is not: `ResponseCleaner.CleanIsNotIdempotent` exhibits an input where a second pass changes the text.

## Model

| member | source | states |
|---|---|---|
| ResponseCleaner.IsSpace | PythonBackend/app/services/rag_service.py:48 | Python's `str.isspace`, the set `strip()` removes and `\s` matches |
| ResponseCleaner.Strip | PythonBackend/app/services/rag_service.py:48 | the result is the input with its leading and trailing whitespace runs removed; it is a slice of the input, empty or starting and ending with non-whitespace |
| ResponseCleaner.CollapseBlankLines | PythonBackend/app/services/rag_service.py:51 | the leftmost-first scan of the pattern; the result is no longer and keeps the first character; what it removes and what it keeps are the lemmas below |
| ResponseCleaner.CollapseBlankLinesNoMatch | PythonBackend/app/services/rag_service.py:51 | afterwards the pattern matches at no position: no whitespace run that starts at a newline holds three newlines |
| ResponseCleaner.CollapseBlankLinesIdempotent | PythonBackend/app/services/rag_service.py:51 | a second application changes nothing |
| ResponseCleaner.CollapseBlankLinesRun | PythonBackend/app/services/rag_service.py:51 | a whole whitespace run that starts and ends with a newline and holds at least three becomes "\n\n"; the newline-free whitespace on either side is kept, and the text after it is rewritten on its own |
| ResponseCleaner.CollapseBlankLinesAppend | PythonBackend/app/services/rag_service.py:51 | a text ending in non-whitespace is rewritten on its own: the result for `a + t` is the result for `a` followed by the result for `t` |
| ResponseCleaner.JoinLines | PythonBackend/app/services/rag_service.py:54 | same length; each lone newline becomes a space and every other character is kept; every newline left has a newline next to it |
| ResponseCleaner.JoinLinesKeepsNoMatch | PythonBackend/app/services/rag_service.py:51-54 | if the pattern of line 51 matches nowhere, it still matches nowhere after line 54 |
| ResponseCleaner.CollapseSpaces | PythonBackend/app/services/rag_service.py:57 | the leftmost scan of ` +`; the result is no longer and starts with the same character; what it keeps is `CollapseSpacesSplit` |
| ResponseCleaner.CollapseSpacesNoDouble | PythonBackend/app/services/rag_service.py:57 | no two consecutive spaces remain |
| ResponseCleaner.CollapseSpacesAppend | PythonBackend/app/services/rag_service.py:57 | a text not ending in a space is rewritten on its own: the result for `a + t` is the result for `a` followed by the result for `t` |
| ResponseCleaner.CollapseSpacesRun | PythonBackend/app/services/rag_service.py:57 | a whole run of spaces at the front becomes one space, and the rest is rewritten on its own |
| ResponseCleaner.CollapseSpacesSplit | PythonBackend/app/services/rag_service.py:57 | for a run of spaces with no space on either side, the text before it and the text after it are kept as their own rewrites, and the run becomes one space |
| ResponseCleaner.StripEdgeQuotes | PythonBackend/app/services/rag_service.py:60 | the result is no longer than the input; what it removes is stated by the three lemmas below |
| ResponseCleaner.StripEdgeQuotesEdges | PythonBackend/app/services/rag_service.py:60 | a nonempty result neither starts nor ends with a quote |
| ResponseCleaner.StripEdgeQuotesFinalNewline | PythonBackend/app/services/rag_service.py:60 | an input ending in a newline keeps that newline, and no quote is left just before it, since `$` also matches before a final newline |
| ResponseCleaner.StripEdgeQuotesRuns | PythonBackend/app/services/rag_service.py:60 | for quote runs q1 and q2 around a middle that does not begin or end with a quote or end with a newline, the result is exactly the middle |
| ResponseCleaner.FirstCitation | PythonBackend/app/services/rag_service.py:63 | the position found is the leftmost where the citation pattern matches, and none matches before it |
| ResponseCleaner.StripCitation | PythonBackend/app/services/rag_service.py:63 | the result is a prefix of the input |
| ResponseCleaner.CitationAtIffTail | PythonBackend/app/services/rag_service.py:63 | the scan's test at a position holds exactly when the text from there is whitespace, '(', text without ')' containing "Section", ')', then whitespace to the end |
| ResponseCleaner.StripCitationRemovesTail | PythonBackend/app/services/rag_service.py:63 | only a tail of the citation shape is removed; it is the leftmost such tail; when nothing is removed, no tail has that shape |
| ResponseCleaner.StripCitationRemovesTrailing | PythonBackend/app/services/rag_service.py:63 | a trailing parenthetical holding "Section" is removed together with the whitespace before it |
| ResponseCleaner.ReplaceEscape | PythonBackend/app/services/rag_service.py:66 | one `str.replace` of a backslash followed by `e`; the result is no longer, and its first character is the input's or the replacement |
| ResponseCleaner.ReplaceEscapePair | PythonBackend/app/services/rag_service.py:66 | each backslash-`e`, scanned left to right, becomes the replacement character, and the texts on either side of it are rewritten on their own (with `e` = 'n' and ' ': each backslash-n becomes a space) |
| ResponseCleaner.ReplaceEscapeAppend | PythonBackend/app/services/rag_service.py:66 | two texts are rewritten on their own when no backslash-`e` straddles the join |
| ResponseCleaner.ReplaceEscapeUnchanged | PythonBackend/app/services/rag_service.py:66 | a text without backslash-`e` comes back unchanged |
| ResponseCleaner.ReplaceEscapeRemovesAll | PythonBackend/app/services/rag_service.py:66 | no backslash-`e` is left when the replacement is neither a backslash nor `e` |
| ResponseCleaner.ReplaceEscapeKeepsNoEscape | PythonBackend/app/services/rag_service.py:66 | the second replacement creates no backslash-n where there was none |
| ResponseCleaner.Unescape | PythonBackend/app/services/rag_service.py:66 | both replacements in order; no literal backslash-n remains and the text never grows |
| ResponseCleaner.UnescapeEscapedNewline | PythonBackend/app/services/rag_service.py:66 | "a \n b" (a literal backslash-n) becomes "a   b" |
| ResponseCleaner.Normalize | PythonBackend/app/services/rag_service.py:48-63 | the first six rewrites in source order; never grows; left alone by an already clean one-line text (`NormalizeUnchanged`) |
| ResponseCleaner.Clean | PythonBackend/app/services/rag_service.py:42-68 | empty stays empty; otherwise the result is no longer, has no whitespace at either end and no literal backslash-n |
| ResponseCleaner.CleanResponse | PythonBackend/app/services/rag_service.py:44-45 | `None` stays `None` and "" stays ""; a text never grows |
| ResponseCleaner.CleanIsNotIdempotent | PythonBackend/app/services/rag_service.py:57-68 | "a \n b" (a literal backslash-n) cleans to "a   b", and cleaning that again gives "a b" |
| ResponseCleaner.NormalizeUnchanged | PythonBackend/app/services/rag_service.py:48-63 | a one-line text without double spaces, '(' or edge whitespace or quotes passes the first six rewrites unchanged |
| ResponseCleaner.UnescapeUnchanged | PythonBackend/app/services/rag_service.py:66 | a text without backslashes passes the last rewrite unchanged |
| DocumentProcessing.IsTextFile | PythonBackend/app/services/document_processor.py:44 | a name is loaded exactly when it ends with ".txt"; used by `CollectTextTagged` |
| DocumentProcessing.JoinPath | PythonBackend/app/services/document_processor.py:45 | the joined path ends with the file name |
| DocumentProcessing.Tag | PythonBackend/app/services/document_processor.py:52-54 | the text is kept; the metadata gains exactly `source` = file name and `file_path` = path, and keeps its other keys |
| DocumentProcessing.TagAll | PythonBackend/app/services/document_processor.py:52-54 | one document per loaded document, in order, each tagged as `Tag` states |
| DocumentProcessing.CollectText | PythonBackend/app/services/document_processor.py:43-59 | the loop over the listing: `.txt` entries in listing order, each file's documents tagged, stopping at the first file whose load raises and keeping what came before; its properties are the three lemmas below |
| DocumentProcessing.LoadedDocuments | PythonBackend/app/services/document_processor.py:38-40 | a missing directory or a listing that raises gives no document |
| DocumentProcessing.CollectTextTagged | PythonBackend/app/services/document_processor.py:43-56 | every loaded document comes from a `.txt` entry of the listing, tagged with that entry and its joined path |
| DocumentProcessing.CollectTextStopsAtFailure | PythonBackend/app/services/document_processor.py:58-59 | when the k-th entry is the first `.txt` file whose loading raises, the result is what the entries before it give |
| DocumentProcessing.CollectTextAppend | PythonBackend/app/services/document_processor.py:43-56 | without failures, one more entry appends its tagged documents at the end, keeping listing order |
| DocumentProcessing.DocumentProcessor.LoadDocuments | PythonBackend/app/services/document_processor.py:34-62 | the loop returns exactly `LoadedDocuments` of the directory, including when a load raises midway |
| DocumentProcessing.DocumentProcessor.TagDocuments | PythonBackend/app/services/document_processor.py:52-54 | every document of the file, in order, carries its `source` and `file_path` |
| DocumentProcessing.SplitDocuments | PythonBackend/app/services/document_processor.py:64-72 | the splitter's chunks, or no chunk when it raises |
| DocumentProcessing.CreateOutcome | PythonBackend/app/services/document_processor.py:80-81 | no chunk raises "No document chunks available for vector store creation" |
| DocumentProcessing.LoadOutcome | PythonBackend/app/services/document_processor.py:99-119 | an existing persist directory is opened; otherwise no document raises "No documents found to create vector store", and documents build a new store |
| DocumentProcessing.GetOutcome | PythonBackend/app/services/document_processor.py:121-125 | a cached store is returned unchanged; a successful load is cached; a raise leaves the cache as it was |
| DocumentProcessing.GetOutcomeIdempotent | PythonBackend/app/services/document_processor.py:121-125 | after one success, every later call in any environment returns the same store and changes nothing |
| DocumentProcessing.DocumentProcessor.constructor | PythonBackend/app/services/document_processor.py:20-32 | a new processor has no vector store |
| DocumentProcessing.DocumentProcessor.CreateVectorStore | PythonBackend/app/services/document_processor.py:74-97 | returns `CreateOutcome`; `vector_store` is assigned only when Chroma returns a store |
| DocumentProcessing.DocumentProcessor.LoadVectorStore | PythonBackend/app/services/document_processor.py:99-119 | returns `LoadOutcome`; `vector_store` changes only on success |
| DocumentProcessing.DocumentProcessor.GetVectorStore | PythonBackend/app/services/document_processor.py:121-125 | returns and caches what `GetOutcome` gives for the old cache; once a store is cached it is returned and kept |
| RagPipeline.SourceOf | PythonBackend/app/services/rag_service.py:147 | the chunk's `source` metadata, or "Unknown" when it has none |
| RagPipeline.SourceIds | PythonBackend/app/services/rag_service.py:147 | each chunk's id is its `source` metadata, or "Unknown" when it has none |
| RagPipeline.Distinct | PythonBackend/app/services/rag_service.py:143-149 | the list built by appending each id not yet in it; what it holds is `DistinctIsFirstSeenOrder` |
| RagPipeline.DistinctIsFirstSeenOrder | PythonBackend/app/services/rag_service.py:143-149 | the sources list has no duplicate, holds exactly the retrieved ids, and orders them by first occurrence |
| RagPipeline.ChunkCounts | PythonBackend/app/services/rag_service.py:151-154 | the map built by setting a missing id to zero and adding one per chunk; what it holds is `ChunkCountsAreOccurrences` |
| RagPipeline.ChunkCountsAreOccurrences | PythonBackend/app/services/rag_service.py:151-154 | the logged count of each source is its number of retrieved chunks, and only retrieved sources have a count |
| RagPipeline.CollectSources | PythonBackend/app/services/rag_service.py:143-154 | the loop over the retrieved chunks returns exactly `Distinct` and `ChunkCounts` of their ids |
| RagPipeline.ChunkCountsTotal | PythonBackend/app/services/rag_service.py:143-159 | the counts over the listed sources add up to the number of retrieved chunks |
| RagPipeline.AnswerOf | PythonBackend/app/services/rag_service.py:117-165 | any raise, a missing chain included, gives the apology and no source; the answer is `None` exactly when the chain's "result" is `None`; the sources are duplicate-free and are exactly the retrieved ids |
| RagPipeline.RagService.GetAnswer | PythonBackend/app/services/rag_service.py:117-165 | returns what `AnswerOf` specifies, and the per-source counts of `ChunkCounts` |
| RagPipeline.HealthInfo | PythonBackend/app/services/rag_service.py:167-187 | the exact keys and values of the health dictionary for a store that loads or raises, including the "error" entry |
| RagPipeline.RagService.HealthCheck | PythonBackend/app/services/rag_service.py:167-187 | fetching the store may load and cache it; a raise is reported in the dictionary, not propagated; with a cached store and a chain, the store is kept and reported "healthy" and the chain "initialized" |
| RagPipeline.ReadyServiceIsHealthy | PythonBackend/app/services/rag_service.py:170-178 | a service whose store is cached reports it "healthy" and its chain "initialized", in every environment |
| RagPipeline.StartsUp | PythonBackend/app/services/rag_service.py:22-40 | `RAGService()` returns exactly when embeddings, LLM, vector store and chain all set up; used by `RagService.Create` |
| RagPipeline.RagService.constructor | PythonBackend/app/services/rag_service.py:22-26 | a new service has its processor and LLM and no chain yet |
| RagPipeline.RagService.Create | PythonBackend/app/services/rag_service.py:22-40 | the service exists exactly when embeddings, LLM, vector store and chain all set up; then the LLM has the configured URL and model, the store is the one loaded, and the chain is built over it |
| RagPipeline.RagService.InitializeRagChain | PythonBackend/app/services/rag_service.py:89-115 | succeeds exactly when the store loads and the chain builds; the chain is set only on success; a raise propagates |
| Schemas.ParseChatRequest | PythonBackend/app/models/schemas.py:5-6 | a question is accepted exactly when present with 1 to 2000 characters, and kept as given |
| Schemas.MakeChatResponse | PythonBackend/app/models/schemas.py:8-11 | a response is built exactly when the answer is a string; the sources default to `None` |
| BackendApp.ChatReply | PythonBackend/app/main.py:84-99 | a `None` answer gives a 500 with the "Error processing your question: " detail; otherwise the answer is returned, and an empty sources list becomes `None` |
| BackendApp.App.constructor | PythonBackend/app/main.py:25 | the application starts with no service |
| BackendApp.App.Startup | PythonBackend/app/main.py:27-41 | the service is set exactly when `RAGService()` would return; a failure leaves it unset without stopping start-up |
| BackendApp.App.GetRagService | PythonBackend/app/main.py:63-70 | the service when there is one, otherwise a 503 with the fixed detail |
| BackendApp.App.ChatEndpoint | PythonBackend/app/main.py:72-99 | the 503 comes first, then the 422 for an invalid body; otherwise the reply is built from `get_answer` |
| BackendApp.App.HealthEndpoint | PythonBackend/app/main.py:101-122 | without a service, "degraded"/"unavailable"; with one, the store status the service reports, which is always "healthy" for a service that started |
| RequestValidation.IsWhiteSpace | ChatbotAPI/DTOs/ChatRequestDto.cs:7 | `char.IsWhiteSpace`, which differs from Python's `isspace` on U+001C–U+001F |
| RequestValidation.RequiredHolds | ChatbotAPI/DTOs/ChatRequestDto.cs:7 | `[Required]`: present and not empty or whitespace only |
| RequestValidation.LengthHolds | ChatbotAPI/DTOs/ChatRequestDto.cs:8-15 | `[StringLength]`: absent, or a UTF-16 length within the bounds |
| RequestValidation.Utf16Length | ChatbotAPI/DTOs/ChatRequestDto.cs:8 | the UTF-16 length lies between the number of characters and twice that |
| RequestValidation.IsValid | ChatbotAPI/DTOs/ChatRequestDto.cs:7-15 | all four annotations hold; what that means for the fields is `ValidRequestFields` |
| RequestValidation.ValidRequestFields | ChatbotAPI/DTOs/ChatRequestDto.cs:7-15 | a valid request has a question of 1 to 2000 characters containing a non-whitespace one, and ids of at most 100 characters |
| RequestValidation.DefaultRequestIsInvalid | ChatbotAPI/DTOs/ChatRequestDto.cs:9 | the initialiser's empty question fails validation |
| RequestValidation.ValidQuestionPassesBackend | ChatbotAPI/DTOs/ChatRequestDto.cs:7-9 | every question the C# API accepts, the Python `ChatRequest` accepts too |
| RequestValidation.BackendAcceptsMore | ChatbotAPI/DTOs/ChatRequestDto.cs:7-9 | the converse fails: a blank question and 2000 astral characters pass the backend but not the C# API |
| SourcesJson.Serialize | ChatbotAPI/Services/ChatService.cs:58 | a JSON array text, starting with '[' and ending with ']'; read back by `SerializeRoundTrip` |
| SourcesJson.Deserialize | ChatbotAPI/Services/ChatService.cs:158 | a list, JSON `null`, or a parse error for any other text; its inverse property is `SerializeRoundTrip` |
| SourcesJson.ParseEscaped | ChatbotAPI/Services/ChatService.cs:58 | reading an escaped string body gives back the string and what follows its closing quote |
| SourcesJson.SerializeRoundTrip | ChatbotAPI/Services/ChatService.cs:58 | deserializing a serialized list gives back the same list |
| SourcesJson.StoreSources | ChatbotAPI/Services/ChatService.cs:58 | the column is null exactly when the backend sent no sources |
| SourcesJson.ReadSources | ChatbotAPI/Services/ChatService.cs:158 | a null column or JSON `null` gives no list, a text that does not parse raises; read back by `ReadStoredSources` |
| SourcesJson.ReadStoredSources | ChatbotAPI/Services/ChatService.cs:158 | the history query reads a stored column back as the sources it was written from, a null list included |
| ChatBookkeeping.Valid | ChatbotAPI/Data/ChatbotDbContext.cs:22-46 | identity keys increasing and below the next ones, one response per query, only answered queries have one, every stored sources text readable; kept by `ProcessKeepsValid` |
| ChatBookkeeping.NewQuery | ChatbotAPI/Services/ChatService.cs:34-39 | the inserted row: next id, the question, the session id or a new one, "Processing"; stated by `ProcessOutcome` |
| ChatBookkeeping.FirstProcessing | ChatbotAPI/Services/ChatService.cs:94-95 | the first row, in table order, with this question still in "Processing", and no earlier row matches |
| ChatBookkeeping.ProcessOutcome | ChatbotAPI/Services/ChatService.cs:25-130 | a null question stores nothing and raises; otherwise a "Processing" query is inserted with the next id; on a reply it becomes "Completed" with one "Success" response and the DTO echoes the reply; on a raise the first "Processing" row with the same question becomes "Failed" with an "Error" response |
| ChatBookkeeping.FailureMayHitOlderQuery | ChatbotAPI/Services/ChatService.cs:92-99 | if an older query with the same question is still "Processing" (possible only when requests overlap or one stopped between its two saves), the failure is recorded against it and the new query stays "Processing" |
| ChatBookkeeping.SequentialRequestsSettle | ChatbotAPI/Services/ChatService.cs:25-130 | a request handled while no query is "Processing" leaves none behind, and a backend failure then marks the query just recorded |
| ChatBookkeeping.ProcessKeepsValid | ChatbotAPI/Services/ChatService.cs:25-130 | recording a request keeps the invariants: ids increasing and below the next ones, at most one response per query, only answered queries have one, every stored sources text readable |
| ChatBookkeeping.ChatService.constructor | ChatbotAPI/Services/ChatService.cs:15-23 | an empty database whose identities start at 1 satisfies the invariant |
| ChatBookkeeping.ChatService.ProcessChatRequest | ChatbotAPI/Services/ChatService.cs:25-130 | the new tables and the result are those of `ProcessOutcome`, and the invariant is kept |
| ChatBookkeeping.FilterSession | ChatbotAPI/Services/ChatService.cs:140-143 | the kept rows are exactly the rows of the requested session, or all rows when none is given |
| ChatBookkeeping.SortDesc | ChatbotAPI/Services/ChatService.cs:146 | a permutation of the rows, ordered by question timestamp, newest first |
| ChatBookkeeping.Take | ChatbotAPI/Services/ChatService.cs:147 | the first `limit` rows, or all rows when fewer or when `limit` is negative (SQLite's `LIMIT` sets no bound then) |
| ChatBookkeeping.ResponseFor | ChatbotAPI/Services/ChatService.cs:137 | the joined response belongs to the query; none is found only when no response links to it |
| ChatBookkeeping.HistoryEntry | ChatbotAPI/Services/ChatService.cs:150-161 | the entry carries the query's id, question and timestamp; without a response: empty text, "Pending", response time = question time |
| ChatBookkeeping.HistoryEntries | ChatbotAPI/Services/ChatService.cs:150-161 | succeeds exactly when every row's entry does, one entry per row in order |
| ChatBookkeeping.HistoryRows | ChatbotAPI/Services/ChatService.cs:136-148 | filter by session, newest first, at most `limit`; stated by `HistoryRowsSelection` and `HistoryRowsAreNewest` |
| ChatBookkeeping.History | ChatbotAPI/Services/ChatService.cs:132-161 | one entry per selected row, or the exception of a sources text that does not parse; stated by `HistoryEntriesFollowRows` and `HistoryOfValidSucceeds` |
| ChatBookkeeping.HistoryRowsSelection | ChatbotAPI/Services/ChatService.cs:132-148 | `limit` rows (50 by default), or all rows of the session when fewer or when `limit` is negative; each of the requested session; newest first |
| ChatBookkeeping.HistoryRowsAreNewest | ChatbotAPI/Services/ChatService.cs:145-148 | no row of the session that is left out is newer than a row taken |
| ChatBookkeeping.HistoryEntriesFollowRows | ChatbotAPI/Services/ChatService.cs:150-161 | one entry per selected row, same order, same id and question timestamp |
| ChatBookkeeping.HistoryOfValidSucceeds | ChatbotAPI/Services/ChatService.cs:158 | on tables the service maintains, the history query never raises |
| ChatBookkeeping.HistoryEchoesReply | ChatbotAPI/Services/ChatService.cs:72-82 | the DTO returned for a request is the entry the history query later reports for the query it answered, sources included |
| ChatBookkeeping.ChatService.GetConversationHistory | ChatbotAPI/Services/ChatService.cs:132-171 | on the service's valid tables the history query succeeds |

## Left out

- The embedding model, the text splitter's algorithm (chunk size 500, overlap 50), Chroma, the retriever (top 3 by similarity), the prompt template and the Ollama LLM are library code. They appear only as the outcomes of the functions in `Environment`, and as the chain function with its build outcome.
- `_initialize_llm` is the `llm` parameter of `RagService.Create`. A successful one is `OllamaLlm` with the configured URL and model. The temperature 0.5 is not modelled.
- The `if not self.llm` check of `_initialize_rag_chain` cannot fail in the model, because a created LLM is always a value.
- `health_check`'s "unavailable" status is not modelled. It needs a store that Python treats as false, and a Chroma store never is.
- `health_endpoint`'s 500 branch is not modelled. `health_check` catches every exception itself.
- Logging is not modelled, including the per-source log lines of `get_answer`. The counts they print are returned as `chunkCounts`.
- The root endpoint, CORS, uvicorn start-up and the HTTP framing of replies are not modelled.
- The texts of pydantic's validation errors are fixed stand-ins: `RequestValidationDetail` and `ResponseValidationMessage`.
- The text of the database error for a null question is also a stand-in: `NullQuestionMessage`.
- Clocks, `Stopwatch` and `ProcessingTimeSeconds` are not modelled. The database timestamps are the parameters `queryTime` and `responseTime`.
- `Guid.NewGuid()` is the parameter `newSessionId`. Session ids are strings; the C# code mixes `string?` and `Guid` here, and the model follows its evident intent.
- EF Core `SaveChanges` failures other than the refused null question are not modelled. Neither are concurrent requests.
  - So in the model the final `throw` of `ProcessChatRequestAsync` is reached only through a null question.
  - The history query's `catch`/`throw` is reached only through an unreadable sources text, which `ChatBookkeeping.HistoryOfValidSucceeds` shows cannot occur.
- SQLite returns rows with equal timestamps in no specified order. The model keeps table order (`InsertDesc`).
- ChatBookkeeping.FirstProcessing: `FirstOrDefaultAsync` without `OrderBy` gives no order guarantee. The model takes the first row in table order, which is what SQLite returns for a plain table scan.
- ChatBookkeeping.Take: EF Core passes `limit` to SQLite as `LIMIT`, which treats a negative value as no bound. Other providers may refuse a negative limit; that is not modelled.
- Requests running at the same time, and a request stopped between its two saves, are not modelled as such. `ChatBookkeeping.FailureMayHitOlderQuery` states what a failure does when one of them has left a query in "Processing".
- The `Include` join is modelled as a lookup of the first response with the query's id.
- SourcesJson.Serialize: `System.Text.Json` also escapes control characters, non-ASCII characters and HTML-sensitive characters as `\uXXXX`. The model escapes only `"` and `\`. The reader accepts exactly what this writer produces, plus `null`.
- Updating document metadata in place, and any aliasing between the loader's documents and the returned list, is modelled on values: `Tag` builds a new document.
- `get_answer` with a "source_documents" key whose value is `None` is not modelled. The chain output's sources are a list, or absent.
- The other controllers, `PythonBackendService` (the HTTP call, whose outcome is a parameter), `Program.cs` and the database context beyond its keys and its one-to-one relationship are not part of this model.
