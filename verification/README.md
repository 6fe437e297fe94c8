# RAG session pipelines, modelled in Dafny

This project models the request logic of the repository's three
near-duplicate retrieval-augmented-generation backends. It also models the
text chunker of one of them. Each variant is modelled as it is written; they
are not merged into one idealised pipeline.

- **`Memory`**: `ConversationMemory` of the `App` backend. It is a
  first-in first-out list of `(question, answer)` pairs holding at most
  `max_turns` of them (default 5). It renders as `User: q\nBot: a` lines, or
  as the literal `None` when empty.
- **`Chat`**: the `/api/chat` endpoint of the `App` backend. One request is
  one step over the per-user map `user_memories`. A missing question gives
  400. Retrieval asks for three documents (`k=3`) and uses whatever the
  search returns. The prompt holds the user's history text and the context. A model failure gives 500 and records
  nothing; a success records the unstripped answer and returns it stripped.
- **`AppPipeline`**: `RAGPipeline` of the `App` backend.
  - `retrieve` falls back to `top_k` for `k` of `None` or `0`, and rewrites
    sources to `/files/<basename>`.
  - The prompt shows the last five exchanges of the user, read with `.get`,
    so reading never creates an entry.
  - `_call_llm` never raises: it turns failures into fixed strings.
  - `ask` records the exchange and cuts the history to five.
  - `ask_stream` passes a full stream on without recording it. Otherwise it
    falls back to `_call_llm`, records the answer and yields it.
- **`App2Pipeline`**: the stateless `RAGPipeline` of `Application2`. The
  prompt depends only on the question and the chunks, and it quotes a fixed
  refusal sentence. `ask` always retrieves with `k=3`. `ask_stream`
  passes the model's stream on unchanged. The user id plays no part.
- **`RagAppPipeline`**: `RAGPipeline` of `RAG_Application`.
  - It keeps an optional vector store and a per-user chain cache.
  - Rebuilding the store clears the cache.
  - `ask` returns a fixed answer when there is no store.
  - `ask` publishes `.pdf` sources under `/files/`.
- **`Ingest`**: `chunk_text` of `Application2`, which cuts a text into
  fixed windows and strips each one.
- **`Text`**, **`RagTypes`**, **`Wrappers`**: support modules.
  - `Text` holds Python's `str.strip` (Unicode whitespace), `sep.join`,
    `"".join` and POSIX `basename`.
  - `RagTypes` holds the records shared by the backends.
  - `Wrappers` holds `Option` and `Result`.

External calls are function parameters:
- vector-store similarity search: `Search`, `None` when it raises;
- model generation: `String -> Option<String>`;
- streaming: `StreamOutcome`, the pieces yielded and whether the stream
  then raised;
- LangChain chain calls: `ChainRun`;
- file existence: `pathExists`.

A Python exception that propagates out of an operation becomes an `Err`
(or `None`) result. A generator is modelled by everything it yields when run
to exhaustion.

Behaviours of the code that differ between the backends:
- `App` renders an empty history as `""` in its prompt; `memory.py`
  renders it as `None`.
- An empty context renders as `""` in both `App` and `Application2`.
- `App`'s `ask_stream` records an exchange only on the fallback path; a
  stream that completes leaves the history alone. `Application2` keeps no
  history.
- `App`'s `_call_llm` turns failures into fixed text; `chat.py` answers
  them with a 500.
- Streaming support is probed on every call, with
  `hasattr(self.llm, "stream")`.

## Model

| member | source | states |
|---|---|---|
| Memory.New | App/backend/app/memory.py:2-4 | a new memory has the given `max_turns` (default 5), an empty history, is bounded, and renders as `None` |
| Memory.NewDefaultsToFiveTurns | App/backend/app/memory.py:2 | `ConversationMemory()` has `max_turns == 5` and an empty, bounded history |
| Memory.AddExchangeSpec | App/backend/app/memory.py:6-9 | the new pair is the newest element (unless `max_turns < 1`); on overflow exactly one pair, the oldest, is dropped and the rest keep their order; boundedness is preserved |
| Memory.AddExchangeKeepsMostRecent | App/backend/app/memory.py:6-9 | on a bounded memory one addition leaves the last `max_turns` pairs of old history followed by the new pair |
| Memory.AddAllKeepsMostRecent | App/backend/app/memory.py:6-9 | after any sequence of additions the history is the last `max_turns` pairs of old history plus additions, in chronological order |
| Memory.FreshMemoryKeepsMostRecent | App/backend/app/memory.py:2-9 | from a fresh memory, the history is the last `min(n, max_turns)` added pairs, in order |
| Memory.LastN | App/backend/app/rag_pipeline.py:100 | the last `n` elements (Python's `s[-n:]` for `n > 0`): `min(len(s), n)` of them, a suffix of `s` |
| Memory.HistoryText | App/backend/app/memory.py:11-13 | the text is exactly `None` if and only if the history is empty |
| Memory.HistoryTextSnoc | App/backend/app/memory.py:14-16 | rendering is oldest-first and incremental: one more pair adds one `User: q\nBot: a` entry at the end, after a newline |
| Memory.HistoryTextShowsExchange | App/backend/app/memory.py:14-16 | every pair's rendering appears verbatim at its own offset of the history text |
| Chat.GetUserMemory | App/backend/app/chat.py:18-21 | returns the stored memory, or stores and returns a new empty 5-turn memory; no other entry changes |
| Chat.GetUserMemoryIsStable | App/backend/app/chat.py:18-21 | a second lookup returns the same memory and leaves the map alone |
| Chat.DocSources | App/backend/app/chat.py:40 | one source per document, in order, `""` when it has none |
| Chat.ContextTextShowsDocs | App/backend/app/chat.py:41 | the context is the pages joined by `"\n\n"`: no documents give `""`; otherwise each page appears verbatim and in order at its own offset, exactly `"\n\n"` separates neighbours, and the context ends with the last page |
| Chat.ChatPromptLayout | App/backend/app/chat.py:48-65 | the prompt starts with the fixed instructions, the history text and the context, and ends with the question and the answer cue |
| Chat.Respond | App/backend/app/chat.py:44-85 | the request succeeds exactly when the model answers; an LLM failure answers 500 `LLM processing failed` and adds no exchange; success stores exactly one exchange with the unstripped answer and returns the stripped answer with one source per document; other users' entries are unchanged |
| Chat.ChatEndpoint | App/backend/app/chat.py:29-39 | a missing or empty question, and nothing else, is a 400 `Missing question` that changes nothing; every other failure is a 500; a retrieval failure changes nothing; otherwise the request goes on with the documents the search returns for `k=3` (up to three) |
| Chat.ChatRecordsQuestion | App/backend/app/chat.py:79 | a successful request leaves its question as the user's newest exchange |
| Chat.RespondIgnoresOtherEntry | App/backend/app/chat.py:44-79 | handling a user's request neither reads nor writes another user's entry |
| Chat.ChatIgnoresOtherEntry | App/backend/app/chat.py:16-21 | replacing another user's entry before a request changes nothing but that entry afterwards |
| Chat.ChatTouchesOnlyUser | App/backend/app/chat.py:44-79 | a request leaves the map as it was or replaces exactly the requesting user's entry |
| Chat.ChatRequestsCommute | App/backend/app/chat.py:16-21 | requests by two different users give the same responses and the same final map in either order |
| Chat.ChatKeepsMemoriesBounded | App/backend/app/chat.py:20 | with 5-turn memories, no user's memory ever holds more than five exchanges, whatever the outcome |
| RagTypes.ContextBlockShowsChunks | App/backend/app/rag_pipeline.py:61 | no chunks give `""`; otherwise every chunk appears verbatim and in order at its own offset, and the context ends with the last chunk |
| RagTypes.ContextBlockSeparatesChunks | Application2/backend/rag_pipeline.py:44 | neighbouring chunks are separated by exactly one blank line |
| AppPipeline.EffectiveK | App/backend/app/rag_pipeline.py:43 | `k` of `None` or `0` falls back to `top_k`; any other `k` is used |
| AppPipeline.RewriteSource | App/backend/app/rag_pipeline.py:48-50 | an empty source stays empty; a non-empty one becomes `/files/` followed by its final path component |
| AppPipeline.Retrieve | App/backend/app/rag_pipeline.py:42-44 | retrieval fails exactly when the similarity search with the effective `k` fails |
| AppPipeline.RetrieveMapsDocs | App/backend/app/rag_pipeline.py:45-52 | one hit per document, in order, with its text and rewritten source |
| AppPipeline.RetrieveEffectiveK | App/backend/app/rag_pipeline.py:92 | passing `top_k or self.top_k` into `retrieve` retrieves the same as passing `top_k` |
| AppPipeline.HistoryBlockAppend | App/backend/app/rag_pipeline.py:57-59 | history renders oldest-first and compositionally; no history renders as `""`; one exchange renders as `User: {q}\nAssistant: {a}\n` |
| AppPipeline.BuildPromptShowsHistory | App/backend/app/rag_pipeline.py:56-65 | the prompt starts with the fixed instructions and shows the rendering of the user's last five exchanges at a fixed offset |
| AppPipeline.BuildPromptEndsWithQuestion | App/backend/app/rag_pipeline.py:66-67 | the prompt ends with the context section followed by `User: {question}\nAssistant:` |
| AppPipeline.BuildPromptSeesLastFive | App/backend/app/rag_pipeline.py:56 | histories that agree on the user's last five exchanges give the same prompt |
| AppPipeline.BuildPromptUnknownUser | App/backend/app/rag_pipeline.py:56 | a user without history gets the empty-history prompt |
| AppPipeline.CallLlm | App/backend/app/rag_pipeline.py:71-89 | never fails: the stripped answer, `LLM inference failed.` on a client error, the fixed placeholder without a client |
| AppPipeline.CallLlmAnswerIsStripped | App/backend/app/rag_pipeline.py:80-82 | a model answer has no surrounding whitespace |
| AppPipeline.AppendBoundedKeepsLastFive | App/backend/app/rag_pipeline.py:98-100 | one append keeps the last five of old history plus the new exchange; the new exchange is newest; length is 1 to 5 |
| AppPipeline.AppendBoundedAll | App/backend/app/rag_pipeline.py:98-100 | successive appends keep the five most recent exchanges |
| AppPipeline.Ask | App/backend/app/rag_pipeline.py:91-102 | fails exactly when retrieval fails; otherwise answers the question asked |
| AppPipeline.AskRecordsAnswer | App/backend/app/rag_pipeline.py:97-100 | a successful `ask` records `(question, answer)` under the user with the five-exchange bound and changes nothing else |
| AppPipeline.AskAnswersFromContext | App/backend/app/rag_pipeline.py:92-102 | the answer is `_call_llm` on the prompt built from the retrieved chunks; one source per hit, in order |
| AppPipeline.AskStream | App/backend/app/rag_pipeline.py:104-108 | fails exactly when retrieval fails |
| AppPipeline.AskStreamPassesStreamOn | App/backend/app/rag_pipeline.py:110-114 | a stream that completes is yielded unchanged and the history is not updated |
| AppPipeline.AskStreamFallbackMatchesAsk | App/backend/app/rag_pipeline.py:115-122 | without a completed stream the pipeline ends as after `ask` and the last item yielded is `ask`'s answer |
| AppPipeline.AskStreamWithoutStreamIsAsk | App/backend/app/rag_pipeline.py:117-122 | a client that cannot stream yields exactly `ask`'s answer as one item and records it as `ask` does |
| App2Pipeline.BuildPromptShowsContext | Application2/backend/rag_pipeline.py:43-53 | the prompt starts with the fixed rules and shows the context right after `Context: ` at a fixed offset |
| App2Pipeline.BuildPromptQuotesRefusal | Application2/backend/rag_pipeline.py:50-51 | the prompt contains the refusal sentence verbatim, right after the rules |
| App2Pipeline.BuildPromptEndsWithQuestion | Application2/backend/rag_pipeline.py:55-56 | the prompt ends with `Question: {question}\n\nAnswer:` |
| App2Pipeline.Retrieve | Application2/backend/rag_pipeline.py:60-64 | retrieval fails exactly when the similarity search fails |
| App2Pipeline.RetrieveMapsDocs | Application2/backend/rag_pipeline.py:64-68 | one hit per document, in order, with its text and its source (default `""`) |
| App2Pipeline.Ask | Application2/backend/rag_pipeline.py:70-78 | fails with the retrieval error exactly when retrieval fails, with the model error exactly when the model fails; otherwise returns the model's answer as it is |
| App2Pipeline.AskSourcesFollowDocs | Application2/backend/rag_pipeline.py:74-78 | one source per retrieved document, in ranking order |
| App2Pipeline.AskIgnoresUser | Application2/backend/rag_pipeline.py:70-78 | any two users asking the same question get the same outcome |
| App2Pipeline.AskStream | Application2/backend/rag_pipeline.py:80-89 | yields the model's stream pieces unchanged and in order; ends in error exactly when retrieval or the stream raised |
| App2Pipeline.AskStreamIgnoresUser | Application2/backend/rag_pipeline.py:80-89 | the user id plays no part in the stream |
| App2Pipeline.StreamSpellsAskAnswer | Application2/backend/rag_pipeline.py:74-88 | both calls send the same prompt: a model whose full stream spells its answer streams exactly `ask`'s answer |
| RagAppPipeline.Init | RAG_Application/backend/rag_pipeline.py:26-39 | the store is the connected one or none; the chain cache starts empty and valid |
| RagAppPipeline.BuildVectorstore | RAG_Application/backend/rag_pipeline.py:59-78 | a failed build changes nothing; a successful one installs the new store and empties the cache |
| RagAppPipeline.BuildClearsAllChains | RAG_Application/backend/rag_pipeline.py:77-78 | after a rebuild no user has a chain, so every later chain uses the new store |
| RagAppPipeline.GetUserChain | RAG_Application/backend/rag_pipeline.py:80-122 | a cached chain is returned as it is; with no store it raises and caches nothing; otherwise a new chain on the current store is cached under the user |
| RagAppPipeline.GetUserChainKeepsValid | RAG_Application/backend/rag_pipeline.py:80-122 | the chain handed out belongs to the user and the current store; only the user's entry can change; the cache stays valid |
| RagAppPipeline.GetUserChainIsStable | RAG_Application/backend/rag_pipeline.py:82-83 | asking twice gives the same chain and changes nothing the second time |
| RagAppPipeline.SourceUrl | RAG_Application/backend/rag_pipeline.py:138-140 | the URL is the source itself or `/files/...pdf`; for an existing path no directory part follows `/files/` |
| RagAppPipeline.SourceUrlCases | RAG_Application/backend/rag_pipeline.py:139-140 | existing PDF: `/files/` plus base name; missing path ending in `.pdf`: `/files/` plus the whole source; anything else unchanged |
| RagAppPipeline.SourceUrls | RAG_Application/backend/rag_pipeline.py:137-141 | one URL per source document, in order, from the `source` metadata (default `N/A`) |
| RagAppPipeline.Ask | RAG_Application/backend/rag_pipeline.py:124-133 | without a store: the fixed answer, no sources, no chain created; with one: the user's chain is cached and the result fails exactly when the chain call fails |
| RagAppPipeline.AskReportsChainResponse | RAG_Application/backend/rag_pipeline.py:133-143 | a successful `ask` returns the chain's answer (or `""`) and one source URL per source document, in order |
| RagAppPipeline.AskKeepsValid | RAG_Application/backend/rag_pipeline.py:124-132 | `ask` keeps the cache valid, never changes the store, and leaves the user's chain cached |
| Text.StripSpec | Application2/backend/ingest.py:48 | `strip` keeps an infix, cuts only whitespace, leaves no edge whitespace, and is empty exactly for all-whitespace input |
| Text.StripIdempotent | App/backend/app/chat.py:83 | stripping twice is stripping once |
| Text.Basename | App/backend/app/rag_pipeline.py:50 | the base name contains no `/`, is a suffix of the path, and is preceded by `/` when shorter |
| Ingest.Window | Application2/backend/ingest.py:46-47 | a clamped slice is at most `chunk_size` long |
| Ingest.WindowSpec | Application2/backend/ingest.py:46-47 | a clamped slice is the non-empty slice at `start`, full length unless it reaches the end of the text |
| Ingest.DefaultsCutAdjacentWindows | Application2/backend/ingest.py:21-22 | the defaults are 600 and 100, and with them `start` advances by exactly 600 |
| Ingest.ChunkText | Application2/backend/ingest.py:39-50 | the loop returns the stripped windows at multiples of the stride; empty text and only empty text gives no chunks |
| Ingest.Stride | Application2/backend/ingest.py:49 | `start` never advances by less than `chunk_size` |
| Ingest.OverlapHasNoEffect | Application2/backend/ingest.py:49 | for `overlap >= 0` the step is `chunk_size`, the same as for `overlap = 0`; a negative overlap skips `-overlap` characters |
| Ingest.ChunkTextCount | Application2/backend/ingest.py:43-49 | for `overlap >= 0` there are `ceil(len(text) / chunk_size)` chunks |
| Ingest.ChunkTextChunkAt | Application2/backend/ingest.py:46-48 | chunk `i` is the stripped slice `text[i*chunk_size:(i+1)*chunk_size]`, at most `chunk_size` long, and `""` exactly when that slice is all whitespace |
| Ingest.ChunksStripWindows | Application2/backend/ingest.py:48 | chunks and windows correspond one for one, each chunk the stripped window |
| Ingest.WindowAt | Application2/backend/ingest.py:45-47 | window `i` starts `i` strides in |
| Ingest.WindowCount | Application2/backend/ingest.py:45-49 | the last window starts inside the text and one more stride would pass its end |
| Ingest.WindowsRebuildText | Application2/backend/ingest.py:46-47 | the unstripped slices, concatenated in order, reproduce the text |
| Ingest.ChunkTextOverlapping | Application2/backend/ingest.py:49 | the corrected loop returns the stripped windows at multiples of `chunk_size - overlap` |
| Ingest.OverlappingWindowsShare | Application2/backend/ingest.py:49 | with the corrected step, each full window ends with the `overlap` characters the next one starts with |
| Ingest.OverlapExample | Application2/backend/ingest.py:49 | on `"abcdefgh"`, size 4, overlap 2: two adjacent windows as written, four overlapping windows once corrected |

The functions that compute the prompts, histories and chunk lists are stated
through the lemmas about them: `Memory.AddExchange` through
`Memory.AddExchangeSpec` and `Memory.AddExchangeKeepsMostRecent`;
`AppPipeline.BuildPrompt` through `AppPipeline.BuildPromptShowsHistory`,
`AppPipeline.BuildPromptEndsWithQuestion`, `AppPipeline.BuildPromptSeesLastFive`
and `AppPipeline.BuildPromptUnknownUser`; `App2Pipeline.BuildPrompt` through
`App2Pipeline.BuildPromptShowsContext`, `App2Pipeline.BuildPromptQuotesRefusal`
and `App2Pipeline.BuildPromptEndsWithQuestion`;
`Chat.ChatPrompt` through `Chat.ChatPromptLayout`;
`AppPipeline.AppendBounded` through `AppPipeline.AppendBoundedKeepsLastFive`
and `AppPipeline.AppendBoundedAll`; and `Ingest.Chunks` through
`Ingest.ChunksStripWindows`, `Ingest.ChunkTextCount` and
`Ingest.ChunkTextChunkAt`.

## Left out

- Vector search, embeddings and ranking (MMR parameters, `fetch_k`, `lambda_mult`): they are foreign and floating-point. `similarity_search` is a function parameter returning documents in ranking order.
- Model clients (`Ollama`, `OllamaClient.generate`, `llm.invoke`, `llm.stream`) and the probing of their responses (`content`/`response` attributes, the `choices` dictionary, `str(res)`): the model receives the extracted answer text.
- LangChain chain internals, including `ConversationBufferMemory`, the retriever and the chain's prompt: a chain is known only by its user and its store, and calling it is a parameter.
- `_load_docs`, text splitting and `Milvus.from_documents` in `build_vectorstore`: the build is reduced to its result, a new store or a failure.
- Ingestion I/O (`read_txt`, `read_pdf`, `ingest_folder`), authentication, HTTP routing, logging and `print` output, the frontends and configuration loading.
- Concurrency: each request is one atomic step over the state; interleavings inside a request are not modelled.
- Constructors of `App` and `Application2` pipelines (collection creation, client set-up) are assumed to succeed. `App`'s `top_k` is a parameter.
- Ingest.ChunkText: requires `chunk_size > 0`, which the defaults (600, 100) meet. Three kinds of input are left out. With `overlap >= 0`, a zero or negative size never moves `start` forward, so the loop does not end. With `chunk_size == 0` and `overlap < 0`, the loop does end: `start` advances by `-overlap` and every chunk is `""`. A negative size with a negative overlap would slice with Python's negative indices.
- RagAppPipeline.SourceUrl: `os.path.exists` is a parameter and `basename` is POSIX `basename`; the file system itself is not modelled.

## Findings

| source | as written | input that shows it | evidently intended | confidence | as-written member | corrected member |
|---|---|---|---|---|---|---|
| Application2/backend/ingest.py:49 | `start = max(end - overlap, end)` always moves `start` to `end` or beyond, so `overlap` (default 100) never makes windows overlap | `chunk_text("abcdefgh", 4, 2)` takes windows `abcd`, `efgh` | `start = end - overlap`, kept at least one past `start`, so that neighbouring windows share `overlap` characters | medium; not executed | Ingest.OverlapExample | Ingest.ChunkTextOverlapping |
