/** `RAGPipeline` of the `App` backend (App/backend/app/rag_pipeline.py):
    retrieval with source rewriting, a prompt built from the last five
    exchanges of the user, an LLM call whose failure becomes a fixed answer,
    and a per-user history cut to five exchanges after each answer. */
module AppPipeline {
  import opened Wrappers
  import opened Text
  import opened RagTypes
  import Memory

  /** How many exchanges a prompt shows and a history keeps. */
  const HistoryWindow: nat := 5

  /** The Ollama client as seen by the pipeline: absent (`self.llm is None`
      when the package is missing), or present with `generate` (raw answer
      text, `None` when it raises) and, when the client has a `stream`
      attribute, that streaming call. */
  datatype LlmClient =
    | NoClient
    | Client(generate: String -> Option<String>, stream: Option<String -> StreamOutcome>)

  /** The pipeline's state: `self.top_k` and the `histories` defaultdict. */
  datatype Pipeline = Pipeline(topK: int, histories: map<String, seq<Exchange>>)

  /** An exception from the vector store escaping `retrieve`. */
  datatype AppError = RetrievalFailed

  datatype Asked = Asked(pipeline: Pipeline, result: AskResult)

  /** The pipeline after the generator is exhausted, and everything it yielded. */
  datatype Streamed = Streamed(pipeline: Pipeline, yielded: seq<String>)

  /** `k or self.top_k`: `None` and `0` fall back to the configured value. */
  function EffectiveK(k: Option<int>, topK: int): (r: int)
    ensures (k == None || k == Some(0)) ==> r == topK
    ensures k.Some? && k.value != 0 ==> r == k.value
  {
    match k
    case None => topK
    case Some(v) => if v == 0 then topK else v
  }

  /** Rewrites a document source into the URL the server publishes it under:
      a non-empty path becomes `/files/` followed by its base name, an empty
      source stays empty. */
  function RewriteSource(src: String): (r: String)
    ensures r == "" <==> src == ""
    ensures src != "" ==>
      && StartsWith(r, "/files/")
      && '/' !in r[|"/files/"|..]
      && EndsWith(src, r[|"/files/"|..])
      && (|r| - |"/files/"| < |src| ==> src[|src| - (|r| - |"/files/"|) - 1] == '/')
  {
    if src == "" then "" else "/files/" + Basename(src)
  }

  function ToHit(d: Doc): Hit {
    Hit(d.pageContent, RewriteSource(MetaGet(d, "source", "")))
  }

  /** `retrieve(query, k)`: one hit per document, in ranking order, with the
      rewritten source. */
  function Retrieve(p: Pipeline, search: Search, query: String, k: Option<int>): (r: Option<seq<Hit>>)
    ensures r.None? <==> search(query, EffectiveK(k, p.topK)).None?
  {
    match search(query, EffectiveK(k, p.topK))
    case None => None
    case Some(docs) => Some(seq(|docs|, i requires 0 <= i < |docs| => ToHit(docs[i])))
  }

  /** Hits come one per document, in ranking order, carrying the document's
      text and its rewritten source. */
  lemma RetrieveMapsDocs(p: Pipeline, search: Search, query: String, k: Option<int>)
    requires search(query, EffectiveK(k, p.topK)).Some?
    ensures Retrieve(p, search, query, k).Some?
    ensures var docs := search(query, EffectiveK(k, p.topK)).value;
      var hits := Retrieve(p, search, query, k).value;
      && |hits| == |docs|
      && forall i :: 0 <= i < |docs| ==>
        && hits[i].text == docs[i].pageContent
        && hits[i].source == RewriteSource(MetaGet(docs[i], "source", ""))
  {
  }

  /** `ask` passes `top_k or self.top_k` on to `retrieve`, which applies the
      same fallback again to no further effect. */
  lemma RetrieveEffectiveK(p: Pipeline, search: Search, query: String, k: Option<int>)
    ensures EffectiveK(Some(EffectiveK(k, p.topK)), p.topK) == EffectiveK(k, p.topK)
    ensures Retrieve(p, search, query, Some(EffectiveK(k, p.topK))) == Retrieve(p, search, query, k)
  {
  }

  /** `self.histories.get(user_id, [])`: reading never creates an entry. */
  function History(p: Pipeline, user: String): seq<Exchange> {
    if user in p.histories then p.histories[user] else []
  }

  /** One exchange as `_build_prompt` renders it. */
  function RenderTurn(e: Exchange): String {
    "User: " + e.question + "\nAssistant: " + e.answer + "\n"
  }

  function RenderTurns(turns: seq<Exchange>): (r: seq<String>)
    ensures |r| == |turns|
    ensures forall i :: 0 <= i < |turns| ==> r[i] == RenderTurn(turns[i])
  {
    seq(|turns|, i requires 0 <= i < |turns| => RenderTurn(turns[i]))
  }

  /** `hist_str`: the rendered turns one after another. */
  function HistoryBlock(turns: seq<Exchange>): String {
    Concat(RenderTurns(turns))
  }

  /** The rendering is oldest-first: rendering two runs of turns one after
      the other is rendering their concatenation, no history renders as
      nothing, and a single exchange renders as `User: q\nAssistant: a\n`.
      Together these fix the rendering of every history. */
  lemma HistoryBlockAppend(a: seq<Exchange>, b: seq<Exchange>, e: Exchange)
    ensures HistoryBlock(a + b) == HistoryBlock(a) + HistoryBlock(b)
    ensures HistoryBlock([]) == ""
    ensures HistoryBlock([e]) == "User: " + e.question + "\nAssistant: " + e.answer + "\n"
  {
    assert RenderTurns(a + b) == RenderTurns(a) + RenderTurns(b);
    ConcatAppend(RenderTurns(a), RenderTurns(b));
    assert RenderTurns([e]) == [RenderTurn(e)];
  }

  const Instructions: String :=
    "You are an assistant that MUST answer using "
    + "ONLY the provided context. If the context "
    + "does not contain the answer, reply: 'The "
    + "provided context does not contain enough "
    + "information.'\n\n"

  /** The history section of the prompt. */
  function HistorySection(turns: seq<Exchange>): String {
    "Conversation history:\n" + HistoryBlock(turns) + "\n"
  }

  /** The context section of the prompt. */
  function ContextSection(chunks: seq<String>): String {
    "Context:\n" + ContextBlock(chunks) + "\n\n"
  }

  /** The closing question of the prompt. */
  function QuestionSection(question: String): String {
    "User: " + question + "\nAssistant:"
  }

  /** `_build_prompt(user_id, question, chunks)`. */
  function BuildPrompt(p: Pipeline, user: String, question: String, chunks: seq<String>): String {
    var history := Memory.LastN(History(p, user), HistoryWindow);
    Instructions + HistorySection(history) + (ContextSection(chunks) + QuestionSection(question))
  }

  /** Where the history block starts inside a prompt. */
  const HistoryOffset: nat := |Instructions| + |"Conversation history:\n"|

  /** The prompt is the fixed instructions, then the rendering of at most
      the last five exchanges of the user, at a fixed offset. */
  lemma BuildPromptShowsHistory(p: Pipeline, user: String, question: String, chunks: seq<String>)
    ensures var prompt := BuildPrompt(p, user, question, chunks);
      var block := HistoryBlock(Memory.LastN(History(p, user), HistoryWindow));
      && StartsWith(prompt, Instructions)
      && HistoryOffset + |block| <= |prompt|
      && prompt[HistoryOffset..HistoryOffset + |block|] == block
  {
    var block := HistoryBlock(Memory.LastN(History(p, user), HistoryWindow));
    TemplateLayout(Instructions, "Conversation history:\n", block, "\n", ContextSection(chunks) + QuestionSection(question));
  }

  /** The prompt ends with the context section and then the question, which
      hands the turn to the assistant. */
  lemma BuildPromptEndsWithQuestion(p: Pipeline, user: String, question: String, chunks: seq<String>)
    ensures EndsWith(BuildPrompt(p, user, question, chunks), ContextSection(chunks) + QuestionSection(question))
  {
    var block := HistoryBlock(Memory.LastN(History(p, user), HistoryWindow));
    var tail := ContextSection(chunks) + QuestionSection(question);
    TemplateLayout(Instructions, "Conversation history:\n", block, "\n", tail);
    EndsWithTail(BuildPrompt(p, user, question, chunks), "\n", tail);
  }

  /** Only the last five exchanges of the requesting user reach the prompt:
      other users' histories, and anything older, make no difference. */
  lemma BuildPromptSeesLastFive(p: Pipeline, p': Pipeline, user: String, question: String, chunks: seq<String>)
    requires Memory.LastN(History(p, user), HistoryWindow) == Memory.LastN(History(p', user), HistoryWindow)
    ensures BuildPrompt(p, user, question, chunks) == BuildPrompt(p', user, question, chunks)
  {
  }

  /** A user without history gets the prompt of an empty history, whose
      history block is empty. */
  lemma BuildPromptUnknownUser(p: Pipeline, user: String, question: String, chunks: seq<String>)
    requires user !in p.histories
    ensures BuildPrompt(p, user, question, chunks) == BuildPrompt(p.(histories := map[]), user, question, chunks)
    ensures HistoryBlock(Memory.LastN(History(p, user), HistoryWindow)) == ""
  {
  }

  const InferenceFailed: String := "LLM inference failed."
  const NotConfigured: String :=
    "LLM not configured on server. Please configure "
    + "Ollama or another LLM client."

  /** `_call_llm(prompt)`: never fails. The stripped model answer; the fixed
      failure text when the client raises; the fixed placeholder when no
      client is configured. The answer never has surrounding whitespace. */
  function CallLlm(client: LlmClient, prompt: String): (r: String)
    ensures client.NoClient? ==> r == NotConfigured
    ensures client.Client? && client.generate(prompt).None? ==> r == InferenceFailed
    ensures client.Client? && client.generate(prompt).Some? ==> r == Strip(client.generate(prompt).value)
  {
    match client
    case NoClient =>
      NotConfigured
    case Client(generate, _) =>
      match generate(prompt)
      case None =>
        InferenceFailed
      case Some(raw) =>
        Strip(raw)
  }

  /** A model answer comes back with no surrounding whitespace. */
  lemma CallLlmAnswerIsStripped(client: LlmClient, prompt: String)
    requires client.Client? && client.generate(prompt).Some?
    ensures Strip(CallLlm(client, prompt)) == CallLlm(client, prompt)
  {
    StripIdempotent(client.generate(prompt).value);
  }

  /** `histories[user_id].append(...)` then `histories[user_id][-5:]` if the
      list grew past five. */
  function AppendBounded(h: seq<Exchange>, e: Exchange): seq<Exchange> {
    var h' := h + [e];
    if |h'| > HistoryWindow then h'[|h'| - HistoryWindow..] else h'
  }

  /** One bounded append keeps the last five of the old history followed by
      the new exchange, which is therefore the newest one, and never more than
      five exchanges. */
  lemma AppendBoundedKeepsLastFive(h: seq<Exchange>, e: Exchange)
    ensures AppendBounded(h, e) == Memory.LastN(h + [e], HistoryWindow)
    ensures 0 < |AppendBounded(h, e)| <= HistoryWindow
    ensures AppendBounded(h, e)[|AppendBounded(h, e)| - 1] == e
  {
  }

  /** Successive bounded appends keep the five most recent exchanges. */
  lemma {:induction false} AppendBoundedAll(h: seq<Exchange>, es: seq<Exchange>)
    ensures AppendEach(h, es) == if |es| == 0 then h else Memory.LastN(h + es, HistoryWindow)
    decreases |es|
  {
    if |es| > 0 {
      var e, rest := es[0], es[1..];
      assert AppendEach(h, es) == AppendEach(AppendBounded(h, e), rest);
      AppendBoundedAll(AppendBounded(h, e), rest);
      if |rest| > 0 {
        AppendBoundedThenMore(h, e, rest);
        assert [e] + rest == es;
      } else {
        AppendBoundedKeepsLastFive(h, e);
        assert es == [e];
      }
    }
  }

  /** Keeping the last five after one append, then appending more and
      keeping the last five, keeps the last five of everything. */
  lemma AppendBoundedThenMore(h: seq<Exchange>, e: Exchange, rest: seq<Exchange>)
    ensures Memory.LastN(AppendBounded(h, e) + rest, HistoryWindow) == Memory.LastN(h + ([e] + rest), HistoryWindow)
  {
    AppendBoundedKeepsLastFive(h, e);
    Memory.LastNAppend(h + [e], rest, HistoryWindow);
    assert (h + [e]) + rest == h + ([e] + rest);
  }

  function AppendEach(h: seq<Exchange>, es: seq<Exchange>): seq<Exchange>
    decreases |es|
  {
    if |es| == 0 then h else AppendEach(AppendBounded(h, es[0]), es[1..])
  }

  /** Records `(question, answer)` for `user`: the user's history becomes the
      last five exchanges of the old one followed by the new one, and nothing
      else changes. */
  function Record(p: Pipeline, user: String, question: String, answer: String): Pipeline {
    p.(histories := p.histories[user := AppendBounded(History(p, user), Exchange(question, answer))])
  }

  /** The prompt both `ask` and `ask_stream` send, once retrieval succeeded. */
  function PromptFor(p: Pipeline, search: Search, user: String, question: String, topK: Option<int>): String
    requires search(question, EffectiveK(topK, p.topK)).Some?
  {
    BuildPrompt(p, user, question, HitTexts(Retrieve(p, search, question, topK).value))
  }

  /** The client can stream, and its stream for `prompt` runs to the end. */
  predicate StreamsFully(client: LlmClient, prompt: String) {
    client.Client? && client.stream.Some? && !client.stream.value(prompt).failed
  }

  /** What the client's stream yields for `prompt` (nothing without one). */
  function StreamedPieces(client: LlmClient, prompt: String): seq<String> {
    if client.Client? && client.stream.Some? then client.stream.value(prompt).pieces else []
  }

  /** `ask(user_id, question, top_k)`. `ask` hands `top_k or self.top_k` to
      `retrieve`, which applies the same fallback again to no further effect
      (`RetrieveEffectiveK`), so the retrieval is written here with `topK`. */
  function Ask(p: Pipeline, client: LlmClient, search: Search, user: String, question: String,
               topK: Option<int>): (r: Result<Asked, AppError>)
    ensures r.Err? <==> search(question, EffectiveK(topK, p.topK)).None?
    ensures r.Ok? ==> r.value.result.question == question
  {
    match Retrieve(p, search, question, topK)
    case None => Err(RetrievalFailed)
    case Some(hits) =>
      var answer := CallLlm(client, PromptFor(p, search, user, question, topK));
      Ok(Asked(Record(p, user, question, answer), AskResult(question, answer, HitSources(hits))))
  }

  /** A successful `ask` records its question with its answer in the user's
      history, and changes nothing else. */
  lemma AskRecordsAnswer(p: Pipeline, client: LlmClient, search: Search, user: String,
                         question: String, topK: Option<int>)
    requires Ask(p, client, search, user, question, topK).Ok?
    ensures var a := Ask(p, client, search, user, question, topK).value;
      a.pipeline == Record(p, user, question, a.result.answer)
  {
  }

  /** A successful `ask` answers with `_call_llm`'s reply to the prompt built
      from the retrieved chunks, and lists one source per hit, in order. */
  lemma AskAnswersFromContext(p: Pipeline, client: LlmClient, search: Search, user: String,
                              question: String, topK: Option<int>)
    requires search(question, EffectiveK(topK, p.topK)).Some?
    ensures Ask(p, client, search, user, question, topK).Ok?
    ensures var r := Ask(p, client, search, user, question, topK).value.result;
      && r.answer == CallLlm(client, PromptFor(p, search, user, question, topK))
      && r.sources == HitSources(Retrieve(p, search, question, topK).value)
  {
    var hits := Retrieve(p, search, question, topK).value;
    var answer := CallLlm(client, PromptFor(p, search, user, question, topK));
    assert Ask(p, client, search, user, question, topK).value.result == AskResult(question, answer, HitSources(hits));
  }

  /** `ask_stream(user_id, question, top_k)`, run to exhaustion. With a
      streaming client the pieces are passed on as they come and the history
      is left alone; if streaming is unavailable, or raises part-way, the
      answer of `_call_llm` is recorded and yielded as one more item. */
  function AskStream(p: Pipeline, client: LlmClient, search: Search, user: String, question: String,
                     topK: Option<int>): (r: Result<Streamed, AppError>)
    ensures r.Err? <==> search(question, EffectiveK(topK, p.topK)).None?
  {
    match Retrieve(p, search, question, topK)
    case None => Err(RetrievalFailed)
    case Some(hits) =>
      var prompt := PromptFor(p, search, user, question, topK);
      if StreamsFully(client, prompt) then
        Ok(Streamed(p, StreamedPieces(client, prompt)))
      else
        var answer := CallLlm(client, prompt);
        Ok(Streamed(Record(p, user, question, answer), StreamedPieces(client, prompt) + [answer]))
  }

  /** A stream that runs to the end is passed on unchanged, and the history
      is left as it was. */
  lemma AskStreamPassesStreamOn(p: Pipeline, client: LlmClient, search: Search, user: String,
                                question: String, topK: Option<int>)
    requires search(question, EffectiveK(topK, p.topK)).Some?
    requires StreamsFully(client, PromptFor(p, search, user, question, topK))
    ensures AskStream(p, client, search, user, question, topK) ==
      Ok(Streamed(p, client.stream.value(PromptFor(p, search, user, question, topK)).pieces))
  {
  }

  /** Without a stream that runs to the end, `ask_stream` ends in the same
      state as `ask` and its last item is `ask`'s answer, after whatever the
      stream yielded before it raised. */
  lemma AskStreamFallbackMatchesAsk(p: Pipeline, client: LlmClient, search: Search, user: String,
                                    question: String, topK: Option<int>)
    requires search(question, EffectiveK(topK, p.topK)).Some?
    requires !StreamsFully(client, PromptFor(p, search, user, question, topK))
    ensures Ask(p, client, search, user, question, topK).Ok?
    ensures AskStream(p, client, search, user, question, topK).Ok?
    ensures var a := Ask(p, client, search, user, question, topK).value;
      var s := AskStream(p, client, search, user, question, topK).value;
      && s.pipeline == a.pipeline
      && s.yielded == StreamedPieces(client, PromptFor(p, search, user, question, topK)) + [a.result.answer]
  {
    AskAnswersFromContext(p, client, search, user, question, topK);
  }

  /** With a client that cannot stream, `ask_stream` yields exactly `ask`'s
      answer, as one item, and records it as `ask` does. */
  lemma AskStreamWithoutStreamIsAsk(p: Pipeline, client: LlmClient, search: Search, user: String,
                                    question: String, topK: Option<int>)
    requires search(question, EffectiveK(topK, p.topK)).Some?
    requires client.NoClient? || client.stream.None?
    ensures Ask(p, client, search, user, question, topK).Ok?
    ensures AskStream(p, client, search, user, question, topK).Ok?
    ensures var a := Ask(p, client, search, user, question, topK).value;
      var s := AskStream(p, client, search, user, question, topK).value;
      s.pipeline == a.pipeline && s.yielded == [a.result.answer]
  {
    AskStreamFallbackMatchesAsk(p, client, search, user, question, topK);
  }
}
