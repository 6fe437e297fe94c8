/** `RAGPipeline` of the `Application2` backend
    (Application2/backend/rag_pipeline.py): a stateless pipeline. Retrieval
    maps documents to hits, the prompt depends on the question and the
    retrieved chunks only, `ask` returns the model's answer as it is, and
    `ask_stream` passes the model's stream on. Nothing is remembered between
    calls, so no operation returns a new pipeline state. */
module App2Pipeline {
  import opened Wrappers
  import opened Text
  import opened RagTypes

  /** `k` of every retrieval made by `ask` and `ask_stream`. */
  const RetrievalK: int := 3

  /** The analyst instructions, up to the point where the refusal sentence
      is quoted. */
  const Rules: String :=
    "You are a meticulous and accurate document "
    + "analyst. Your task is to answer the user's "
    + "question based exclusively on the provided "
    + "context. Follow these rules strictly:\n1. "
    + "Your entire response must be grounded in "
    + "the facts provided in the 'Context' section. "
    + "Do not use any prior knowledge.\n2. If multiple "
    + "parts of the context are relevant, synthesize "
    + "them into a single, coherent answer.\n3. "
    + "If the context does not contain the information "
    + "needed to answer the question, you must "
    + "state only: "

  /** The one sentence the model is told to answer with when the context is
      not enough, on a line of its own. */
  const Refusal: String :=
    "'The provided context does not contain enough "
    + "information to answer this question.'\n"

  /** The dashed line framing the context. */
  const Rule: String := "-----------------------------------------\n"

  /** The fixed text before the context. */
  const Head: String := Rules + Refusal + Rule

  /** The question and the cue for the answer, which end the prompt. */
  function QuestionPart(question: String): String {
    "Question: " + question + "\n\nAnswer:"
  }

  /** `_build_prompt(question, chunks)`: the instructions, the context
      between two dashed lines, then the question. */
  function BuildPrompt(question: String, chunks: seq<String>): String {
    Head + (("Context: " + ContextBlock(chunks)) + "\n") + (Rule + QuestionPart(question))
  }

  /** Where the context starts inside a prompt. */
  const ContextOffset: nat := |Head| + |"Context: "|

  /** The prompt starts with the fixed instructions and shows the context
      (the chunks joined by blank lines, or nothing) right after
      `Context: `. */
  lemma BuildPromptShowsContext(question: String, chunks: seq<String>)
    ensures var prompt := BuildPrompt(question, chunks);
      && StartsWith(prompt, Head)
      && ContextOffset + |ContextBlock(chunks)| <= |prompt|
      && prompt[ContextOffset..ContextOffset + |ContextBlock(chunks)|] == ContextBlock(chunks)
  {
    TemplateLayout(Head, "Context: ", ContextBlock(chunks), "\n", Rule + QuestionPart(question));
  }

  /** The prompt quotes the refusal sentence, right after the rules. */
  lemma BuildPromptQuotesRefusal(question: String, chunks: seq<String>)
    ensures var prompt := BuildPrompt(question, chunks);
      |Rules| + |Refusal| <= |prompt| && prompt[|Rules|..|Rules| + |Refusal|] == Refusal
  {
    var prompt := BuildPrompt(question, chunks);
    TemplateLayout(Head, "Context: ", ContextBlock(chunks), "\n", Rule + QuestionPart(question));
    InfixAt(Rules, Refusal, Rule);
    PrefixInfix(prompt, Head, |Rules|, |Rules| + |Refusal|);
  }

  /** The prompt ends with the question and the answer cue. */
  lemma BuildPromptEndsWithQuestion(question: String, chunks: seq<String>)
    ensures EndsWith(BuildPrompt(question, chunks), QuestionPart(question))
  {
    var prompt := BuildPrompt(question, chunks);
    TemplateLayout(Head, "Context: ", ContextBlock(chunks), "\n", Rule + QuestionPart(question));
    EndsWithTail(prompt, "\n", Rule + QuestionPart(question));
    EndsWithTail(prompt, Rule, QuestionPart(question));
  }

  /** `retrieve(query, k)`: one hit per document, in ranking order, with the
      document's `source` metadata, `""` when it has none. `None` when the
      similarity search raises. */
  function Retrieve(search: Search, query: String, k: int): (r: Option<seq<Hit>>)
    ensures r.None? <==> search(query, k).None?
  {
    match search(query, k)
    case None => None
    case Some(docs) =>
      Some(seq(|docs|, i requires 0 <= i < |docs| => Hit(docs[i].pageContent, MetaGet(docs[i], "source", ""))))
  }

  /** Hits are the documents, one for one and in order. */
  lemma RetrieveMapsDocs(search: Search, query: String, k: int)
    requires search(query, k).Some?
    ensures var docs := search(query, k).value;
      var hits := Retrieve(search, query, k).value;
      && |hits| == |docs|
      && forall i :: 0 <= i < |docs| ==>
        hits[i].text == docs[i].pageContent && hits[i].source == MetaGet(docs[i], "source", "")
  {
  }

  /** Which call raised: the similarity search or the model. */
  datatype App2Error = RetrievalFailed | LlmFailed

  /** The prompt `ask` and `ask_stream` send once retrieval succeeded. */
  function PromptFor(search: Search, question: String): String
    requires search(question, RetrievalK).Some?
  {
    BuildPrompt(question, HitTexts(Retrieve(search, question, RetrievalK).value))
  }

  /** `ask(user_id, question)`: retrieve up to three chunks (`k = 3`), prompt
      the model (`llm(prompt)`, `None` when it raises) and return its answer
      as it is, with one source per hit. Exceptions propagate. */
  function Ask(search: Search, llm: String -> Option<String>, user: String, question: String): (r: Result<AskResult, App2Error>)
    ensures r == Err(RetrievalFailed) <==> search(question, RetrievalK).None?
    ensures r == Err(LlmFailed) <==> search(question, RetrievalK).Some? && llm(PromptFor(search, question)).None?
    ensures r.Ok? ==> r.value.question == question && r.value.answer == llm(PromptFor(search, question)).value
  {
    match Retrieve(search, question, RetrievalK)
    case None => Err(RetrievalFailed)
    case Some(hits) =>
      match llm(PromptFor(search, question))
      case None => Err(LlmFailed)
      case Some(answer) => Ok(AskResult(question, answer, HitSources(hits)))
  }

  /** A successful `ask` lists one source per retrieved document, in ranking
      order, `""` for a document without one. */
  lemma AskSourcesFollowDocs(search: Search, llm: String -> Option<String>, user: String, question: String)
    requires Ask(search, llm, user, question).Ok?
    ensures var docs := search(question, RetrievalK).value;
      var sources := Ask(search, llm, user, question).value.sources;
      && |sources| == |docs|
      && forall i :: 0 <= i < |docs| ==> sources[i] == MetaGet(docs[i], "source", "")
  {
    RetrieveMapsDocs(search, question, RetrievalK);
  }

  /** The user id plays no part: any two users asking the same question get
      the same outcome. */
  lemma AskIgnoresUser(search: Search, llm: String -> Option<String>, u1: String, u2: String, question: String)
    ensures Ask(search, llm, u1, question) == Ask(search, llm, u2, question)
  {
  }

  /** A run of the `ask_stream` generator to its end: what it yielded, and
      the exception that ended it, if any. */
  datatype StreamRun = StreamRun(yielded: seq<String>, error: Option<App2Error>)

  /** `ask_stream(user_id, question)`, run to exhaustion: nothing is yielded
      when retrieval raises; otherwise the model's stream (`llm.stream(prompt)`)
      is passed on piece by piece, and its exception, if any, ends the run. */
  function AskStream(search: Search, stream: String -> StreamOutcome, user: String, question: String): (r: StreamRun)
    ensures search(question, RetrievalK).None? ==> r == StreamRun([], Some(RetrievalFailed))
    ensures search(question, RetrievalK).Some? ==>
      && r.yielded == stream(PromptFor(search, question)).pieces
      && (r.error == Some(LlmFailed) <==> stream(PromptFor(search, question)).failed)
      && (r.error == None <==> !stream(PromptFor(search, question)).failed)
  {
    match Retrieve(search, question, RetrievalK)
    case None => StreamRun([], Some(RetrievalFailed))
    case Some(hits) =>
      var run := stream(PromptFor(search, question));
      StreamRun(run.pieces, if run.failed then Some(LlmFailed) else None)
  }

  /** The user id plays no part in the stream either. */
  lemma AskStreamIgnoresUser(search: Search, stream: String -> StreamOutcome, u1: String, u2: String, question: String)
    ensures AskStream(search, stream, u1, question) == AskStream(search, stream, u2, question)
  {
  }

  /** `ask` and `ask_stream` send the same prompt: for a model whose complete
      stream spells out its answer, the streamed pieces put together are
      exactly `ask`'s answer. */
  lemma StreamSpellsAskAnswer(search: Search, llm: String -> Option<String>, stream: String -> StreamOutcome,
                              user: String, question: String)
    requires search(question, RetrievalK).Some?
    requires !stream(PromptFor(search, question)).failed
    requires llm(PromptFor(search, question)) == Some(Concat(stream(PromptFor(search, question)).pieces))
    ensures Ask(search, llm, user, question).Ok?
    ensures AskStream(search, stream, user, question).error == None
    ensures Concat(AskStream(search, stream, user, question).yielded) == Ask(search, llm, user, question).value.answer
  {
  }
}
