/** The `/api/chat` endpoint of the `App` backend (App/backend/app/chat.py):
    a lazily filled map from user id to `ConversationMemory`, and one request
    modelled as one atomic step over that map. The vector store and the
    language model are function parameters. */
module Chat {
  import opened Wrappers
  import opened Text
  import opened RagTypes
  import opened Memory

  /** The module-level `user_memories` dictionary. */
  type Memories = map<String, ConversationMemory>

  /** `k` passed to `similarity_search`. */
  const RetrievalK: int := 3

  /** Memory size of a newly created per-user memory. */
  const UserMaxTurns: int := 5

  /** Why a request fails. `RetrievalFailed` is an exception escaping
      `get_vectorstore()` or `similarity_search`, which the web framework
      turns into a 500 response. */
  datatype ChatError = MissingQuestion | RetrievalFailed | LlmFailed

  /** The HTTP status the error is answered with (`HTTPException`'s
      `status_code`, or 500 for an unhandled exception). */
  function StatusCode(e: ChatError): int {
    match e
    case MissingQuestion => 400
    case RetrievalFailed => 500
    case LlmFailed => 500
  }

  /** The `detail` of the error response. */
  function Detail(e: ChatError): String {
    match e
    case MissingQuestion => "Missing question"
    case RetrievalFailed => "Internal Server Error"
    case LlmFailed => "LLM processing failed"
  }

  /** The state after a request, and the response or the error. */
  datatype ChatOutcome = ChatOutcome(memories: Memories, response: Result<AskResult, ChatError>)

  /** The memory the user has, or the one `get_user_memory` would create. */
  function PriorMemory(mems: Memories, user: String): ConversationMemory {
    if user in mems then mems[user] else New(UserMaxTurns)
  }

  /** `get_user_memory(user_id)`: returns the user's memory, creating an empty
      one with `max_turns=5` first if the user has none. */
  function GetUserMemory(mems: Memories, user: String): (r: (Memories, ConversationMemory))
    ensures user in r.0 && r.0[user] == r.1
    ensures user in mems ==> r.0 == mems && r.1 == mems[user]
    ensures user !in mems ==> r.1.history == [] && r.1.maxTurns == 5 && r.0.Keys == mems.Keys + {user}
    ensures forall u :: u != user ==> (u in r.0 <==> u in mems)
    ensures forall u :: u != user && u in mems ==> r.0[u] == mems[u]
  {
    if user in mems then (mems, mems[user])
    else
      var m := New(UserMaxTurns);
      (mems[user := m], m)
  }

  /** Once created, a user's memory is returned unchanged by later lookups,
      and the lookup no longer touches the map. */
  lemma GetUserMemoryIsStable(mems: Memories, user: String)
    ensures var (mems', m) := GetUserMemory(mems, user);
      GetUserMemory(mems', user) == (mems', m)
  {
  }

  /** `sources`: one `metadata.get("source", "")` per document, in order. */
  function DocSources(docs: seq<Doc>): (r: seq<String>)
    ensures |r| == |docs|
    ensures forall i :: 0 <= i < |docs| ==> r[i] == MetaGet(docs[i], "source", "")
  {
    seq(|docs|, i requires 0 <= i < |docs| => MetaGet(docs[i], "source", ""))
  }

  function DocContents(docs: seq<Doc>): (r: seq<String>)
    ensures |r| == |docs|
    ensures forall i :: 0 <= i < |docs| ==> r[i] == docs[i].pageContent
  {
    seq(|docs|, i requires 0 <= i < |docs| => docs[i].pageContent)
  }

  /** `context_text`: the page contents joined with a blank line, the same
      context block the other backends build from their chunks. */
  function ContextText(docs: seq<Doc>): String {
    ContextBlock(DocContents(docs))
  }

  /** The context is `"\n\n".join` of the retrieved pages: no documents give
      an empty context; otherwise every page shows verbatim and in ranking
      order at its own offset, exactly one blank line separates neighbouring
      pages, and the context ends with the last page. */
  lemma ContextTextShowsDocs(docs: seq<Doc>)
    ensures docs == [] ==> ContextText(docs) == ""
    ensures forall i :: 0 <= i < |docs| ==>
      JoinOffset("\n\n", DocContents(docs), i) + |docs[i].pageContent| <= |ContextText(docs)| &&
      ContextText(docs)[JoinOffset("\n\n", DocContents(docs), i)..JoinOffset("\n\n", DocContents(docs), i) + |docs[i].pageContent|]
        == docs[i].pageContent
    ensures forall i :: 0 <= i < |docs| - 1 ==> SeparatorAfter(DocContents(docs), i) == "\n\n"
    ensures docs != [] ==>
      |ContextText(docs)| == JoinOffset("\n\n", DocContents(docs), |docs| - 1) + |docs[|docs| - 1].pageContent|
  {
    ContextBlockShowsChunks(DocContents(docs));
    ContextBlockSeparatesChunks(DocContents(docs));
  }

  const PromptHeader: String :=
    "You are a helpful assistant.\nUse the following "
    + "context and conversation history to answer "
    + "the question.\nIf you don't know, say you "
    + "don't know.\n\nConversation history:\n"

  /** The formatted prompt template. */
  function ChatPrompt(history: String, context: String, question: String): String {
    PromptHeader + history + "\n\nContext:\n" + context + "\n\nQuestion: " + question + "\n\nAnswer:"
  }

  /** The prompt shows the history text and then the context right after the
      fixed instructions, and ends by asking the question. */
  lemma ChatPromptLayout(history: String, context: String, question: String)
    ensures StartsWith(ChatPrompt(history, context, question), PromptHeader + history + "\n\nContext:\n" + context)
    ensures EndsWith(ChatPrompt(history, context, question), "\n\nQuestion: " + question + "\n\nAnswer:")
  {
    var r := ChatPrompt(history, context, question);
    var head := PromptHeader + history + "\n\nContext:\n" + context;
    var tail := "\n\nQuestion: " + question + "\n\nAnswer:";
    assert r == head + tail;
  }

  /** Only `user`'s entry may differ between `mems` and `mems'`. */
  ghost predicate OthersUnchanged(mems: Memories, mems': Memories, user: String) {
    && (forall u :: u != user ==> (u in mems' <==> u in mems))
    && (forall u :: u != user && u in mems ==> mems'[u] == mems[u])
  }

  /** The part of `chat_endpoint` after retrieval returned `docs`: look up (or
      create) the memory, build the prompt, call the model, record the
      exchange. */
  function Respond(mems: Memories, user: String, question: String, docs: seq<Doc>,
                   llm: String -> Option<String>): (out: ChatOutcome)
    // A failing LLM call answers 500 and adds no exchange: the user's memory
    // is the one it had, or a fresh empty one.
    ensures out.response.Err? ==>
      && out.response.error == LlmFailed
      && StatusCode(out.response.error) == 500
      && Detail(out.response.error) == "LLM processing failed"
      && out.memories == GetUserMemory(mems, user).0
      && out.memories[user].history == PriorMemory(mems, user).history
    // On success exactly one exchange is added to this user's memory, holding
    // the answer text unstripped; the response carries it stripped, and one
    // source per retrieved document, in order.
    ensures out.response.Ok? ==>
      && var prompt := ChatPrompt(HistoryText(PriorMemory(mems, user)), ContextText(docs), question);
      && llm(prompt).Some?
      && out.memories == mems[user := AddExchange(PriorMemory(mems, user), question, llm(prompt).value)]
      && out.response.value == AskResult(question, Strip(llm(prompt).value), DocSources(docs))
    // The request succeeds exactly when the model answers.
    ensures out.response.Ok? <==>
      llm(ChatPrompt(HistoryText(PriorMemory(mems, user)), ContextText(docs), question)).Some?
    ensures OthersUnchanged(mems, out.memories, user)
  {
    var memory := PriorMemory(mems, user);
    var prompt := ChatPrompt(HistoryText(memory), ContextText(docs), question);
    match llm(prompt)
    case None => ChatOutcome(GetUserMemory(mems, user).0, Err(LlmFailed))
    case Some(answerText) =>
      // `get_user_memory` stored the memory object that `add_exchange` then
      // updates in place, so the map ends up holding the updated memory.
      ChatOutcome(mems[user := AddExchange(memory, question, answerText)],
                  Ok(AskResult(question, Strip(answerText), DocSources(docs))))
  }

  /** One request to `chat_endpoint`. `question` is `body.get("question")`
      (`None` when absent); `search` is the vector store's similarity search;
      `llm` maps a prompt to the extracted answer text, or `None` when
      `llm.invoke` raises. */
  function ChatEndpoint(mems: Memories, user: String, question: Option<String>,
                        search: Search, llm: String -> Option<String>): (out: ChatOutcome)
    // A missing or empty question is rejected with 400 before anything else.
    ensures (question == None || question == Some("")) ==>
      out.response == Err(MissingQuestion) && out.memories == mems
    // A failing retrieval changes nothing; it happens before the memory lookup.
    ensures question.Some? && question.value != "" && search(question.value, RetrievalK).None? ==>
      out.response == Err(RetrievalFailed) && out.memories == mems
    // Otherwise the request goes on with the documents the search returns
    // for `k = 3` (up to three).
    ensures question.Some? && question.value != "" && search(question.value, RetrievalK).Some? ==>
      out == Respond(mems, user, question.value, search(question.value, RetrievalK).value, llm)
    // The response is a 400 exactly for a missing or empty question, and it
    // then says so; every other failure is a 500.
    ensures out.response.Err? && StatusCode(out.response.error) == 400 <==> question == None || question == Some("")
    ensures out.response.Err? && StatusCode(out.response.error) == 400 ==> Detail(out.response.error) == "Missing question"
    ensures out.response.Err? && StatusCode(out.response.error) != 400 ==> StatusCode(out.response.error) == 500
    ensures OthersUnchanged(mems, out.memories, user)
  {
    if question == None || question == Some("") then
      ChatOutcome(mems, Err(MissingQuestion))
    else
      match search(question.value, RetrievalK)
      case None => ChatOutcome(mems, Err(RetrievalFailed))
      case Some(docs) => Respond(mems, user, question.value, docs, llm)
  }

  /** A successful request records its question as the user's newest
      exchange (given the user's memory, if any, holds at least one turn). */
  lemma ChatRecordsQuestion(mems: Memories, user: String, question: Option<String>,
                            search: Search, llm: String -> Option<String>)
    requires user in mems ==> mems[user].maxTurns >= 1
    requires ChatEndpoint(mems, user, question, search, llm).response.Ok?
    ensures var h := ChatEndpoint(mems, user, question, search, llm).memories[user].history;
      |h| > 0 && h[|h| - 1].question == question.value
  {
    var out := ChatEndpoint(mems, user, question, search, llm);
    assert out == Respond(mems, user, question.value, search(question.value, RetrievalK).value, llm);
  }

  /** `Respond` for `b` neither reads nor writes `a`'s entry. */
  lemma RespondIgnoresOtherEntry(mems: Memories, a: String, x: ConversationMemory, b: String,
                                 question: String, docs: seq<Doc>, llm: String -> Option<String>)
    requires a != b
    ensures var out := Respond(mems, b, question, docs, llm);
      Respond(mems[a := x], b, question, docs, llm) == ChatOutcome(out.memories[a := x], out.response)
  {
    var mems2 := mems[a := x];
    var memory := PriorMemory(mems, b);
    assert PriorMemory(mems2, b) == memory;
    var prompt := ChatPrompt(HistoryText(memory), ContextText(docs), question);
    if llm(prompt).Some? {
      var m := AddExchange(memory, question, llm(prompt).value);
      assert mems2[b := m] == mems[b := m][a := x];
    } else {
      assert GetUserMemory(mems2, b).0 == GetUserMemory(mems, b).0[a := x];
    }
  }

  /** A request by `b` neither reads nor writes `a`'s entry: replacing that
      entry beforehand changes nothing but that entry afterwards. */
  lemma ChatIgnoresOtherEntry(mems: Memories, a: String, x: ConversationMemory, b: String,
                              question: Option<String>, search: Search,
                              llm: String -> Option<String>)
    requires a != b
    ensures var out := ChatEndpoint(mems, b, question, search, llm);
      ChatEndpoint(mems[a := x], b, question, search, llm) == ChatOutcome(out.memories[a := x], out.response)
  {
    if question.Some? && question.value != "" && search(question.value, RetrievalK).Some? {
      RespondIgnoresOtherEntry(mems, a, x, b, question.value, search(question.value, RetrievalK).value, llm);
    }
  }

  /** A request either leaves the map as it was or replaces exactly the
      requesting user's entry. */
  lemma ChatTouchesOnlyUser(mems: Memories, user: String, question: Option<String>,
                            search: Search, llm: String -> Option<String>)
    ensures var out := ChatEndpoint(mems, user, question, search, llm);
      out.memories == mems || (user in out.memories && out.memories == mems[user := out.memories[user]])
  {
    if question.Some? && question.value != "" && search(question.value, RetrievalK).Some? {
      var docs := search(question.value, RetrievalK).value;
      var out := Respond(mems, user, question.value, docs, llm);
      if out.response.Err? {
        assert out.memories == GetUserMemory(mems, user).0;
        if user in mems {
          assert mems == mems[user := mems[user]];
        }
      }
    }
  }

  /** Session independence: two requests by different users give the same
      responses and leave the same memories whichever runs first. */
  lemma {:induction false} ChatRequestsCommute(mems: Memories, a: String, qa: Option<String>,
                                               b: String, qb: Option<String>,
                                               search: Search, llm: String -> Option<String>)
    requires a != b
    ensures var outA := ChatEndpoint(mems, a, qa, search, llm);
      var outB := ChatEndpoint(mems, b, qb, search, llm);
      var outAB := ChatEndpoint(outA.memories, b, qb, search, llm);
      var outBA := ChatEndpoint(outB.memories, a, qa, search, llm);
      outAB.response == outB.response && outBA.response == outA.response &&
      outAB.memories == outBA.memories
  {
    var outA := ChatEndpoint(mems, a, qa, search, llm);
    var outB := ChatEndpoint(mems, b, qb, search, llm);
    ChatTouchesOnlyUser(mems, a, qa, search, llm);
    ChatTouchesOnlyUser(mems, b, qb, search, llm);
    if outA.memories != mems {
      ChatIgnoresOtherEntry(mems, a, outA.memories[a], b, qb, search, llm);
    }
    if outB.memories != mems {
      ChatIgnoresOtherEntry(mems, b, outB.memories[b], a, qa, search, llm);
    }
    if outA.memories != mems && outB.memories != mems {
      assert mems[b := outB.memories[b]][a := outA.memories[a]] == mems[a := outA.memories[a]][b := outB.memories[b]];
    }
  }

  /** With the 5-turn memory the endpoint creates, a user's memory never
      holds more than five exchanges, whatever the request's outcome. */
  lemma ChatKeepsMemoriesBounded(mems: Memories, user: String, question: Option<String>,
                                 search: Search, llm: String -> Option<String>)
    requires forall u :: u in mems ==> mems[u].maxTurns == UserMaxTurns && Bounded(mems[u])
    ensures var out := ChatEndpoint(mems, user, question, search, llm);
      forall u :: u in out.memories ==> out.memories[u].maxTurns == UserMaxTurns && Bounded(out.memories[u])
  {
  }
}
