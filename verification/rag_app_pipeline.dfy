/** `RAGPipeline` of the `RAG_Application` backend
    (RAG_Application/backend/rag_pipeline.py): an optional vector store, a
    cache of one conversational chain per user built on that store, and
    `ask`, which turns a chain's response into an answer and a list of
    source URLs. The chain itself, the vector store and the file system are
    opaque: a chain is known by the user and the store it was built for, a
    store by an identifier, and file existence is a parameter. */
module RagAppPipeline {
  import opened Wrappers
  import opened Text
  import opened RagTypes

  /** A vector store, known only by an identifier. */
  type StoreId = nat

  /** A `ConversationalRetrievalChain` as built by `_get_user_chain` for
      `user` on the store `store`. */
  datatype Chain = Chain(user: String, store: StoreId)

  /** `self.vectorstore` (`None` when it is missing) and `self.user_chains`. */
  datatype RagState = RagState(store: Option<StoreId>, chains: map<String, Chain>)

  /** Every cached chain sits under the user it was built for and was built
      on the current store. */
  ghost predicate Valid(s: RagState) {
    forall u :: u in s.chains ==> s.chains[u].user == u && s.store == Some(s.chains[u].store)
  }

  /** `RAGPipeline()`: the store is the one the constructor connected to, or
      none when connecting raised; the cache is empty. */
  function Init(connected: Option<StoreId>): (s: RagState)
    ensures s.store == connected && s.chains == map[]
    ensures Valid(s)
  {
    RagState(connected, map[])
  }

  /** Why an operation raised. */
  datatype RagError =
    | BuildFailed     // loading, splitting or indexing in `build_vectorstore` raised
    | NoVectorStore   // the `ValueError` of `_get_user_chain`
    | ChainFailed     // calling the chain raised

  /** The answer `ask` gives when there is no vector store. */
  const NoStoreAnswer: String := "\U{274C} No vector store. Build the Milvus vector store first."

  /** `build_vectorstore(files)`: `built` is the store `Milvus.from_documents`
      produced, or `None` when an earlier step raised (the exception
      propagates and nothing changes). A new store empties the chain cache. */
  function BuildVectorstore(s: RagState, built: Option<StoreId>): (r: Result<RagState, RagError>)
    ensures built.None? ==> r == Err(BuildFailed)
    ensures built.Some? ==> r == Ok(RagState(built, map[]))
  {
    match built
    case None => Err(BuildFailed)
    case Some(id) => Ok(RagState(Some(id), map[]))
  }

  /** A successful build leaves no chain of any user behind, so every chain
      built later uses the new store. */
  lemma BuildClearsAllChains(s: RagState, built: Option<StoreId>, u: String)
    requires BuildVectorstore(s, built).Ok?
    ensures u !in BuildVectorstore(s, built).value.chains
    ensures BuildVectorstore(s, built).value.store == built
    ensures Valid(BuildVectorstore(s, built).value)
  {
  }

  /** `_get_user_chain(user_id)`: the cached chain when there is one (the
      store is not looked at); otherwise `ValueError` when there is no store,
      leaving the cache as it was; otherwise a new chain on the current store,
      cached under `user_id`. */
  function GetUserChain(s: RagState, user: String): (r: Result<(RagState, Chain), RagError>)
    ensures user in s.chains ==> r == Ok((s, s.chains[user]))
    ensures user !in s.chains && s.store.None? ==> r == Err(NoVectorStore)
    ensures user !in s.chains && s.store.Some? ==>
      && r.Ok?
      && r.value.1 == Chain(user, s.store.value)
      && r.value.0 == s.(chains := s.chains[user := r.value.1])
  {
    if user in s.chains then Ok((s, s.chains[user]))
    else if s.store.None? then Err(NoVectorStore)
    else
      var chain := Chain(user, s.store.value);
      Ok((s.(chains := s.chains[user := chain]), chain))
  }

  /** On a valid state the chain handed out belongs to the user and to the
      current store, the store is untouched, only the user's cache entry can
      change, and the state stays valid. */
  lemma GetUserChainKeepsValid(s: RagState, user: String)
    requires Valid(s)
    requires GetUserChain(s, user).Ok?
    ensures var (s', chain) := GetUserChain(s, user).value;
      && chain.user == user && s.store == Some(chain.store)
      && s'.store == s.store
      && user in s'.chains && s'.chains[user] == chain
      && (forall u :: u != user ==> (u in s'.chains <==> u in s.chains))
      && (forall u :: u != user && u in s.chains ==> s'.chains[u] == s.chains[u])
      && Valid(s')
  {
  }

  /** Asking for a user's chain twice gives the same chain and changes
      nothing the second time. */
  lemma GetUserChainIsStable(s: RagState, user: String)
    requires GetUserChain(s, user).Ok?
    ensures var (s', chain) := GetUserChain(s, user).value;
      GetUserChain(s', user) == Ok((s', chain))
  {
  }

  /** What calling a chain returned: the `answer` and `source_documents`
      entries of the response dictionary, each `None` when absent. */
  datatype ChainResponse = ChainResponse(answer: Option<String>, sourceDocuments: Option<seq<Doc>>)

  /** Calling `chain({"question": q})`; `None` when the call raises. */
  type ChainRun = (Chain, String) -> Option<ChainResponse>

  /** The URL `ask` reports for a document source: the base name when the
      path exists (the source itself otherwise) is published under `/files/`
      if it ends with `.pdf`; any other source is reported as it is. */
  function SourceUrl(pathExists: String -> bool, src: String): (r: String)
    ensures r == src || (StartsWith(r, "/files/") && EndsWith(r, ".pdf"))
    ensures pathExists(src) && r != src ==> '/' !in r[|"/files/"|..]
  {
    var filename := if pathExists(src) then Basename(src) else src;
    if EndsWith(filename, ".pdf") then
      assert ("/files/" + filename)[|"/files/"|..] == filename;
      assert ("/files/" + filename)[|"/files/" + filename| - 4..] == filename[|filename| - 4..];
      "/files/" + filename
    else src
  }

  /** The cases of the rewrite, one by one: an existing PDF is published
      under its base name, a missing path ending in `.pdf` under its whole
      text, and anything else is left alone. */
  lemma SourceUrlCases(pathExists: String -> bool, src: String)
    ensures pathExists(src) && EndsWith(Basename(src), ".pdf") ==> SourceUrl(pathExists, src) == "/files/" + Basename(src)
    ensures !pathExists(src) && EndsWith(src, ".pdf") ==> SourceUrl(pathExists, src) == "/files/" + src
    ensures pathExists(src) && !EndsWith(Basename(src), ".pdf") ==> SourceUrl(pathExists, src) == src
    ensures !pathExists(src) && !EndsWith(src, ".pdf") ==> SourceUrl(pathExists, src) == src
  {
  }

  /** One `{"source": ...}` per document, in order, from the document's
      `source` metadata (`"N/A"` when it has none). */
  function SourceUrls(pathExists: String -> bool, docs: seq<Doc>): (r: seq<String>)
    ensures |r| == |docs|
    ensures forall i :: 0 <= i < |docs| ==> r[i] == SourceUrl(pathExists, MetaGet(docs[i], "source", "N/A"))
  {
    seq(|docs|, i requires 0 <= i < |docs| => SourceUrl(pathExists, MetaGet(docs[i], "source", "N/A")))
  }

  /** `ask(user_id, question)`. Without a store: the fixed answer, no
      sources, and no chain is created. Otherwise the user's chain (cached,
      or created and cached) is called; if that raises, the new chain stays
      cached; if not, the answer (`""` when absent) and one source URL per
      source document (none when absent) are returned. */
  function Ask(s: RagState, user: String, question: String, run: ChainRun, pathExists: String -> bool)
    : (r: (RagState, Result<AskResult, RagError>))
    ensures s.store.None? ==> r == (s, Ok(AskResult(question, NoStoreAnswer, [])))
    ensures s.store.Some? ==> GetUserChain(s, user).Ok? && r.0 == GetUserChain(s, user).value.0
    ensures s.store.Some? ==>
      var chain := GetUserChain(s, user).value.1;
      && (r.1.Err? <==> run(chain, question).None?)
      && (r.1.Err? ==> r.1.error == ChainFailed)
  {
    if s.store.None? then (s, Ok(AskResult(question, NoStoreAnswer, [])))
    else
      var (s', chain) := GetUserChain(s, user).value;
      match run(chain, question)
      case None => (s', Err(ChainFailed))
      case Some(response) =>
        var answer := if response.answer.Some? then response.answer.value else "";
        var docs := if response.sourceDocuments.Some? then response.sourceDocuments.value else [];
        (s', Ok(AskResult(question, answer, SourceUrls(pathExists, docs))))
  }

  /** A successful `ask` with a store answers with the chain's answer (or
      `""`) and reports one source URL per source document, in order. */
  lemma AskReportsChainResponse(s: RagState, user: String, question: String, run: ChainRun, pathExists: String -> bool)
    requires s.store.Some?
    requires Ask(s, user, question, run, pathExists).1.Ok?
    ensures var chain := GetUserChain(s, user).value.1;
      var response := run(chain, question).value;
      var result := Ask(s, user, question, run, pathExists).1.value;
      var docs := if response.sourceDocuments.Some? then response.sourceDocuments.value else [];
      && result.question == question
      && result.answer == (if response.answer.Some? then response.answer.value else "")
      && |result.sources| == |docs|
      && forall i :: 0 <= i < |docs| ==> result.sources[i] == SourceUrl(pathExists, MetaGet(docs[i], "source", "N/A"))
  {
  }

  /** `ask` keeps the state valid, and with a store it leaves the user's
      chain cached whatever the chain call did. */
  lemma AskKeepsValid(s: RagState, user: String, question: String, run: ChainRun, pathExists: String -> bool)
    requires Valid(s)
    ensures Valid(Ask(s, user, question, run, pathExists).0)
    ensures Ask(s, user, question, run, pathExists).0.store == s.store
    ensures s.store.Some? ==> user in Ask(s, user, question, run, pathExists).0.chains
  {
    if s.store.Some? {
      GetUserChainKeepsValid(s, user);
    }
  }
}
