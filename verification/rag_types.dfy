/** Records shared by the three backends: a retrieved document, a retrieval
    hit, one conversational exchange, the answer returned to a caller, and
    the shape of the (external) similarity search. */
module RagTypes {
  import opened Wrappers
  import opened Text

  /** A LangChain document as returned by the vector store: its page content
      and its metadata dictionary. */
  datatype Doc = Doc(pageContent: String, metadata: map<String, String>)

  /** `metadata.get(key, default)`. */
  function MetaGet(d: Doc, key: String, default: String): (r: String)
    ensures key in d.metadata ==> r == d.metadata[key]
    ensures key !in d.metadata ==> r == default
  {
    if key in d.metadata then d.metadata[key] else default
  }

  /** One retrieval hit, `{"text": ..., "source": ...}`. */
  datatype Hit = Hit(text: String, source: String)

  /** One `(question, answer)` pair of a conversation. */
  datatype Exchange = Exchange(question: String, answer: String)

  /** `{"question": ..., "answer": ..., "sources": [{"source": ...}, ...]}`;
      each element of `sources` is the value of one `{"source": ...}`. */
  datatype AskResult = AskResult(question: String, answer: String, sources: seq<String>)

  /** `similarity_search(query, k=k)` of the vector store: the documents in
      ranking order, or `None` when the call raises. Ranking itself is
      external. */
  type Search = (String, int) -> Option<seq<Doc>>

  /** The texts of the hits, in hit order (`[h["text"] for h in hits]`). */
  function HitTexts(hits: seq<Hit>): (r: seq<String>)
    ensures |r| == |hits|
    ensures forall i :: 0 <= i < |hits| ==> r[i] == hits[i].text
  {
    seq(|hits|, i requires 0 <= i < |hits| => hits[i].text)
  }

  /** The sources of the hits, in hit order (`[{"source": h["source"]} for h in hits]`). */
  function HitSources(hits: seq<Hit>): (r: seq<String>)
    ensures |r| == |hits|
    ensures forall i :: 0 <= i < |hits| ==> r[i] == hits[i].source
  {
    seq(|hits|, i requires 0 <= i < |hits| => hits[i].source)
  }

  /** What an LLM client's streaming call produced: the pieces it yielded,
      in order, and whether it then raised instead of finishing. */
  datatype StreamOutcome = StreamOutcome(pieces: seq<String>, failed: bool)

  /** `"\n\n".join(chunks) if chunks else ""`, the context of both
      pipelines' prompts. */
  function ContextBlock(chunks: seq<String>): String {
    if |chunks| > 0 then Join("\n\n", chunks) else ""
  }

  /** The context is empty without chunks, and otherwise shows every chunk,
      verbatim and in order, each at its own offset, and ends with the last
      one. */
  lemma ContextBlockShowsChunks(chunks: seq<String>)
    ensures chunks == [] ==> ContextBlock(chunks) == ""
    ensures chunks != [] ==>
      |ContextBlock(chunks)| == JoinOffset("\n\n", chunks, |chunks| - 1) + |chunks[|chunks| - 1]|
    ensures forall i :: 0 <= i < |chunks| ==>
      var off := JoinOffset("\n\n", chunks, i);
      off + |chunks[i]| <= |ContextBlock(chunks)| && ContextBlock(chunks)[off..off + |chunks[i]|] == chunks[i]
  {
    forall i | 0 <= i < |chunks|
      ensures var off := JoinOffset("\n\n", chunks, i);
        off + |chunks[i]| <= |ContextBlock(chunks)| && ContextBlock(chunks)[off..off + |chunks[i]|] == chunks[i]
    {
      JoinPartAt("\n\n", chunks, i);
    }
    if chunks != [] {
      JoinEnds("\n\n", chunks);
    }
  }

  /** Neighbouring chunks are separated by exactly one blank line: the
      text between the end of chunk `i` and the start of chunk `i + 1`. */
  lemma ContextBlockSeparatesChunks(chunks: seq<String>)
    ensures forall i :: 0 <= i < |chunks| - 1 ==> SeparatorAfter(chunks, i) == "\n\n"
  {
    forall i | 0 <= i < |chunks| - 1
      ensures SeparatorAfter(chunks, i) == "\n\n"
    {
      JoinSeparatorAt("\n\n", chunks, i);
    }
  }

  /** The text of the context between chunk `i` and chunk `i + 1`. */
  function SeparatorAfter(chunks: seq<String>, i: nat): String
    requires i + 1 < |chunks|
  {
    var lo := JoinOffset("\n\n", chunks, i) + |chunks[i]|;
    var hi := JoinOffset("\n\n", chunks, i + 1);
    if lo <= hi <= |ContextBlock(chunks)| then ContextBlock(chunks)[lo..hi] else ""
  }
}
