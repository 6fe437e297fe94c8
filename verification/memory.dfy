/** `ConversationMemory` of the `App` backend (App/backend/app/memory.py): a
    first-in first-out list of `(question, answer)` pairs holding at most
    `maxTurns` of them, and its text rendering for a prompt. */
module Memory {
  import opened Text
  import opened RagTypes

  /** `max_turns` is an arbitrary Python int; only `maxTurns >= 0` keeps the
      bound meaningful, and the model does not exclude the other values. */
  datatype ConversationMemory = ConversationMemory(maxTurns: int, history: seq<Exchange>)

  /** The default of `ConversationMemory.__init__`'s `max_turns`. */
  const DefaultMaxTurns: int := 5

  /** The length bound the class maintains. */
  predicate Bounded(m: ConversationMemory) {
    |m.history| <= m.maxTurns
  }

  /** The last `n` elements of `s` (all of them if fewer): Python's `s[-n:]`
      for `n > 0`. For `n == 0` this is `[]`, whereas `s[-0:]` is all of `s`. */
  function LastN<T>(s: seq<T>, n: nat): (r: seq<T>)
    ensures |r| == if |s| < n then |s| else n
    ensures r == s[|s| - |r|..]
  {
    if |s| <= n then s else s[|s| - n..]
  }

  /** `ConversationMemory(max_turns=5)`: a memory with an empty history. */
  function New(maxTurns: int := DefaultMaxTurns): (m: ConversationMemory)
    ensures m.maxTurns == maxTurns && m.history == []
    ensures maxTurns >= 0 ==> Bounded(m)
    ensures HistoryText(m) == "None"
  {
    ConversationMemory(maxTurns, [])
  }

  /** `ConversationMemory()` keeps at most five exchanges and starts empty. */
  lemma NewDefaultsToFiveTurns()
    ensures New().maxTurns == 5 && New().history == []
    ensures Bounded(New())
  {
  }

  /** `add_exchange(question, answer)`: append the pair, then, if the list
      is longer than `max_turns`, drop its first (oldest) element once. The
      result is a suffix of the old history followed by the new pair; exactly
      one old pair is evicted when the list overflows, none otherwise. */
  function AddExchange(m: ConversationMemory, question: String, answer: String): (r: ConversationMemory)
    ensures r.maxTurns == m.maxTurns
  {
    var h := m.history + [Exchange(question, answer)];
    if |h| > m.maxTurns then m.(history := h[1..]) else m.(history := h)
  }

  /** What `add_exchange` keeps: a suffix of the old history followed by the
      new pair, one pair shorter than that when the list overflows; the new
      pair is always the newest one unless `maxTurns < 1` empties the list;
      and a bounded memory stays bounded. */
  lemma AddExchangeSpec(m: ConversationMemory, question: String, answer: String)
    ensures var r := AddExchange(m, question, answer);
      && |r.history| <= |m.history| + 1
      && r.history == (m.history + [Exchange(question, answer)])[|m.history| + 1 - |r.history|..]
      && (|m.history| + 1 > m.maxTurns ==> |r.history| == |m.history|)
      && (|m.history| + 1 <= m.maxTurns ==> |r.history| == |m.history| + 1)
      && (r.history != [] ==> r.history[|r.history| - 1] == Exchange(question, answer))
      && (r.history == [] <==> m.history == [] && m.maxTurns < 1)
      && (0 <= m.maxTurns && Bounded(m) ==> Bounded(r))
  {
  }

  /** Adding a sequence of pairs, one `add_exchange` call per pair, in order. */
  function AddAll(m: ConversationMemory, pairs: seq<Exchange>): ConversationMemory
    decreases |pairs|
  {
    if |pairs| == 0 then m
    else AddAll(AddExchange(m, pairs[0].question, pairs[0].answer), pairs[1..])
  }

  /** Starting from a bounded memory, any sequence of additions leaves exactly
      the most recent `maxTurns` pairs of (old history ++ additions), oldest
      first. */
  lemma {:induction false} AddAllKeepsMostRecent(m: ConversationMemory, pairs: seq<Exchange>)
    requires 0 <= m.maxTurns && Bounded(m)
    ensures AddAll(m, pairs).maxTurns == m.maxTurns
    ensures AddAll(m, pairs).history == LastN(m.history + pairs, m.maxTurns)
    decreases |pairs|
  {
    if |pairs| == 0 {
      assert m.history + pairs == m.history;
    } else {
      var e := pairs[0];
      var rest := pairs[1..];
      var m' := AddExchange(m, e.question, e.answer);
      assert AddAll(m, pairs) == AddAll(m', rest);
      AddExchangeKeepsMostRecent(m, e);
      AddAllKeepsMostRecent(m', rest);
      LastNAppend(m.history + [e], rest, m.maxTurns);
      assert AddAll(m, pairs).history == LastN(LastN(m.history + [e], m.maxTurns) + rest, m.maxTurns);
      assert (m.history + [e]) + rest == m.history + pairs;
    }
  }

  /** On a bounded memory, one addition keeps the most recent `maxTurns`
      pairs of the old history followed by the new pair. */
  lemma AddExchangeKeepsMostRecent(m: ConversationMemory, e: Exchange)
    requires 0 <= m.maxTurns && Bounded(m)
    ensures AddExchange(m, e.question, e.answer).history == LastN(m.history + [e], m.maxTurns)
  {
  }

  /** Taking the last `n` before appending more, and then the last `n` of the
      whole, is the same as taking the last `n` of the whole. */
  lemma LastNAppend<T>(a: seq<T>, b: seq<T>, n: nat)
    ensures LastN(LastN(a, n) + b, n) == LastN(a + b, n)
  {
    var x := LastN(a, n) + b;
    var y := a + b;
    assert x == y[|y| - |x|..];
  }

  /** From a fresh memory with `maxTurns >= 0`, after adding `pairs` the
      history holds the last `min(|pairs|, maxTurns)` of them in order. */
  lemma FreshMemoryKeepsMostRecent(maxTurns: int, pairs: seq<Exchange>)
    requires maxTurns >= 0
    ensures AddAll(New(maxTurns), pairs).history == LastN(pairs, maxTurns)
    ensures |AddAll(New(maxTurns), pairs).history| == if |pairs| < maxTurns then |pairs| else maxTurns
  {
    AddAllKeepsMostRecent(New(maxTurns), pairs);
    assert [] + pairs == pairs;
  }

  /** One exchange as rendered by `get_history_text`: `User: q\nBot: a`. */
  function RenderExchange(e: Exchange): String {
    "User: " + e.question + "\nBot: " + e.answer
  }

  function RenderAll(h: seq<Exchange>): (r: seq<String>)
    ensures |r| == |h|
    ensures forall i :: 0 <= i < |h| ==> r[i] == RenderExchange(h[i])
  {
    seq(|h|, i requires 0 <= i < |h| => RenderExchange(h[i]))
  }

  /** `get_history_text()`: the literal `None` for an empty history, otherwise
      the rendered exchanges joined by newlines, oldest first. */
  function HistoryText(m: ConversationMemory): (r: String)
    ensures r == "None" <==> m.history == []
  {
    if m.history == [] then "None"
    else
      var r := Join("\n", RenderAll(m.history));
      assert |RenderAll(m.history)[0]| >= 11;
      JoinPartAt("\n", RenderAll(m.history), 0);
      r
  }

  /** The rendering is oldest-first and incremental: a further exchange shows
      up as one more line pair at the end, after a newline. */
  lemma HistoryTextSnoc(maxTurns: int, h: seq<Exchange>, e: Exchange)
    ensures h == [] ==> HistoryText(ConversationMemory(maxTurns, h + [e])) == RenderExchange(e)
    ensures h != [] ==> (HistoryText(ConversationMemory(maxTurns, h + [e])) ==
                         HistoryText(ConversationMemory(maxTurns, h)) + "\n" + RenderExchange(e))
  {
    assert RenderAll(h + [e]) == RenderAll(h) + [RenderExchange(e)];
    if h != [] {
      JoinSnoc("\n", RenderAll(h), RenderExchange(e));
    }
  }

  /** Exchange `i` of a non-empty history is rendered, verbatim, at its own
      offset of the history text. */
  lemma HistoryTextShowsExchange(m: ConversationMemory, i: nat)
    requires i < |m.history|
    ensures var off := JoinOffset("\n", RenderAll(m.history), i);
      off + |RenderExchange(m.history[i])| <= |HistoryText(m)| &&
      HistoryText(m)[off..off + |RenderExchange(m.history[i])|] == RenderExchange(m.history[i])
  {
    JoinPartAt("\n", RenderAll(m.history), i);
  }
}
