/** The handful of Python string operations the backends rely on, modelled on
    `seq<char>`: `str.isspace`, `str.strip`, `sep.join(parts)`, `"".join`,
    `os.path.basename` (POSIX) and `str.startswith` / `str.endswith`. */
module Text {

  type String = seq<char>

  /** Python's `str.isspace()` for one character: the ASCII whitespace
      characters, the ASCII information separators, and the Unicode space
      and line/paragraph separator characters. */
  predicate IsSpace(c: char) {
    || c == ' ' || c == '\t' || c == '\n' || c == '\r'
    || c == '\U{0B}' || c == '\U{0C}'
    || ('\U{1C}' <= c <= '\U{1F}')
    || c == '\U{85}' || c == '\U{A0}' || c == '\U{1680}'
    || ('\U{2000}' <= c <= '\U{200A}')
    || c == '\U{2028}' || c == '\U{2029}' || c == '\U{202F}'
    || c == '\U{205F}' || c == '\U{3000}'
  }

  predicate AllSpace(s: String) {
    forall i :: 0 <= i < |s| ==> IsSpace(s[i])
  }

  predicate StartsWith(s: String, prefix: String) {
    |prefix| <= |s| && s[..|prefix|] == prefix
  }

  predicate EndsWith(s: String, suffix: String) {
    |suffix| <= |s| && s[|s| - |suffix|..] == suffix
  }

  /** Offset of the first non-whitespace character at or after `i` (or `|s|`). */
  function SpaceRunEnd(s: String, i: nat): (k: nat)
    requires i <= |s|
    ensures i <= k <= |s|
    decreases |s| - i
  {
    if i < |s| && IsSpace(s[i]) then SpaceRunEnd(s, i + 1) else i
  }

  /** Offset just past the last non-whitespace character before `j` (or 0). */
  function SpaceRunStart(s: String, j: nat): (k: nat)
    requires j <= |s|
    ensures k <= j
  {
    if j > 0 && IsSpace(s[j - 1]) then SpaceRunStart(s, j - 1) else j
  }

  /** The scan forward from `i` stops at the first non-whitespace character. */
  lemma {:induction false} SpaceRunEndSpec(s: String, i: nat)
    requires i <= |s|
    ensures forall j :: i <= j < SpaceRunEnd(s, i) ==> IsSpace(s[j])
    ensures SpaceRunEnd(s, i) == |s| || !IsSpace(s[SpaceRunEnd(s, i)])
    decreases |s| - i
  {
    if i < |s| && IsSpace(s[i]) {
      SpaceRunEndSpec(s, i + 1);
    }
  }

  /** The scan backward from `j` stops just after the last non-whitespace
      character. */
  lemma {:induction false} SpaceRunStartSpec(s: String, j: nat)
    requires j <= |s|
    ensures forall i :: SpaceRunStart(s, j) <= i < j ==> IsSpace(s[i])
    ensures SpaceRunStart(s, j) == 0 || !IsSpace(s[SpaceRunStart(s, j) - 1])
  {
    if j > 0 && IsSpace(s[j - 1]) {
      SpaceRunStartSpec(s, j - 1);
    }
  }

  /** `s.lstrip()`: drops the longest all-whitespace prefix. */
  function TrimLeft(s: String): (r: String)
    ensures |r| <= |s|
  {
    s[SpaceRunEnd(s, 0)..]
  }

  /** `s.rstrip()`: drops the longest all-whitespace suffix. */
  function TrimRight(s: String): (r: String)
    ensures |r| <= |s|
  {
    s[..SpaceRunStart(s, |s|)]
  }

  /** `lstrip` keeps a suffix; what it drops is whitespace, and what it keeps
      does not start with whitespace. */
  lemma TrimLeftSpec(s: String)
    ensures TrimLeft(s) == s[|s| - |TrimLeft(s)|..]
    ensures AllSpace(s[..|s| - |TrimLeft(s)|])
    ensures TrimLeft(s) == [] || !IsSpace(TrimLeft(s)[0])
  {
    SpaceRunEndSpec(s, 0);
  }

  /** `rstrip` keeps a prefix; what it drops is whitespace, and what it keeps
      does not end with whitespace. */
  lemma TrimRightSpec(s: String)
    ensures TrimRight(s) == s[..|TrimRight(s)|]
    ensures AllSpace(s[|TrimRight(s)|..])
    ensures TrimRight(s) == [] || !IsSpace(TrimRight(s)[|TrimRight(s)| - 1])
  {
    SpaceRunStartSpec(s, |s|);
  }

  /** Offset in `s` of the first character kept by `Strip(s)`. */
  function StripStart(s: String): (k: nat)
    ensures k <= |s|
  {
    SpaceRunEnd(s, 0)
  }

  /** Python's `s.strip()`: `lstrip` followed by `rstrip`. */
  function Strip(s: String): (r: String)
    ensures |r| <= |s|
  {
    TrimRight(TrimLeft(s))
  }

  /** `strip` keeps the infix of `s` that starts at `StripStart(s)`;
      everything cut off on either side is whitespace, the result neither
      starts nor ends with whitespace, and it is empty exactly when `s` is
      all whitespace. */
  lemma StripSpec(s: String)
    ensures StripStart(s) + |Strip(s)| <= |s|
    ensures Strip(s) == s[StripStart(s)..StripStart(s) + |Strip(s)|]
    ensures AllSpace(s[..StripStart(s)]) && AllSpace(s[StripStart(s) + |Strip(s)|..])
    ensures Strip(s) == [] || (!IsSpace(Strip(s)[0]) && !IsSpace(Strip(s)[|Strip(s)| - 1]))
    ensures Strip(s) == [] <==> AllSpace(s)
  {
    var l := TrimLeft(s);
    var r := TrimRight(l);
    var k := StripStart(s);
    TrimLeftSpec(s);
    TrimRightSpec(l);
    assert s[k..] == l;
    assert s[k..k + |r|] == r;
    assert s[k + |r|..] == l[|r|..];
    assert s == s[..k] + l;
  }

  /** A string with no leading or trailing whitespace is its own strip. */
  lemma StripTrimmed(s: String)
    requires s == [] || (!IsSpace(s[0]) && !IsSpace(s[|s| - 1]))
    ensures Strip(s) == s
  {
  }

  /** `strip` is idempotent. */
  lemma StripIdempotent(s: String)
    ensures Strip(Strip(s)) == Strip(s)
  {
    StripSpec(s);
    StripTrimmed(Strip(s));
  }

  /** Python's `sep.join(parts)`. */
  function Join(sep: String, parts: seq<String>): String {
    if |parts| == 0 then []
    else if |parts| == 1 then parts[0]
    else parts[0] + sep + Join(sep, parts[1..])
  }

  /** Sum of the lengths of `parts`. */
  function TotalLength(parts: seq<String>): nat {
    if |parts| == 0 then 0 else |parts[0]| + TotalLength(parts[1..])
  }

  /** Python's `"".join(parts)`: concatenation in order. */
  function Concat(parts: seq<String>): (r: String)
    ensures |r| == TotalLength(parts)
  {
    if |parts| == 0 then [] else parts[0] + Concat(parts[1..])
  }

  lemma {:induction false} ConcatAppend(a: seq<String>, b: seq<String>)
    ensures Concat(a + b) == Concat(a) + Concat(b)
    decreases |a|
  {
    if |a| == 0 {
      assert a + b == b;
    } else {
      assert (a + b)[1..] == a[1..] + b;
      ConcatAppend(a[1..], b);
    }
  }

  /** Where part `i` starts inside `Join(sep, parts)`: past every earlier
      part and the separator that follows each of them. */
  function JoinOffset(sep: String, parts: seq<String>, i: nat): nat
    requires i <= |parts|
  {
    if i == 0 then 0 else |parts[0]| + |sep| + JoinOffset(sep, parts[1..], i - 1)
  }

  /** Joining is order-preserving and lossless: part `i` sits at
      `JoinOffset(sep, parts, i)`. */
  lemma {:induction false} JoinPartAt(sep: String, parts: seq<String>, i: nat)
    requires i < |parts|
    ensures JoinOffset(sep, parts, i) + |parts[i]| <= |Join(sep, parts)|
    ensures Join(sep, parts)[JoinOffset(sep, parts, i)..JoinOffset(sep, parts, i) + |parts[i]|] == parts[i]
    decreases i
  {
    if i > 0 {
      var tail := parts[1..];
      JoinPartAt(sep, tail, i - 1);
      var d := |parts[0]| + |sep|;
      var off := JoinOffset(sep, tail, i - 1);
      assert Join(sep, parts) == parts[0] + sep + Join(sep, tail);
      assert Join(sep, parts)[d + off..d + off + |parts[i]|] == Join(sep, tail)[off..off + |parts[i]|];
    }
  }

  /** The separator, and nothing else, sits between part `i` and part `i + 1`. */
  lemma {:induction false} JoinSeparatorAt(sep: String, parts: seq<String>, i: nat)
    requires i + 1 < |parts|
    ensures JoinOffset(sep, parts, i + 1) == JoinOffset(sep, parts, i) + |parts[i]| + |sep|
    ensures JoinOffset(sep, parts, i + 1) <= |Join(sep, parts)|
    ensures Join(sep, parts)[JoinOffset(sep, parts, i) + |parts[i]|..JoinOffset(sep, parts, i + 1)] == sep
    decreases i
  {
    var tail := parts[1..];
    assert Join(sep, parts) == parts[0] + sep + Join(sep, tail);
    if i > 0 {
      JoinSeparatorAt(sep, tail, i - 1);
      var d := |parts[0]| + |sep|;
      var lo := JoinOffset(sep, tail, i - 1) + |parts[i]|;
      var hi := JoinOffset(sep, tail, i);
      assert Join(sep, parts)[d + lo..d + hi] == Join(sep, tail)[lo..hi];
    }
  }

  /** Nothing follows the last part: the join ends where it does. */
  lemma {:induction false} JoinEnds(sep: String, parts: seq<String>)
    requires |parts| > 0
    ensures |Join(sep, parts)| == JoinOffset(sep, parts, |parts| - 1) + |parts[|parts| - 1]|
    decreases |parts|
  {
    if |parts| > 1 {
      JoinEnds(sep, parts[1..]);
    }
  }

  /** Joining one more part appends a separator and that part. */
  lemma {:induction false} JoinSnoc(sep: String, parts: seq<String>, p: String)
    requires |parts| > 0
    ensures Join(sep, parts + [p]) == Join(sep, parts) + sep + p
    decreases |parts|
  {
    if |parts| == 1 {
      assert (parts + [p])[1..] == [p];
    } else {
      assert (parts + [p])[1..] == parts[1..] + [p];
      JoinSnoc(sep, parts[1..], p);
    }
  }

  /** Layout of a string assembled as `head + ((pre + body) + post) + tail`,
      the shape of every prompt template: where `body` sits, what it starts
      with and what it ends with. Stated once, over arbitrary strings, so that
      template literals never need to be looked into. */
  lemma TemplateLayout(head: String, pre: String, body: String, post: String, tail: String)
    ensures var s := (head + ((pre + body) + post)) + tail;
      && StartsWith(s, head)
      && |head| + |pre| + |body| <= |s|
      && s[|head| + |pre|..|head| + |pre| + |body|] == body
      && EndsWith(s, post + tail)
  {
    var s := (head + ((pre + body) + post)) + tail;
    assert s == head + pre + body + (post + tail);
  }

  /** The middle part of `a + b + c` sits right after `a`. */
  lemma InfixAt(a: String, b: String, c: String)
    ensures |a| + |b| <= |a + b + c| && (a + b + c)[|a|..|a| + |b|] == b
  {
  }

  /** Inside the prefix `head` of `s`, `s` and `head` agree. */
  lemma PrefixInfix(s: String, head: String, lo: nat, hi: nat)
    requires StartsWith(s, head)
    requires lo <= hi <= |head|
    ensures hi <= |s| && s[lo..hi] == head[lo..hi]
  {
    forall k | lo <= k < hi
      ensures s[k] == head[k]
    {
      assert s[..|head|][k] == s[k];
    }
    assert s[lo..hi] == head[lo..hi];
  }

  /** A string that ends with `a + b` ends with `b`. */
  lemma EndsWithTail(s: String, a: String, b: String)
    requires EndsWith(s, a + b)
    ensures EndsWith(s, b)
  {
    assert s[|s| - |b|..] == (a + b)[|a|..];
  }

  /** POSIX `os.path.basename`: everything after the last `/`. */
  function Basename(path: String): (r: String)
    ensures '/' !in r
    ensures |r| <= |path| && r == path[|path| - |r|..]
    ensures |r| < |path| ==> path[|path| - |r| - 1] == '/'
  {
    if |path| == 0 || path[|path| - 1] == '/' then []
    else Basename(path[..|path| - 1]) + [path[|path| - 1]]
  }
}
