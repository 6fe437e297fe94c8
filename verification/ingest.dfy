/** `chunk_text` of the `Application2` ingestion script
    (Application2/backend/ingest.py): cut a text into fixed-size windows,
    strip each one, and keep every stripped window (blank ones as `""`).

    The windows are described once, by the recursive `Windows` (raw slices)
    and `Chunks` (their stripped forms), both parameterised by the distance
    `stride` from one window start to the next. `ChunkText` is the loop as
    written; `ChunkTextOverlapping` is the loop with the step the `overlap`
    parameter evidently asks for. */
module Ingest {
  import opened Text

  /** `CHUNK_SIZE` and `OVERLAP`, the defaults of `chunk_text`. */
  const ChunkSize: int := 600
  const Overlap: int := 100

  /** `text[start:start + size]` for `0 <= start < len(text)` and `size > 0`:
      Python clamps the end of the slice to the length of the text. */
  function Window(text: String, start: nat, size: int): (w: String)
    requires start < |text| && size > 0
    ensures |w| <= size
  {
    text[start..if start + size < |text| then start + size else |text|]
  }

  /** A window is the non-empty slice of the text at `start`, as long as
      `size` unless it runs into the end of the text. */
  lemma WindowSpec(text: String, start: nat, size: int)
    requires start < |text| && size > 0
    ensures var w := Window(text, start, size);
      && 0 < |w| && start + |w| <= |text|
      && w == text[start..start + |w|]
      && (start + size <= |text| <==> |w| == size)
  {
  }

  /** The raw slices the loop takes: one window of `size` characters at
      `start`, at `start + stride`, at `start + 2 * stride`, and so on while
      the window start lies inside the text. */
  function Windows(text: String, size: int, stride: int, start: nat): seq<String>
    requires size > 0 && stride > 0
    decreases |text| - start
  {
    if start >= |text| then []
    else [Window(text, start, size)] + Windows(text, size, stride, start + stride)
  }

  /** The list the loop builds: each of those windows, stripped. */
  function Chunks(text: String, size: int, stride: int, start: nat): seq<String>
    requires size > 0 && stride > 0
    decreases |text| - start
  {
    if start >= |text| then []
    else [Strip(Window(text, start, size))] + Chunks(text, size, stride, start + stride)
  }

  /** How far `start` moves per iteration in `chunk_text` as written:
      `max(end - overlap, end) - start`, where `end = start + chunk_size`. */
  function Stride(chunkSize: int, overlap: int): (s: int)
    ensures s >= chunkSize
  {
    if chunkSize - overlap > chunkSize then chunkSize - overlap else chunkSize
  }

  /** `chunk_text(text, chunk_size, overlap)` as written. The loop only
      terminates for `chunk_size > 0` (with `overlap >= 0` a zero or negative
      size never moves `start` forward), so that is required. */
  method ChunkText(text: String, chunkSize: int := ChunkSize, overlap: int := Overlap) returns (chunks: seq<String>)
    requires chunkSize > 0
    ensures chunks == Chunks(text, chunkSize, Stride(chunkSize, overlap), 0)
    ensures chunks == [] <==> text == []
  {
    if |text| == 0 {
      return [];
    }
    chunks := [];
    var start: int := 0;
    var length := |text|;
    ghost var stride := Stride(chunkSize, overlap);
    while start < length
      invariant 0 <= start
      invariant chunks + Chunks(text, chunkSize, stride, start) == Chunks(text, chunkSize, stride, 0)
      decreases length - start
    {
      var end := start + chunkSize;
      var chunk := text[start..if end < length then end else length];
      var next := if end - overlap > end then end - overlap else end;
      ChunksStep(text, chunkSize, stride, start, next, chunks, chunk);
      chunks := chunks + [Strip(chunk)];
      start := next;
    }
  }

  /** The step `start = end - overlap` that `overlap` evidently asks for,
      kept from stalling by never moving less than one character:
      `max(end - overlap, start + 1) - start`. */
  function OverlapStride(chunkSize: int, overlap: int): (s: int)
    ensures s >= 1
    ensures 0 <= overlap < chunkSize ==> s == chunkSize - overlap
  {
    if chunkSize - overlap > 1 then chunkSize - overlap else 1
  }

  /** `chunk_text` with line 49 corrected to
      `start = max(end - overlap, start + 1)`. */
  method ChunkTextOverlapping(text: String, chunkSize: int, overlap: int) returns (chunks: seq<String>)
    requires chunkSize > 0
    ensures chunks == Chunks(text, chunkSize, OverlapStride(chunkSize, overlap), 0)
    ensures chunks == [] <==> text == []
  {
    if |text| == 0 {
      return [];
    }
    chunks := [];
    var start: int := 0;
    var length := |text|;
    ghost var stride := OverlapStride(chunkSize, overlap);
    while start < length
      invariant 0 <= start
      invariant chunks + Chunks(text, chunkSize, stride, start) == Chunks(text, chunkSize, stride, 0)
      decreases length - start
    {
      var end := start + chunkSize;
      var chunk := text[start..if end < length then end else length];
      var next := if end - overlap > start + 1 then end - overlap else start + 1;
      ChunksStep(text, chunkSize, stride, start, next, chunks, chunk);
      chunks := chunks + [Strip(chunk)];
      start := next;
    }
  }

  /** One iteration of either loop: appending the stripped window at `start`
      to the chunks so far leaves the chunks from the next window start to
      come. */
  lemma ChunksStep(text: String, size: int, stride: int, start: nat, next: nat, done: seq<String>, chunk: String)
    requires size > 0 && stride > 0 && start < |text| && next == start + stride
    requires chunk == Window(text, start, size)
    ensures done + Chunks(text, size, stride, start) == (done + [Strip(chunk)]) + Chunks(text, size, stride, next)
  {
    var rest := Chunks(text, size, stride, next);
    assert Chunks(text, size, stride, start) == [Strip(chunk)] + rest;
    AppendRegroup(done, Strip(chunk), rest);
  }

  /** Moving one element from the front of a tail to the end of its head. */
  lemma AppendRegroup<T>(done: seq<T>, x: T, rest: seq<T>)
    ensures done + ([x] + rest) == (done + [x]) + rest
  {
  }

  /** The chunks are the windows, one for one, each stripped. */
  lemma {:induction false} ChunksStripWindows(text: String, size: int, stride: int, start: nat)
    requires size > 0 && stride > 0
    ensures |Chunks(text, size, stride, start)| == |Windows(text, size, stride, start)|
    ensures forall i :: 0 <= i < |Windows(text, size, stride, start)| ==>
      Chunks(text, size, stride, start)[i] == Strip(Windows(text, size, stride, start)[i])
    decreases |text| - start
  {
    if start < |text| {
      var first := Window(text, start, size);
      var w := Windows(text, size, stride, start + stride);
      var c := Chunks(text, size, stride, start + stride);
      ChunksStripWindows(text, size, stride, start + stride);
      var ws := Windows(text, size, stride, start);
      var cs := Chunks(text, size, stride, start);
      assert ws == [first] + w;
      assert cs == [Strip(first)] + c;
      forall i | 0 <= i < |ws|
        ensures cs[i] == Strip(ws[i])
      {
        if i > 0 {
          assert cs[i] == c[i - 1];
          assert ws[i] == w[i - 1];
        }
      }
    }
  }

  /** Window `i` starts `i` strides after `start`. */
  lemma {:induction false} WindowAt(text: String, size: int, stride: int, start: nat, i: nat)
    requires size > 0 && stride > 0
    requires i < |Windows(text, size, stride, start)|
    ensures start + i * stride < |text|
    ensures Windows(text, size, stride, start)[i] == Window(text, start + i * stride, size)
    decreases i
  {
    if i > 0 {
      WindowAt(text, size, stride, start + stride, i - 1);
      assert start + stride + (i - 1) * stride == start + i * stride;
    }
  }

  /** There are just enough windows to reach the end of the text: the last
      one starts inside it, and one stride further lies beyond it. */
  lemma {:induction false} WindowCount(text: String, size: int, stride: int, start: nat)
    requires size > 0 && stride > 0
    ensures var n := |Windows(text, size, stride, start)|;
      && (start >= |text| ==> n == 0)
      && (start < |text| ==> n > 0 && start + (n - 1) * stride < |text| <= start + n * stride)
    decreases |text| - start
  {
    if start < |text| {
      var rest := Windows(text, size, stride, start + stride);
      WindowCount(text, size, stride, start + stride);
      var n := |rest| + 1;
      assert start + stride + (n - 2) * stride == start + (n - 1) * stride;
      assert start + stride + (n - 1) * stride == start + n * stride;
    }
  }

  /** Windows laid end to end (stride equal to size) rebuild the text from
      `start` on. */
  lemma {:induction false} WindowsRebuildText(text: String, size: int, start: nat)
    requires size > 0 && start <= |text|
    ensures Concat(Windows(text, size, size, start)) == text[start..]
    decreases |text| - start
  {
    if start < |text| {
      var w := Window(text, start, size);
      if start + size < |text| {
        WindowsRebuildText(text, size, start + size);
        assert text[start..] == w + text[start + size..];
      } else {
        assert Windows(text, size, size, start + size) == [];
        assert w == text[start..];
      }
    }
  }

  /** For `overlap >= 0` the step is `chunk_size` whatever the overlap, so
      the result is the one for `overlap = 0`; only a negative overlap
      changes it, by skipping `-overlap` characters between windows. */
  lemma OverlapHasNoEffect(chunkSize: int, overlap: int)
    ensures overlap >= 0 ==> Stride(chunkSize, overlap) == chunkSize
    ensures overlap < 0 ==> Stride(chunkSize, overlap) == chunkSize - overlap
    ensures overlap >= 0 ==> Stride(chunkSize, overlap) == Stride(chunkSize, 0)
  {
  }

  /** With the defaults, the only values `ingest_folder` ever passes, the
      text is cut into consecutive, non-overlapping 600-character windows. */
  lemma DefaultsCutAdjacentWindows()
    ensures ChunkSize == 600 && Overlap == 100
    ensures Stride(ChunkSize, Overlap) == 600
  {
  }

  /** For `chunk_size > 0` and `overlap >= 0`, `chunk_text` returns one
      chunk per `chunk_size` slice of the text: `ceil(len(text) /
      chunk_size)` of them. */
  lemma ChunkTextCount(text: String, chunkSize: int, overlap: int)
    requires chunkSize > 0 && overlap >= 0
    ensures var n := |Chunks(text, chunkSize, Stride(chunkSize, overlap), 0)|;
      && n == |Windows(text, chunkSize, chunkSize, 0)|
      && (text != [] ==> (n - 1) * chunkSize < |text| <= n * chunkSize)
  {
    assert Stride(chunkSize, overlap) == chunkSize;
    ChunksStripWindows(text, chunkSize, chunkSize, 0);
    WindowCount(text, chunkSize, chunkSize, 0);
  }

  /** For `chunk_size > 0` and `overlap >= 0`, chunk `i` is the stripped
      slice `text[i*chunk_size:(i+1)*chunk_size]`, so it is at most
      `chunk_size` long, and it is `""` exactly when that slice is all
      whitespace: a blank slice is kept, not dropped. */
  lemma ChunkTextChunkAt(text: String, chunkSize: int, overlap: int, i: nat)
    requires chunkSize > 0 && overlap >= 0
    requires i < |Chunks(text, chunkSize, Stride(chunkSize, overlap), 0)|
    ensures i * chunkSize < |text|
    ensures var chunk := Chunks(text, chunkSize, Stride(chunkSize, overlap), 0)[i];
      var slice := Window(text, i * chunkSize, chunkSize);
      && chunk == Strip(slice)
      && |chunk| <= chunkSize
      && (chunk == [] <==> AllSpace(slice))
  {
    assert Stride(chunkSize, overlap) == chunkSize;
    ChunksStripWindows(text, chunkSize, chunkSize, 0);
    WindowAt(text, chunkSize, chunkSize, 0, i);
    StripSpec(Windows(text, chunkSize, chunkSize, 0)[i]);
  }

  /** With the corrected step and `0 <= overlap < chunk_size`, each full
      window ends with the `overlap` characters the next window starts
      with. */
  lemma OverlappingWindowsShare(text: String, chunkSize: int, overlap: int, i: nat)
    requires 0 <= overlap < chunkSize
    requires i + 1 < |Windows(text, chunkSize, OverlapStride(chunkSize, overlap), 0)|
    requires i * (chunkSize - overlap) + chunkSize <= |text|
    ensures var w := Windows(text, chunkSize, OverlapStride(chunkSize, overlap), 0);
      |w[i]| == chunkSize && overlap <= |w[i + 1]| &&
      w[i][chunkSize - overlap..] == w[i + 1][..overlap]
  {
    var stride := chunkSize - overlap;
    var a, b := WindowStarts(text, chunkSize, stride, i);
    WindowsShare(text, chunkSize, a, b);
  }

  /** Where windows `i` and `i + 1` start: one stride apart. */
  lemma WindowStarts(text: String, size: int, stride: int, i: nat) returns (a: nat, b: nat)
    requires size > 0 && stride > 0
    requires i + 1 < |Windows(text, size, stride, 0)|
    ensures a == i * stride && b == a + stride && b < |text|
    ensures Windows(text, size, stride, 0)[i] == Window(text, a, size)
    ensures Windows(text, size, stride, 0)[i + 1] == Window(text, b, size)
  {
    WindowAt(text, size, stride, 0, i);
    WindowAt(text, size, stride, 0, i + 1);
    a := i * stride;
    b := (i + 1) * stride;
  }

  /** Two windows whose starts `a < b` are at most `size` apart, the first
      of them full, share the characters from `b` to the end of the first. */
  lemma WindowsShare(text: String, size: int, a: nat, b: nat)
    requires a < b <= a + size <= |text| && b < |text|
    ensures |Window(text, a, size)| == size && a + size - b <= |Window(text, b, size)|
    ensures Window(text, a, size)[b - a..] == Window(text, b, size)[..a + size - b]
  {
    WindowSpec(text, a, size);
    WindowSpec(text, b, size);
    assert Window(text, a, size)[b - a..] == text[b..a + size];
  }

  /** The discrepancy on a concrete input: cutting `"abcdefgh"` into windows
      of 4 with overlap 2 gives two adjacent windows as written, and four
      windows, each sharing two characters with the next, once corrected. */
  lemma OverlapExample()
    ensures Windows("abcdefgh", 4, Stride(4, 2), 0) == ["abcd", "efgh"]
    ensures Windows("abcdefgh", 4, OverlapStride(4, 2), 0) == ["abcd", "cdef", "efgh", "gh"]
  {
    var t := "abcdefgh";
    assert Window(t, 0, 4) == t[0..4] == "abcd";
    assert Window(t, 2, 4) == t[2..6] == "cdef";
    assert Window(t, 4, 4) == t[4..8] == "efgh";
    assert Window(t, 6, 4) == t[6..8] == "gh";
    assert Windows(t, 4, 4, 8) == [];
    assert Windows(t, 4, 4, 4) == ["efgh"];
    assert Windows(t, 4, 2, 8) == [];
    assert Windows(t, 4, 2, 6) == ["gh"];
    assert Windows(t, 4, 2, 4) == ["efgh", "gh"];
    assert Windows(t, 4, 2, 2) == ["cdef", "efgh", "gh"];
  }
}
