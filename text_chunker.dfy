/** The resume text splitter of backend/app/utils/text_chunker.py: fixed-size
    windows that advance by `chunk_size - overlap` characters, each stripped. */
module TextChunker {
  import opened Strings

  const DefaultChunkSize := 1000
  const DefaultOverlap := 100

  /** Python's index normalisation for a slice bound on a sequence of length `n`. */
  function SliceBound(x: int, n: nat): (b: nat)
    ensures b <= n
  {
    if x < 0 then (if x + n < 0 then 0 else x + n) else if x > n then n else x
  }

  /** Python's `s[a:b]`, including negative and out-of-range bounds. */
  function PySlice(s: string, a: int, b: int): (r: string)
    ensures 0 <= a <= |s| && a <= b ==> r == s[a..if b < |s| then b else |s|]
  {
    var i, j := SliceBound(a, |s|), SliceBound(b, |s|);
    if i < j then s[i..j] else ""
  }

  /** The value of `start` after `k` iterations: each iteration sets it to
      `end - overlap`, that is, advances it by `chunk_size - overlap`. */
  function Offset(k: nat, chunkSize: int, overlap: int): (start: int)
    ensures chunkSize > overlap ==> start >= 0
    decreases k
  {
    if k == 0 then 0 else Offset(k - 1, chunkSize, overlap) + chunkSize - overlap
  }

  lemma {:induction false} OffsetIsProduct(k: nat, chunkSize: int, overlap: int)
    ensures Offset(k, chunkSize, overlap) == k * (chunkSize - overlap)
    decreases k
  {
    if k > 0 {
      OffsetIsProduct(k - 1, chunkSize, overlap);
    }
  }

  /** The unstripped window that iteration `k` of the loop slices. */
  function Window(text: string, k: nat, chunkSize: int, overlap: int): string {
    var start := Offset(k, chunkSize, overlap);
    PySlice(text, start, start + chunkSize)
  }

  /** Chunk `k` of the result: the stripped window. */
  function Chunk(text: string, k: nat, chunkSize: int, overlap: int): string {
    PyStrip(Window(text, k, chunkSize, overlap))
  }

  /** The number of loop iterations, ceil(n / step). */
  function ChunkCount(n: nat, step: int): nat
    requires step > 0
  {
    (n + step - 1) / step
  }

  lemma MulCancel(a: int, b: int, step: int)
    requires step > 0 && a * step < b * step
    ensures a < b
  {
    assert (b - a) * step > 0;
  }

  /** ceil(n / step) is the only count `c` with (c - 1) * step < n <= c * step. */
  lemma CeilDivUnique(n: nat, step: int, c: nat)
    requires step > 0
    requires n <= c * step
    requires c == 0 || (c - 1) * step < n
    ensures c == ChunkCount(n, step)
  {
    var q := (n + step - 1) / step;
    var r := (n + step - 1) % step;
    assert n + step - 1 == q * step + r && 0 <= r < step;
    assert q * step < (c + 1) * step;
    MulCancel(q, c + 1, step);
    if c > 0 {
      assert c * step < (q + 1) * step;
      MulCancel(c, q + 1, step);
    }
  }

  /** `chunk_text(text, chunk_size, overlap)`. On a non-empty text the source
      loops forever unless `chunk_size > overlap` (ChunkLoopStalls), so that is
      what it demands of its callers. */
  method ChunkText(text: string, chunkSize: int, overlap: int) returns (chunks: seq<string>)
    requires text == [] || chunkSize > overlap
    ensures text == [] ==> chunks == []
    ensures text != [] ==> |chunks| == ChunkCount(|text|, chunkSize - overlap)
    ensures forall k :: 0 <= k < |chunks| ==> chunks[k] == Chunk(text, k, chunkSize, overlap)
  {
    if |text| == 0 {
      return [];
    }
    assert chunkSize > overlap;
    var step := chunkSize - overlap;
    chunks := [];
    var start := 0;
    var textLength := |text|;
    ghost var n: nat := 0;
    while start < textLength
      invariant start == Offset(n, chunkSize, overlap)
      invariant n == 0 || start - step < textLength
      invariant |chunks| == n
      invariant forall k :: 0 <= k < n ==> chunks[k] == Chunk(text, k, chunkSize, overlap)
      decreases textLength - start
    {
      var end := start + chunkSize;
      var chunk := PySlice(text, start, end);
      chunks := chunks + [PyStrip(chunk)];
      n := n + 1;
      start := end - overlap;
    }
    IterationCount(textLength, n, chunkSize, overlap);
  }

  /** As written, a non-empty text with `chunk_size <= overlap` never ends the
      loop: `start` never moves forward, so `start < len(text)` holds at every
      iteration. `chunk_text("a", 100, 100)` keeps `start` at 0. */
  lemma {:induction false} ChunkLoopStalls(text: string, k: nat, chunkSize: int, overlap: int)
    requires text != [] && chunkSize <= overlap
    ensures Offset(k, chunkSize, overlap) <= 0 < |text|
    ensures chunkSize == overlap ==> Offset(k, chunkSize, overlap) == 0
    decreases k
  {
    if k > 0 {
      ChunkLoopStalls(text, k - 1, chunkSize, overlap);
    }
  }

  /** The loop stops after the first iteration whose `start` reaches the end. */
  lemma IterationCount(n: nat, c: nat, chunkSize: int, overlap: int)
    requires chunkSize > overlap
    requires n <= Offset(c, chunkSize, overlap)
    requires c == 0 || Offset(c, chunkSize, overlap) - (chunkSize - overlap) < n
    ensures c == ChunkCount(n, chunkSize - overlap)
  {
    OffsetIsProduct(c, chunkSize, overlap);
    var step := chunkSize - overlap;
    assert c == 0 || (c - 1) * step == c * step - step;
    CeilDivUnique(n, step, c);
  }

  /** A window that starts inside the text is the plain slice from its
      start, cut at the end of the text; consecutive windows start
      `chunk_size - overlap` characters apart, so chunks follow the text in
      order. */
  lemma WindowAt(text: string, k: nat, chunkSize: int, overlap: int)
    requires chunkSize > overlap && chunkSize >= 0
    requires Offset(k, chunkSize, overlap) < |text|
    ensures var start := Offset(k, chunkSize, overlap);
      var stop := if start + chunkSize < |text| then start + chunkSize else |text|;
      Window(text, k, chunkSize, overlap) == text[start..stop]
      && Offset(k + 1, chunkSize, overlap) == start + (chunkSize - overlap)
  {
  }

  /** With a non-negative `chunk_size`, no window and no chunk is longer than
      `chunk_size`. */
  lemma ChunkLength(text: string, k: nat, chunkSize: int, overlap: int)
    requires chunkSize > overlap && chunkSize >= 0
    ensures |Window(text, k, chunkSize, overlap)| <= chunkSize
    ensures |Chunk(text, k, chunkSize, overlap)| <= chunkSize
  {
  }

  /** When window `k` is full, its last `overlap` characters are the first
      `overlap` characters of window `k + 1`. */
  lemma ConsecutiveWindowsOverlap(text: string, k: nat, chunkSize: int, overlap: int)
    requires chunkSize > overlap >= 0
    requires Offset(k, chunkSize, overlap) + chunkSize <= |text|
    ensures var w, w' := Window(text, k, chunkSize, overlap), Window(text, k + 1, chunkSize, overlap);
      |w| == chunkSize && |w'| >= overlap && w[chunkSize - overlap..] == w'[..overlap]
  {
    var s := Offset(k, chunkSize, overlap);
    var s' := Offset(k + 1, chunkSize, overlap);
    assert s' == s + chunkSize - overlap;
    var w := Window(text, k, chunkSize, overlap);
    assert w == text[s..s + chunkSize];
    if s' < |text| {
      WindowAt(text, k + 1, chunkSize, overlap);
    }
  }

  /** With the defaults 1000/100 a non-empty text gives ceil(len / 900) chunks. */
  lemma DefaultChunkCount(n: nat)
    ensures DefaultChunkSize > DefaultOverlap
    ensures ChunkCount(n, DefaultChunkSize - DefaultOverlap) == (n + 899) / 900
  {
  }
}
