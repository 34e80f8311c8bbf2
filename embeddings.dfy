/**
 * The chunker and the ingestion loop (server/services/embeddings.js).
 *
 * `SplitText` is the specification of the chunker: it follows the sliding
 * window over the whitespace-normalised text one window at a time.
 * `SplitTextIntoChunks` is the source's `while` loop, proved to compute it.
 * The embedding service is an oracle that may fail on any call.
 */
module Embeddings {
  import opened Wrappers
  import opened Strings
  import opened Records

  const DefaultChunkSize: nat := 1000
  const DefaultOverlap: nat := 200

  /** The window start advances on every step only when the overlap is under half a window. */
  predicate ValidParams(chunkSize: nat, overlap: nat) {
    2 * overlap < chunkSize
  }

  /** The text the chunker works on: `text.replace(/\s+/g, ' ').trim()`. */
  function Cleaned(text: string): (cleaned: string)
    ensures Normalized(cleaned)
    ensures |cleaned| <= |text|
    ensures NonSpace(cleaned) == NonSpace(text)
  {
    CollapseAndTrim(text)
  }

  /** `c` occurs somewhere in `s`. */
  ghost predicate IsSliceOf(c: string, s: string) {
    exists i :: OccursAt(s, c, i)
  }

  /** What every chunk emitted by the window loop is. */
  ghost predicate IsChunkOf(c: string, cleaned: string, chunkSize: nat) {
    c != [] && Trimmed(c) && |c| <= chunkSize && IsSliceOf(c, cleaned)
  }

  /** The window starting at `start` may break at offset `k` of the window on a `". "`. */
  predicate SentenceBreak(cleaned: string, start: nat, chunkSize: nat, k: int)
    requires start + chunkSize <= |cleaned|
  {
    chunkSize < 2 * k && OccursAt(cleaned[start..start + chunkSize], ". ", k)
  }

  /**
   * Where the window that starts at `start` ends. A window that reaches past
   * the end of the text keeps its full, unclamped end. Otherwise the last
   * `". "` of the window past its middle ends it just after the period; failing
   * that, the last space past the middle; failing that, the window's own end.
   */
  function WindowEnd(cleaned: string, start: nat, chunkSize: nat): (end: nat)
    requires start < |cleaned| && chunkSize > 0
    ensures start < end <= start + chunkSize
    ensures chunkSize < 2 * (end - start)
    ensures start + chunkSize >= |cleaned| ==> end == start + chunkSize
    ensures end < start + chunkSize ==> end < |cleaned| && cleaned[end] == ' '
  {
    var hard := start + chunkSize;
    if hard < |cleaned| then
      var window := cleaned[start..hard];
      var sentenceEnd := LastIndexOf(window, ". ");
      if chunkSize < 2 * sentenceEnd then
        assert window[sentenceEnd + 1] == cleaned[start + sentenceEnd + 1];
        start + sentenceEnd + 1
      else
        var lastSpace := LastIndexOf(window, " ");
        if chunkSize < 2 * lastSpace then
          assert window[lastSpace] == cleaned[start + lastSpace];
          start + lastSpace
        else hard
    else hard
  }

  /** A `". "` past the middle of the window wins: the window ends at the last one, after its period. */
  lemma WindowPrefersSentenceEnd(cleaned: string, start: nat, chunkSize: nat, k: int)
    requires start + chunkSize < |cleaned| && chunkSize > 0
    requires SentenceBreak(cleaned, start, chunkSize, k)
    ensures var end := WindowEnd(cleaned, start, chunkSize);
      && k + 1 <= end - start
      && SentenceBreak(cleaned, start, chunkSize, end - start - 1)
      && cleaned[end - 1] == '.'
      && forall j :: end - start - 1 < j ==> !SentenceBreak(cleaned, start, chunkSize, j)
  {
    var window := cleaned[start..start + chunkSize];
    var sentenceEnd := LastIndexOf(window, ". ");
    assert window[sentenceEnd] == cleaned[start + sentenceEnd];
  }

  /** The window starting at `start` may break at offset `k` of the window on a space. */
  predicate SpaceBreak(cleaned: string, start: nat, chunkSize: nat, k: int)
    requires start + chunkSize <= |cleaned|
  {
    chunkSize < 2 * k && OccursAt(cleaned[start..start + chunkSize], " ", k)
  }

  /**
   * With no `". "` past the middle, the window ends at the last space past the
   * middle, or, when there is none, at its full length.
   */
  lemma WindowFallsBackToSpace(cleaned: string, start: nat, chunkSize: nat)
    requires start + chunkSize < |cleaned| && chunkSize > 0
    requires forall k :: !SentenceBreak(cleaned, start, chunkSize, k)
    ensures var end := WindowEnd(cleaned, start, chunkSize);
      && ((exists k :: SpaceBreak(cleaned, start, chunkSize, k)) ==>
            && SpaceBreak(cleaned, start, chunkSize, end - start)
            && forall j :: end - start < j ==> !SpaceBreak(cleaned, start, chunkSize, j))
      && ((forall k :: !SpaceBreak(cleaned, start, chunkSize, k)) ==> end == start + chunkSize)
  {
    var window := cleaned[start..start + chunkSize];
    var sentenceEnd := LastIndexOf(window, ". ");
    if sentenceEnd >= 0 {
      assert !SentenceBreak(cleaned, start, chunkSize, sentenceEnd);
    }
    var lastSpace := LastIndexOf(window, " ");
    if lastSpace >= 0 {
      assert SpaceBreak(cleaned, start, chunkSize, lastSpace) <==> chunkSize < 2 * lastSpace;
    }
  }

  /** Where the next window starts: the overlap is carried back from this window's end. */
  function NextStart(cleaned: string, start: nat, chunkSize: nat, overlap: nat): (next: nat)
    requires ValidParams(chunkSize, overlap) && start < |cleaned|
    ensures start < next
  {
    WindowEnd(cleaned, start, chunkSize) - overlap
  }

  /** The chunk cut from the window at `start`: the window's text, clamped to the text and trimmed. */
  function WindowText(cleaned: string, start: nat, chunkSize: nat): (chunk: string)
    requires start < |cleaned| && chunkSize > 0
    ensures chunk != [] ==> IsChunkOf(chunk, cleaned, chunkSize)
  {
    var end := WindowEnd(cleaned, start, chunkSize);
    var stop := if end < |cleaned| then end else |cleaned|;
    var slice := cleaned[start..stop];
    TrimOfSlice(cleaned, start, stop);
    Trim(slice)
  }

  /** The chunks emitted from the window at `start` to the end of the text. */
  function ChunksFrom(cleaned: string, start: nat, chunkSize: nat, overlap: nat): seq<string>
    requires ValidParams(chunkSize, overlap)
    decreases |cleaned| - start
  {
    if start >= |cleaned| then []
    else
      var chunk := WindowText(cleaned, start, chunkSize);
      (if chunk == [] then [] else [chunk])
      + ChunksFrom(cleaned, NextStart(cleaned, start, chunkSize, overlap), chunkSize, overlap)
  }

  lemma ConcatAssoc<T>(a: seq<T>, b: seq<T>, c: seq<T>)
    ensures a + b + c == a + (b + c)
  {
  }

  /** One step of the window loop: the chunk of the window at `start`, if any, then the chunks from the next start. */
  lemma ChunksFromStep(cleaned: string, start: nat, next: nat, chunkSize: nat, overlap: nat)
    requires ValidParams(chunkSize, overlap) && start < |cleaned|
    requires next == NextStart(cleaned, start, chunkSize, overlap)
    ensures var chunk := WindowText(cleaned, start, chunkSize);
      ChunksFrom(cleaned, start, chunkSize, overlap)
      == (if chunk == [] then [] else [chunk]) + ChunksFrom(cleaned, next, chunkSize, overlap)
  {
  }

  /** Every chunk the window loop emits is a non-empty, trimmed piece of the text no longer than a window. */
  lemma {:induction false} ChunksFromAreChunks(cleaned: string, start: nat, chunkSize: nat, overlap: nat)
    requires ValidParams(chunkSize, overlap)
    ensures forall i :: 0 <= i < |ChunksFrom(cleaned, start, chunkSize, overlap)| ==>
      IsChunkOf(ChunksFrom(cleaned, start, chunkSize, overlap)[i], cleaned, chunkSize)
    decreases |cleaned| - start
  {
    if start < |cleaned| {
      ChunksFromAreChunks(cleaned, NextStart(cleaned, start, chunkSize, overlap), chunkSize, overlap);
    }
  }

  /**
   * `splitTextIntoChunks(text, chunkSize, overlap)`: nothing for an empty
   * text, the whole cleaned text when it fits one window, and the window loop
   * otherwise.
   */
  function SplitText(text: string, chunkSize: nat, overlap: nat): seq<string>
    requires ValidParams(chunkSize, overlap)
  {
    if text == [] then []
    else
      var cleaned := Cleaned(text);
      if |cleaned| <= chunkSize then [cleaned]
      else ChunksFrom(cleaned, 0, chunkSize, overlap)
  }

  /**
   * Nothing for an empty text, the cleaned text alone when it fits one
   * window. Every chunk is a trimmed piece of the cleaned text no longer than
   * a window; the only empty chunk is the single one returned for a non-empty
   * text made of whitespace.
   */
  lemma SplitTextChunks(text: string, chunkSize: nat, overlap: nat)
    requires ValidParams(chunkSize, overlap)
    ensures var chunks := SplitText(text, chunkSize, overlap);
      && (forall i :: 0 <= i < |chunks| ==>
            && |chunks[i]| <= chunkSize
            && Trimmed(chunks[i])
            && IsSliceOf(chunks[i], Cleaned(text)))
      && (forall i :: 0 <= i < |chunks| && chunks[i] == [] ==> chunks == [[]] && text != [] && IsBlank(text))
      && (text != [] && IsBlank(text) ==> chunks == [[]])
      && (text == [] ==> chunks == [])
      && (text != [] && |Cleaned(text)| <= chunkSize ==> chunks == [Cleaned(text)])
  {
    var cleaned := Cleaned(text);
    var chunks := SplitText(text, chunkSize, overlap);
    if text != [] {
      if |cleaned| <= chunkSize {
        assert chunks == [cleaned];
        assert OccursAt(cleaned, cleaned, 0);
      } else {
        assert chunks == ChunksFrom(cleaned, 0, chunkSize, overlap);
        ChunksFromAreChunks(cleaned, 0, chunkSize, overlap);
      }
    }
  }

  /** The first window of a trimmed text yields a chunk the text starts with. */
  lemma FirstWindowText(cleaned: string, chunkSize: nat)
    requires Trimmed(cleaned) && 0 < |cleaned| && chunkSize > 0
    ensures WindowText(cleaned, 0, chunkSize) != []
    ensures StartsWith(cleaned, WindowText(cleaned, 0, chunkSize))
  {
    var end := WindowEnd(cleaned, 0, chunkSize);
    var stop := if end < |cleaned| then end else |cleaned|;
    var slice := cleaned[0..stop];
    assert slice[0] == cleaned[0];
    assert LeadingSpaces(slice) == 0;
    TrimOfSlice(cleaned, 0, stop);
  }

  /** The first chunk starts at the first character of the cleaned text. */
  lemma FirstChunkIsPrefix(text: string, chunkSize: nat, overlap: nat)
    requires ValidParams(chunkSize, overlap)
    requires SplitText(text, chunkSize, overlap) != []
    ensures StartsWith(Cleaned(text), SplitText(text, chunkSize, overlap)[0])
  {
    var cleaned := Cleaned(text);
    if |cleaned| > chunkSize {
      FirstWindowText(cleaned, chunkSize);
      ChunksFromStep(cleaned, 0, NextStart(cleaned, 0, chunkSize, overlap), chunkSize, overlap);
    }
  }

  /** A window that reaches the end of a trimmed text yields that text's whole tail, which is not empty. */
  lemma LastWindowText(cleaned: string, start: nat, chunkSize: nat)
    requires Trimmed(cleaned) && start < |cleaned| <= start + chunkSize
    ensures WindowText(cleaned, start, chunkSize) == Trim(cleaned[start..]) != []
  {
    var tail := cleaned[start..];
    assert tail[|tail| - 1] == cleaned[|cleaned| - 1];
    assert cleaned[start..|cleaned|] == tail;
  }

  /**
   * The final window is not clamped: when the text ends inside the window at
   * `start` but the next start `next` still falls inside the text, one more
   * chunk is emitted after the one that reaches the end.
   */
  lemma FinalWindowChunks(cleaned: string, start: nat, next: nat, chunkSize: nat, overlap: nat)
    requires ValidParams(chunkSize, overlap) && Trimmed(cleaned)
    requires start < |cleaned| <= start + chunkSize
    requires next == start + chunkSize - overlap < |cleaned|
    ensures ChunksFrom(cleaned, start, chunkSize, overlap) == [Trim(cleaned[start..]), Trim(cleaned[next..])]
  {
    var last := NextStart(cleaned, next, chunkSize, overlap);
    assert NextStart(cleaned, start, chunkSize, overlap) == next;
    ChunksFromStep(cleaned, start, next, chunkSize, overlap);
    ChunksFromStep(cleaned, next, last, chunkSize, overlap);
    LastWindowText(cleaned, start, chunkSize);
    LastWindowText(cleaned, next, chunkSize);
    assert ChunksFrom(cleaned, last, chunkSize, overlap) == [];
  }

  /** That extra chunk repeats the end of the chunk before it: it is one of its suffixes. */
  lemma FinalWindowRepeatsSuffix(cleaned: string, start: nat, next: nat, chunkSize: nat, overlap: nat)
    requires start <= next <= |cleaned|
    ensures EndsWith(Trim(cleaned[start..]), Trim(cleaned[next..]))
  {
    var tail := cleaned[start..];
    assert tail[next - start..] == cleaned[next..];
    TrimOfSuffix(tail, next - start);
  }

  /** `splitTextIntoChunks`: the short-text cases, then the window loop. */
  method SplitTextIntoChunks(text: string, chunkSize: nat, overlap: nat) returns (chunks: seq<string>)
    requires ValidParams(chunkSize, overlap)
    ensures chunks == SplitText(text, chunkSize, overlap)
  {
    if |text| == 0 {
      return [];
    }
    var cleaned := Cleaned(text);
    if |cleaned| <= chunkSize {
      return [cleaned];
    }
    chunks := SlideWindow(cleaned, chunkSize, overlap);
  }

  /** The end of the window at `startIndex`, computed as the loop body of `splitTextIntoChunks` does. */
  method FindWindowEnd(cleaned: string, startIndex: nat, chunkSize: nat) returns (endIndex: nat)
    requires startIndex < |cleaned| && chunkSize > 0
    ensures endIndex == WindowEnd(cleaned, startIndex, chunkSize)
  {
    endIndex := startIndex + chunkSize;
    if endIndex < |cleaned| {
      var sentenceEnd := LastIndexOf(cleaned[startIndex..endIndex], ". ");
      if 2 * sentenceEnd > chunkSize {
        endIndex := startIndex + sentenceEnd + 1;
      } else {
        var lastSpace := LastIndexOf(cleaned[startIndex..endIndex], " ");
        if 2 * lastSpace > chunkSize {
          endIndex := startIndex + lastSpace;
        }
      }
    }
  }

  /** The window loop of `splitTextIntoChunks` over the cleaned text. */
  method SlideWindow(cleaned: string, chunkSize: nat, overlap: nat) returns (chunks: seq<string>)
    requires ValidParams(chunkSize, overlap)
    ensures chunks == ChunksFrom(cleaned, 0, chunkSize, overlap)
  {
    chunks := [];
    var startIndex := 0;
    assert chunks + ChunksFrom(cleaned, startIndex, chunkSize, overlap) == ChunksFrom(cleaned, 0, chunkSize, overlap);
    while startIndex < |cleaned|
      invariant chunks + ChunksFrom(cleaned, startIndex, chunkSize, overlap) == ChunksFrom(cleaned, 0, chunkSize, overlap)
      decreases |cleaned| - startIndex
    {
      var endIndex := FindWindowEnd(cleaned, startIndex, chunkSize);
      var stop := if endIndex < |cleaned| then endIndex else |cleaned|;
      var chunk := Trim(cleaned[startIndex..stop]);
      ghost var next := NextStart(cleaned, startIndex, chunkSize, overlap);
      ghost var rest := ChunksFrom(cleaned, next, chunkSize, overlap);
      ChunksFromStep(cleaned, startIndex, next, chunkSize, overlap);
      assert chunk == WindowText(cleaned, startIndex, chunkSize);
      if |chunk| > 0 {
        assert ChunksFrom(cleaned, startIndex, chunkSize, overlap) == [chunk] + rest;
        ConcatAssoc(chunks, [chunk], rest);
        chunks := chunks + [chunk];
      } else {
        assert ChunksFrom(cleaned, startIndex, chunkSize, overlap) == [] + rest;
        assert [] + rest == rest;
      }
      assert chunks + rest == ChunksFrom(cleaned, 0, chunkSize, overlap);
      startIndex := endIndex - overlap;
      assert startIndex == next;
      if startIndex >= |cleaned| {
        break;
      }
    }
  }

  /** The embedding service: the outcome of the `n`-th call, made on `text`; `None` when that call throws. */
  type Embedder = (nat, string) -> Option<Vector>

  datatype EmbeddedChunk = EmbeddedChunk(text: string, embedding: Vector, chunkIndex: nat)

  function Indices(results: seq<EmbeddedChunk>): (ix: seq<nat>)
    ensures |ix| == |results|
    ensures forall k :: 0 <= k < |results| ==> ix[k] == results[k].chunkIndex
  {
    if results == [] then [] else Indices(results[..|results| - 1]) + [results[|results| - 1].chunkIndex]
  }

  /** The results for the first `n` chunks: one per chunk whose call succeeds, in order. */
  function EmbedPrefix(chunks: seq<string>, embed: Embedder, n: nat): seq<EmbeddedChunk>
    requires n <= |chunks|
  {
    if n == 0 then []
    else
      var i := n - 1;
      EmbedPrefix(chunks, embed, i)
        + match embed(i, chunks[i]) { case Some(v) => [EmbeddedChunk(chunks[i], v, i)] case None => [] }
  }

  /** What `processTextToChunks(text)` returns. */
  function Ingest(text: string, embed: Embedder): seq<EmbeddedChunk> {
    var chunks := SplitText(text, DefaultChunkSize, DefaultOverlap);
    EmbedPrefix(chunks, embed, |chunks|)
  }

  /** The results for `n` chunks: at most one per chunk, each with the text of its chunk and the vector its call returned. */
  lemma {:induction false} EmbedPrefixResults(chunks: seq<string>, embed: Embedder, n: nat)
    requires n <= |chunks|
    ensures |EmbedPrefix(chunks, embed, n)| <= n
    ensures forall r :: r in EmbedPrefix(chunks, embed, n) ==>
      && r.chunkIndex < n
      && r.text == chunks[r.chunkIndex]
      && embed(r.chunkIndex, r.text) == Some(r.embedding)
  {
    if n > 0 {
      EmbedPrefixResults(chunks, embed, n - 1);
    }
  }

  /** The indices of the results strictly increase. */
  lemma {:induction false} EmbedPrefixIncreasing(chunks: seq<string>, embed: Embedder, n: nat)
    requires n <= |chunks|
    ensures var results := EmbedPrefix(chunks, embed, n);
      forall k, l :: 0 <= k < l < |results| ==> results[k].chunkIndex < results[l].chunkIndex
  {
    if n > 0 {
      var prev := EmbedPrefix(chunks, embed, n - 1);
      EmbedPrefixIncreasing(chunks, embed, n - 1);
      EmbedPrefixResults(chunks, embed, n - 1);
      assert forall k :: 0 <= k < |prev| ==> prev[k] in prev;
    }
  }

  lemma IndicesStep(chunks: seq<string>, embed: Embedder, n: nat)
    requires 0 < n <= |chunks|
    ensures Indices(EmbedPrefix(chunks, embed, n))
      == Indices(EmbedPrefix(chunks, embed, n - 1)) + (if embed(n - 1, chunks[n - 1]).Some? then [n - 1] else [])
  {
    var i := n - 1;
    var prev := EmbedPrefix(chunks, embed, i);
    if embed(i, chunks[i]).Some? {
      var results := EmbedPrefix(chunks, embed, n);
      assert results[..|results| - 1] == prev;
    }
  }

  /** Every index recorded for the first `n` chunks is below `n`. */
  lemma {:induction false} IndicesBelow(chunks: seq<string>, embed: Embedder, n: nat)
    requires n <= |chunks|
    ensures forall j :: j in Indices(EmbedPrefix(chunks, embed, n)) ==> j < n
  {
    if n > 0 {
      IndicesBelow(chunks, embed, n - 1);
      IndicesStep(chunks, embed, n);
    }
  }

  /** Appending `i`, or nothing, to indices below `i` leaves the old ones as they were and adds `i` exactly when it is appended. */
  lemma AppendIndex(ix: seq<nat>, i: nat, present: bool)
    requires forall j :: j in ix ==> j < i
    ensures forall j :: j < i ==> (j in ix + (if present then [i] else []) <==> j in ix)
    ensures i in ix + (if present then [i] else []) <==> present
  {
  }

  /** An index has a result exactly when its call succeeded. */
  lemma {:induction false} EmbedPrefixPresence(chunks: seq<string>, embed: Embedder, n: nat)
    requires n <= |chunks|
    ensures forall i :: 0 <= i < n ==> (embed(i, chunks[i]).Some? <==> i in Indices(EmbedPrefix(chunks, embed, n)))
  {
    if n > 0 {
      var i := n - 1;
      EmbedPrefixPresence(chunks, embed, i);
      IndicesBelow(chunks, embed, i);
      IndicesStep(chunks, embed, n);
      AppendIndex(Indices(EmbedPrefix(chunks, embed, i)), i, embed(i, chunks[i]).Some?);
    }
  }

  /**
   * The loop of `processTextToChunks`: the chunks are embedded one call each,
   * in order. A chunk whose call throws is skipped and the loop goes on.
   */
  method EmbedChunks(chunks: seq<string>, embed: Embedder) returns (results: seq<EmbeddedChunk>)
    ensures results == EmbedPrefix(chunks, embed, |chunks|)
  {
    results := [];
    for i := 0 to |chunks|
      invariant results == EmbedPrefix(chunks, embed, i)
    {
      var chunkText := chunks[i];
      match embed(i, chunkText)
      case Some(embedding) =>
        results := results + [EmbeddedChunk(chunkText, embedding, i)];
      case None =>
    }
  }

  /** `processTextToChunks(text)`: chunk the text with the default window, then embed every chunk. */
  method ProcessTextToChunks(text: string, embed: Embedder) returns (results: seq<EmbeddedChunk>)
    ensures results == Ingest(text, embed)
  {
    var chunks := SplitTextIntoChunks(text, DefaultChunkSize, DefaultOverlap);
    results := EmbedChunks(chunks, embed);
  }

  /** The ingestion result, stated over the chunks of the text. */
  lemma IngestProperties(text: string, embed: Embedder)
    ensures var chunks := SplitText(text, DefaultChunkSize, DefaultOverlap);
      var results := Ingest(text, embed);
      && |results| <= |chunks|
      && (forall r :: r in results ==>
            && r.chunkIndex < |chunks|
            && r.text == chunks[r.chunkIndex]
            && embed(r.chunkIndex, r.text) == Some(r.embedding))
      && (forall k, l :: 0 <= k < l < |results| ==> results[k].chunkIndex < results[l].chunkIndex)
      && (forall i :: 0 <= i < |chunks| ==> (embed(i, chunks[i]).Some? <==> i in Indices(results)))
  {
    var chunks := SplitText(text, DefaultChunkSize, DefaultOverlap);
    EmbedPrefixResults(chunks, embed, |chunks|);
    EmbedPrefixIncreasing(chunks, embed, |chunks|);
    EmbedPrefixPresence(chunks, embed, |chunks|);
  }
}
