/**
 * The coverage of the chunker (server/services/embeddings.js): no text of
 * the whitespace-normalised input is lost between the windows.
 */
module ChunkCoverage {
  import opened Strings
  import opened Embeddings

  /**
   * The next window starts strictly after this one and no later than this
   * window's end: consecutive windows leave no gap.
   */
  lemma NextStartWithinWindow(cleaned: string, start: nat, chunkSize: nat, overlap: nat)
    requires ValidParams(chunkSize, overlap) && start < |cleaned|
    ensures start < NextStart(cleaned, start, chunkSize, overlap) <= WindowEnd(cleaned, start, chunkSize)
  {
  }

  /** Where the chunk of the window at `start` begins in the text: after the window's leading spaces. */
  function WindowOffset(cleaned: string, start: nat, chunkSize: nat): (o: nat)
    requires start < |cleaned| && chunkSize > 0
    ensures start <= o
  {
    var end := WindowEnd(cleaned, start, chunkSize);
    var stop := if end < |cleaned| then end else |cleaned|;
    start + LeadingSpaces(cleaned[start..stop])
  }

  /** The chunk of the window at `start` occurs in the text at `WindowOffset`. */
  lemma WindowTextAt(cleaned: string, start: nat, chunkSize: nat)
    requires start < |cleaned| && chunkSize > 0
    ensures OccursAt(cleaned, WindowText(cleaned, start, chunkSize), WindowOffset(cleaned, start, chunkSize))
  {
    var end := WindowEnd(cleaned, start, chunkSize);
    var stop := if end < |cleaned| then end else |cleaned|;
    var slice := cleaned[start..stop];
    assert WindowText(cleaned, start, chunkSize) == Trim(slice);
    assert WindowOffset(cleaned, start, chunkSize) == start + LeadingSpaces(slice);
    TrimOfSlice(cleaned, start, stop);
  }

  /** The chunk of the window at `start` holds the character at position `p` of the text, in its place. */
  ghost predicate WindowCovers(cleaned: string, start: nat, chunkSize: nat, p: nat)
    requires start < |cleaned| && chunkSize > 0
  {
    var o := WindowOffset(cleaned, start, chunkSize);
    o <= p < o + |WindowText(cleaned, start, chunkSize)|
  }

  /** A non-whitespace character inside a window ends up in that window's chunk. */
  lemma WindowCoversNonSpace(cleaned: string, start: nat, chunkSize: nat, p: nat)
    requires start <= p < |cleaned| && chunkSize > 0
    requires p < WindowEnd(cleaned, start, chunkSize) && !IsSpace(cleaned[p])
    ensures WindowText(cleaned, start, chunkSize) != []
    ensures WindowCovers(cleaned, start, chunkSize, p)
  {
    var end := WindowEnd(cleaned, start, chunkSize);
    var stop := if end < |cleaned| then end else |cleaned|;
    var t := cleaned[start..stop];
    var q := p - start;
    assert t[q] == cleaned[p];
    assert LeadingSpaces(t) <= q;
    assert q < LeadingSpaces(t) + |Trim(t)|;
  }

  /**
   * No text is dropped between windows: every non-whitespace character from
   * `start` on lies, in its place, inside a chunk the window loop emits.
   */
  lemma {:induction false} ChunksFromCover(cleaned: string, start: nat, chunkSize: nat, overlap: nat, p: nat)
    requires ValidParams(chunkSize, overlap)
    requires start <= p < |cleaned| && !IsSpace(cleaned[p])
    ensures exists s: nat ::
      && start <= s <= p && s < |cleaned| && WindowCovers(cleaned, s, chunkSize, p)
      && WindowText(cleaned, s, chunkSize) in ChunksFrom(cleaned, start, chunkSize, overlap)
    decreases |cleaned| - start
  {
    var next := NextStart(cleaned, start, chunkSize, overlap);
    NextStartWithinWindow(cleaned, start, chunkSize, overlap);
    ChunksFromStep(cleaned, start, next, chunkSize, overlap);
    if p < WindowEnd(cleaned, start, chunkSize) {
      WindowCoversNonSpace(cleaned, start, chunkSize, p);
      assert WindowCovers(cleaned, start, chunkSize, p);
    } else {
      ChunksFromCover(cleaned, next, chunkSize, overlap, p);
      var s: nat :| start <= next <= s <= p && s < |cleaned| && WindowCovers(cleaned, s, chunkSize, p)
        && WindowText(cleaned, s, chunkSize) in ChunksFrom(cleaned, next, chunkSize, overlap);
      assert WindowCovers(cleaned, s, chunkSize, p);
    }
  }

  /**
   * The chunks cover the cleaned text: every non-whitespace character of it
   * lies, at its own position, inside some emitted chunk.
   */
  lemma SplitTextCovers(text: string, chunkSize: nat, overlap: nat, p: nat)
    requires ValidParams(chunkSize, overlap)
    requires p < |Cleaned(text)| && !IsSpace(Cleaned(text)[p])
    ensures exists c, o :: c in SplitText(text, chunkSize, overlap) && OccursAt(Cleaned(text), c, o) && o <= p < o + |c|
  {
    var cleaned := Cleaned(text);
    if |cleaned| <= chunkSize {
      assert OccursAt(cleaned, cleaned, 0);
    } else {
      ChunksFromCover(cleaned, 0, chunkSize, overlap, p);
      var s: nat :| s <= p && s < |cleaned| && WindowCovers(cleaned, s, chunkSize, p)
        && WindowText(cleaned, s, chunkSize) in ChunksFrom(cleaned, 0, chunkSize, overlap);
      var o := WindowOffset(cleaned, s, chunkSize);
      WindowTextAt(cleaned, s, chunkSize);
      assert OccursAt(cleaned, WindowText(cleaned, s, chunkSize), o);
    }
  }
}
