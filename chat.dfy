/**
 * The chat route (server/routes/chat.js): cosine similarity, retrieval of the
 * best chunks of a team, the context given to the model, and the POST handler.
 */
module Chat {
  import opened Wrappers
  import opened Strings
  import opened Seqs
  import opened Records

  // ---------------------------------------------------------------------------
  // Cosine similarity
  // ---------------------------------------------------------------------------

  /** The sum of `a[i] * b[i]` over the common prefix, accumulated left to right. */
  function Dot(a: Vector, b: Vector): real
    requires |a| == |b|
  {
    if |a| == 0 then 0.0
    else Dot(a[..|a| - 1], b[..|b| - 1]) + a[|a| - 1] * b[|b| - 1]
  }

  /**
   * A similarity: `Zero`, or the ratio `dot / sqrt(normProduct)`, where
   * `normProduct` is the product of the two squared norms. The square root
   * and the division are not modelled.
   */
  datatype Similarity = Zero | Ratio(dot: real, normProduct: real)

  /**
   * `cosineSimilarity(a, b)`: 0 for vectors of different lengths, and 0 when
   * the magnitude `sqrt(normA) * sqrt(normB)` is 0, that is when either
   * vector is the zero vector.
   */
  function Cosine(a: Vector, b: Vector): (sim: Similarity)
    ensures |a| != |b| ==> sim == Zero
    ensures sim.Ratio? ==> Dot(a, a) > 0.0 && Dot(b, b) > 0.0
  {
    if |a| != |b| then Zero
    else
      DotSelfNonNegative(a);
      DotSelfNonNegative(b);
      if Dot(a, a) == 0.0 || Dot(b, b) == 0.0 then Zero
      else Ratio(Dot(a, b), Dot(a, a) * Dot(b, b))
  }

  /** The loop of `cosineSimilarity`: the three sums accumulate together, one element at a time. */
  method CosineSimilarity(a: Vector, b: Vector) returns (sim: Similarity)
    ensures sim == Cosine(a, b)
  {
    if |a| != |b| {
      return Zero;
    }
    var dotProduct, normA, normB := 0.0, 0.0, 0.0;
    for i := 0 to |a|
      invariant dotProduct == Dot(a[..i], b[..i])
      invariant normA == Dot(a[..i], a[..i])
      invariant normB == Dot(b[..i], b[..i])
    {
      assert a[..i + 1][..i] == a[..i] && b[..i + 1][..i] == b[..i];
      dotProduct := dotProduct + a[i] * b[i];
      normA := normA + a[i] * a[i];
      normB := normB + b[i] * b[i];
    }
    assert a[..|a|] == a && b[..|b|] == b;
    if normA == 0.0 || normB == 0.0 {
      sim := Zero;
    } else {
      sim := Ratio(dotProduct, normA * normB);
    }
  }

  lemma {:induction false} DotSymmetric(a: Vector, b: Vector)
    requires |a| == |b|
    ensures Dot(a, b) == Dot(b, a)
  {
    if |a| > 0 {
      DotSymmetric(a[..|a| - 1], b[..|b| - 1]);
    }
  }

  /** The similarity does not depend on the order of its arguments. */
  lemma CosineSymmetric(a: Vector, b: Vector)
    ensures Cosine(a, b) == Cosine(b, a)
  {
    if |a| == |b| {
      DotSymmetric(a, b);
      assert Dot(a, a) * Dot(b, b) == Dot(b, b) * Dot(a, a);
    }
  }

  /** `x * y` for `x == y` non-zero is positive. */
  lemma ProductOfEqualPositive(x: real, y: real)
    requires x == y && x != 0.0
    ensures x * y > 0.0
  {
    if x > 0.0 {
      assert x * y > 0.0 * y;
    } else {
      assert (-x) * (-y) > 0.0 * (-y);
    }
  }

  /** The squared norm, written `Dot(a, b)` with `a == b`. */
  lemma {:induction false} NormSquared(a: Vector, b: Vector)
    requires a == b
    ensures Dot(a, b) >= 0.0
    ensures Dot(a, b) == 0.0 <==> forall i :: 0 <= i < |a| ==> a[i] == 0.0
  {
    if |a| > 0 {
      var initA, initB := a[..|a| - 1], b[..|b| - 1];
      NormSquared(initA, initB);
      var x, y := a[|a| - 1], b[|b| - 1];
      if x != 0.0 {
        ProductOfEqualPositive(x, y);
      }
      assert Dot(a, b) == Dot(initA, initB) + x * y;
      if Dot(a, b) == 0.0 {
        assert x == 0.0;
        forall i | 0 <= i < |a| ensures a[i] == 0.0 {
          if i < |initA| {
            assert a[i] == initA[i];
          }
        }
      } else if x == 0.0 {
        var i :| 0 <= i < |initA| && initA[i] != 0.0;
        assert a[i] == initA[i];
      }
    }
  }

  /** A squared norm is never negative, and it is 0 exactly for the zero vector. */
  lemma DotSelfNonNegative(a: Vector)
    ensures Dot(a, a) >= 0.0
    ensures Dot(a, a) == 0.0 <==> forall i :: 0 <= i < |a| ==> a[i] == 0.0
  {
    NormSquared(a, a);
  }

  /** A zero vector is similar to nothing: it scores 0 against every vector. */
  lemma CosineOfZeroVector(a: Vector, b: Vector)
    requires forall i :: 0 <= i < |a| ==> a[i] == 0.0
    ensures Cosine(a, b) == Zero
  {
    DotSelfNonNegative(a);
  }

  /** A non-zero vector against itself: the ratio `n / sqrt(n * n)` with `n > 0`, which is 1. */
  lemma CosineSelf(a: Vector)
    requires exists i :: 0 <= i < |a| && a[i] != 0.0
    ensures Cosine(a, a).Ratio? && Cosine(a, a).dot > 0.0
    ensures Cosine(a, a).normProduct == Cosine(a, a).dot * Cosine(a, a).dot
  {
    DotSelfNonNegative(a);
  }

  // ---------------------------------------------------------------------------
  // Retrieval
  // ---------------------------------------------------------------------------

  /**
   * A fetched chunk with its score: `pos` is its place in the fetch order,
   * `title` its document's title (`None` when the document is gone).
   */
  datatype Candidate = Candidate(pos: nat, chunk: ChunkRecord, title: Option<string>, similarity: real)

  /** `x` comes before `y` after the stable descending sort. */
  predicate Before(x: Candidate, y: Candidate) {
    x.similarity > y.similarity || (x.similarity == y.similarity && x.pos < y.pos)
  }

  /** Non-increasing similarity, ties in fetch order. */
  predicate Ranked(s: seq<Candidate>) {
    forall i, j :: 0 <= i < j < |s| ==> Before(s[i], s[j])
  }

  predicate DistinctPositions(s: seq<Candidate>) {
    forall i, j :: 0 <= i < j < |s| ==> s[i].pos != s[j].pos
  }

  function Insert(x: Candidate, s: seq<Candidate>): (r: seq<Candidate>)
    requires Ranked(s)
    requires forall i :: 0 <= i < |s| ==> s[i].pos != x.pos
    ensures Ranked(r)
    ensures multiset(r) == multiset(s) + multiset{x}
    ensures |r| == |s| + 1
  {
    if s == [] then [x]
    else if Before(s[0], x) then
      var rest := Insert(x, s[1..]);
      assert s == [s[0]] + s[1..];
      InsertHead(s[0], x, s[1..], rest);
      [s[0]] + rest
    else
      assert s == [s[0]] + s[1..];
      [x] + s
  }

  /** Putting `y` in front of the insertion into `s` keeps the ranking when `y` comes before all of it. */
  lemma InsertHead(y: Candidate, x: Candidate, s: seq<Candidate>, rest: seq<Candidate>)
    requires Ranked([y] + s) && Before(y, x) && Ranked(rest)
    requires multiset(rest) == multiset(s) + multiset{x}
    ensures Ranked([y] + rest)
    ensures multiset([y] + rest) == multiset([y] + s) + multiset{x}
  {
    forall k | 0 <= k < |rest| ensures Before(y, rest[k]) {
      assert rest[k] in multiset(rest);
      if rest[k] != x {
        assert rest[k] in multiset(s);
        var m :| 0 <= m < |s| && s[m] == rest[k];
        assert ([y] + s)[0] == y && ([y] + s)[m + 1] == s[m];
      }
    }
  }

  /** `scored.sort((a, b) => b.similarity - a.similarity)`: JavaScript's sort is stable. */
  function SortBySimilarity(s: seq<Candidate>): (r: seq<Candidate>)
    requires DistinctPositions(s)
    ensures Ranked(r)
    ensures multiset(r) == multiset(s)
    ensures |r| == |s|
  {
    if s == [] then []
    else
      var init := s[..|s| - 1];
      assert s == init + [s[|s| - 1]];
      var sorted := SortBySimilarity(init);
      forall i | 0 <= i < |sorted| ensures sorted[i].pos != s[|s| - 1].pos {
        assert sorted[i] in multiset(init);
      }
      Insert(s[|s| - 1], sorted)
  }

  /** The chunks stored for `team`, in fetch order. */
  function TeamChunks(chunks: seq<ChunkRecord>, team: TeamId): (r: seq<ChunkRecord>)
    ensures forall i :: 0 <= i < |r| ==> r[i].team == team && r[i] in chunks
    ensures forall i :: 0 <= i < |chunks| && chunks[i].team == team ==> chunks[i] in r
  {
    Filter(chunks, (c: ChunkRecord) => c.team == team)
  }

  /** The team's chunks paired with their fetch position, title and score. */
  function Score(fetched: seq<ChunkRecord>, titleOf: DocId -> Option<string>, score: Vector -> real): (r: seq<Candidate>)
    ensures |r| == |fetched| && DistinctPositions(r)
    ensures forall i :: 0 <= i < |r| ==> r[i].pos == i && r[i].chunk == fetched[i]
  {
    seq(|fetched|, i requires 0 <= i < |fetched| =>
      Candidate(i, fetched[i], titleOf(fetched[i].document), score(fetched[i].embedding)))
  }

  /**
   * `findRelevantChunks(query, team, topK)`: the team's chunks, best score
   * first, ties in fetch order, cut to `topK`. `score` stands for the cosine
   * similarity of the query embedding and a chunk's embedding.
   */
  function FindRelevantChunks(chunks: seq<ChunkRecord>, team: TeamId, titleOf: DocId -> Option<string>,
                              score: Vector -> real, topK: nat): (r: seq<Candidate>)
    ensures |r| == Min(|TeamChunks(chunks, team)|, topK)
    ensures forall i :: 0 <= i < |r| ==> r[i].chunk.team == team && r[i].chunk in chunks
    ensures Ranked(r)
    ensures multiset(r) <= multiset(Score(TeamChunks(chunks, team), titleOf, score))
    ensures forall x, i :: x in multiset(Score(TeamChunks(chunks, team), titleOf, score)) - multiset(r) && 0 <= i < |r| ==> Before(r[i], x)
  {
    var candidates := Score(TeamChunks(chunks, team), titleOf, score);
    TopOf(candidates, topK);
    var r := SortBySimilarity(candidates)[..Min(|candidates|, topK)];
    forall i | 0 <= i < |r| ensures r[i].chunk.team == team && r[i].chunk in chunks {
      var j :| 0 <= j < |candidates| && candidates[j] == r[i];
    }
    r
  }

  /** The first `k` of the sorted candidates: ranked, drawn from the candidates, and ahead of every one left out. */
  lemma TopOf(c: seq<Candidate>, k: nat)
    requires DistinctPositions(c)
    ensures var r := SortBySimilarity(c)[..Min(|c|, k)];
      && |r| == Min(|c|, k)
      && Ranked(r)
      && (forall i :: 0 <= i < |r| ==> r[i] in c)
      && multiset(r) <= multiset(c)
      && (forall x, i :: x in multiset(c) - multiset(r) && 0 <= i < |r| ==> Before(r[i], x))
  {
    var sorted := SortBySimilarity(c);
    var r := sorted[..Min(|c|, k)];
    RankedCut(sorted, Min(|c|, k));
    forall i | 0 <= i < |r| ensures r[i] in c {
      assert r[i] in multiset(sorted);
    }
  }

  /** Cutting a ranked list keeps a part of it, and whatever is cut off ranks after whatever is kept. */
  lemma RankedCut(s: seq<Candidate>, k: nat)
    requires Ranked(s) && k <= |s|
    ensures multiset(s[..k]) <= multiset(s)
    ensures forall x, i :: x in multiset(s) - multiset(s[..k]) && 0 <= i < k ==> Before(s[i], x)
  {
    assert s == s[..k] + s[k..];
    assert multiset(s) == multiset(s[..k]) + multiset(s[k..]);
    forall x, i | x in multiset(s) - multiset(s[..k]) && 0 <= i < k ensures Before(s[i], x) {
      assert x in multiset(s[k..]);
      var j :| 0 <= j < |s[k..]| && s[k..][j] == x;
      assert s[k + j] == x;
    }
  }

  /** A team without chunks retrieves nothing. */
  lemma NoChunksNoRetrieval(chunks: seq<ChunkRecord>, team: TeamId, titleOf: DocId -> Option<string>,
                            score: Vector -> real, topK: nat)
    requires forall i :: 0 <= i < |chunks| ==> chunks[i].team != team
    ensures FindRelevantChunks(chunks, team, titleOf, score, topK) == []
  {
  }

  /**
   * Every team chunk left out of the answer ranks after every chunk in it:
   * the answer is the head of the full ranking.
   */
  lemma RetrievalKeepsTheBest(chunks: seq<ChunkRecord>, team: TeamId, titleOf: DocId -> Option<string>,
                              score: Vector -> real, topK: nat, c: Candidate)
    requires c in Score(TeamChunks(chunks, team), titleOf, score)
    requires c !in FindRelevantChunks(chunks, team, titleOf, score, topK)
    ensures forall i :: 0 <= i < |FindRelevantChunks(chunks, team, titleOf, score, topK)| ==>
      Before(FindRelevantChunks(chunks, team, titleOf, score, topK)[i], c)
  {
    var candidates := Score(TeamChunks(chunks, team), titleOf, score);
    var sorted := SortBySimilarity(candidates);
    var r := FindRelevantChunks(chunks, team, titleOf, score, topK);
    assert r == sorted[..|r|];
    assert c in multiset(sorted);
    var m :| 0 <= m < |sorted| && sorted[m] == c;
  }

  /**
   * The score `findRelevantChunks` gives a chunk: the cosine similarity of the
   * query embedding and the chunk's embedding, as the number `value` assigns
   * to it. The number itself is left to `value`.
   */
  function ScoreAgainst(query: Vector, value: Similarity -> real): Vector -> real {
    (v: Vector) => value(Cosine(query, v))
  }

  /** A chunk scores against the query as the query would score against the chunk. */
  lemma ScoreAgainstSymmetric(query: Vector, v: Vector, value: Similarity -> real)
    ensures ScoreAgainst(query, value)(v) == ScoreAgainst(v, value)(query)
  {
    CosineSymmetric(query, v);
  }

  // ---------------------------------------------------------------------------
  // Context and sources
  // ---------------------------------------------------------------------------

  const UnknownDocument: string := "Unknown Document"
  const ContextSeparator: string := "\n\n---\n\n"

  /** `chunk.document?.title || 'Unknown Document'`: a missing or empty title reads as unknown. */
  function DisplayTitle(title: Option<string>): (r: string)
    ensures r != []
    ensures title.Some? && title.value != [] ==> r == title.value
    ensures title.None? || title.value == [] ==> r == UnknownDocument
  {
    if title.Some? && title.value != [] then title.value else UnknownDocument
  }

  /** The block for the `k`-th source (1-based): a header line with the title, then the chunk text. */
  function SourceBlock(k: nat, c: Candidate): (r: string)
    ensures StartsWith(r, "[Source " + NatToString(k) + ": \"" + DisplayTitle(c.title))
    ensures EndsWith(r, "\"]\n" + c.chunk.text)
    ensures |r| == |NatToString(k)| + |DisplayTitle(c.title)| + |c.chunk.text| + 14
  {
    var head := "[Source " + NatToString(k) + ": \"" + DisplayTitle(c.title);
    var tail := "\"]\n" + c.chunk.text;
    Concatenated(head, tail);
    head + tail
  }

  function SourceBlocks(chunks: seq<Candidate>): (blocks: seq<string>)
    ensures |blocks| == |chunks|
    ensures forall i :: 0 <= i < |chunks| ==> blocks[i] == SourceBlock(i + 1, chunks[i])
  {
    seq(|chunks|, i requires 0 <= i < |chunks| => SourceBlock(i + 1, chunks[i]))
  }

  /** `buildContext(chunks)`: `None` (null) exactly for no chunks, else the blocks joined by the separator. */
  function BuildContext(chunks: seq<Candidate>): (r: Option<string>)
    ensures r.None? <==> chunks == []
  {
    if chunks == [] then None else Some(Join(SourceBlocks(chunks), ContextSeparator))
  }

  /** The context of one chunk is its block, numbered 1. */
  lemma BuildContextSingle(c: Candidate)
    ensures BuildContext([c]) == Some(SourceBlock(1, c))
  {
  }

  /**
   * Adding a chunk at the end adds the separator and its block, numbered one
   * past the chunks before it; with `BuildContextSingle` this fixes the whole
   * context block by block.
   */
  lemma BuildContextSnoc(chunks: seq<Candidate>, c: Candidate)
    requires chunks != []
    ensures BuildContext(chunks + [c]) == Some(BuildContext(chunks).value + ContextSeparator + SourceBlock(|chunks| + 1, c))
  {
    assert SourceBlocks(chunks + [c]) == SourceBlocks(chunks) + [SourceBlock(|chunks| + 1, c)];
    JoinSnoc(SourceBlocks(chunks), SourceBlock(|chunks| + 1, c), ContextSeparator);
  }

  /** The non-empty titles of the chunks, in order, repeats included. */
  function KnownTitles(chunks: seq<Candidate>): (titles: seq<string>)
    ensures forall t :: t in titles ==> t != [] && exists i :: 0 <= i < |chunks| && chunks[i].title == Some(t)
    ensures forall i :: 0 <= i < |chunks| && chunks[i].title.Some? && chunks[i].title.value != [] ==>
      chunks[i].title.value in titles
  {
    if chunks == [] then []
    else
      var rest := KnownTitles(chunks[1..]);
      assert forall t :: t in rest ==> exists i :: 0 <= i < |chunks| && chunks[i].title == Some(t) by {
        forall t | t in rest ensures exists i :: 0 <= i < |chunks| && chunks[i].title == Some(t) {
          var i :| 0 <= i < |chunks[1..]| && chunks[1..][i].title == Some(t);
          assert chunks[i + 1].title == Some(t);
        }
      }
      assert forall i :: 1 <= i < |chunks| ==> chunks[i] == chunks[1..][i - 1];
      var title := chunks[0].title;
      if title.Some? && title.value != [] then [title.value] + rest else rest
  }

  /**
   * `[...new Set(chunks.map(c => c.document?.title).filter(Boolean))]`:
   * every non-empty title once, and nothing else.
   */
  function SourceTitles(chunks: seq<Candidate>): (r: seq<string>)
    ensures NoDup(r)
    ensures forall t :: t in r ==> t != [] && exists i :: 0 <= i < |chunks| && chunks[i].title == Some(t)
    ensures forall i :: 0 <= i < |chunks| && chunks[i].title.Some? && chunks[i].title.value != [] ==>
      chunks[i].title.value in r
  {
    var titles := KnownTitles(chunks);
    var r := Dedup(titles);
    assert forall t :: t in r ==> t in titles by {
      forall t | t in r ensures t in titles {
        var i :| 0 <= i < |r| && r[i] == t;
      }
    }
    assert forall t :: t in titles ==> t in r by {
      forall t | t in titles ensures t in r {
        var i :| 0 <= i < |titles| && titles[i] == t;
      }
    }
    r
  }

  /** The titles keep the order in which they first appear among the chunks. */
  lemma SourceTitlesFirstOccurrenceOrder(chunks: seq<Candidate>, i: nat, j: nat)
    requires i < j < |SourceTitles(chunks)|
    ensures FirstIndex(KnownTitles(chunks), SourceTitles(chunks)[i]) < FirstIndex(KnownTitles(chunks), SourceTitles(chunks)[j])
  {
    DedupFirstOccurrenceOrder(KnownTitles(chunks), i, j);
  }

  // ---------------------------------------------------------------------------
  // History and prompt
  // ---------------------------------------------------------------------------

  /** A message of the conversation as the client sends it: `type` and `content`. */
  datatype HistoryEntry = HistoryEntry(kind: string, content: string)

  datatype Role = UserRole | ModelRole

  /** A turn of the conversation as the model receives it. */
  datatype Turn = Turn(role: Role, text: string)

  /** The note an older client appended to every question. */
  const BriefNote: string := BriefNoteBody + ")"
  const BriefNoteBody: string := BriefNoteOpening + BriefNoteRequest
  const BriefNoteOpening: string := "\n\n(Please keep your response"
  const BriefNoteRequest: string := " to 3 sentences or less"

  /** One history entry, cleaned: every copy of the note removed, then trimmed. */
  function CleanTurn(entry: HistoryEntry): (t: Turn)
    ensures t.role == UserRole <==> entry.kind == "user"
    ensures Trimmed(t.text)
    ensures !Contains(entry.content, BriefNote) ==> t.text == Trim(entry.content)
  {
    var role := if entry.kind == "user" then UserRole else ModelRole;
    Turn(role, Trim(RemoveAll(entry.content, BriefNote)))
  }

  /** The note's closing parenthesis occurs nowhere earlier in it. */
  lemma BriefNoteOpeningLacksParen() ensures ')' !in BriefNoteOpening { }
  lemma BriefNoteRequestLacksParen() ensures ')' !in BriefNoteRequest { }

  lemma BriefNoteEndsUniquely()
    ensures BriefNote[|BriefNote| - 1] !in BriefNote[..|BriefNote| - 1]
  {
    BriefNoteOpeningLacksParen();
    BriefNoteRequestLacksParen();
    assert BriefNote[..|BriefNote| - 1] == BriefNoteBody;
  }

  /** A question the older client sent, with the note appended once, is cleaned back to the question itself. */
  lemma CleanTurnDropsNote(kind: string, question: string)
    requires !Contains(question, BriefNote)
    ensures CleanTurn(HistoryEntry(kind, question + BriefNote)).text == Trim(question)
  {
    BriefNoteEndsUniquely();
    RemoveAllAppended(question, BriefNote);
  }

  /**
   * Every copy of the note is dropped, wherever it stands: texts without the
   * note, joined by it, are cleaned to the same texts run together, trimmed.
   */
  lemma CleanTurnDropsEveryNote(kind: string, pieces: seq<string>)
    requires forall i :: 0 <= i < |pieces| ==> !Contains(pieces[i], BriefNote)
    ensures CleanTurn(HistoryEntry(kind, Join(pieces, BriefNote))).text == Trim(Concat(pieces))
  {
    BriefNoteEndsUniquely();
    RemoveAllJoined(pieces, BriefNote);
  }

  function CleanHistory(history: seq<HistoryEntry>): (turns: seq<Turn>)
    ensures |turns| == |history|
    ensures forall i :: 0 <= i < |history| ==> turns[i] == CleanTurn(history[i])
  {
    seq(|history|, i requires 0 <= i < |history| => CleanTurn(history[i]))
  }

  /** `x || 'N/A'`. */
  function OrNotAvailable(s: string): string {
    if s == [] then "N/A" else s
  }

  /** One line of the member list: name, role (or `Member`) and e-mail. */
  function MemberLine(u: User): (r: string)
    ensures StartsWith(r, "- " + u.fullName + " (")
    ensures EndsWith(r, ") - " + u.email)
    ensures Contains(r, if u.role == [] then "Member" else u.role)
    ensures |r| == |u.fullName| + |if u.role == [] then "Member" else u.role| + |u.email| + 8
  {
    var head := "- " + u.fullName + " (";
    var role := if u.role == [] then "Member" else u.role;
    var tail := ") - " + u.email;
    Concatenated(head, role + tail);
    Concatenated(head + role, tail);
    ContainsMiddle(head, role, tail);
    head + role + tail
  }

  /** The team and its members, as the team information block shows them. */
  datatype TeamBrief = TeamBrief(team: Team, members: seq<User>)

  /** The team information block; the indentation is part of the template. */
  function TeamContext(brief: TeamBrief): (r: string)
    ensures r != []
  {
    "\n        TEAM INFORMATION:"
    + "\n        Name: " + brief.team.name
    + "\n        Description: " + OrNotAvailable(brief.team.description)
    + "\n        Mission: " + OrNotAvailable(brief.team.mission)
    + "\n        Standup Time: " + OrNotAvailable(brief.team.standupTime)
    + "\n        Timezone: " + OrNotAvailable(brief.team.timezone)
    + "\n        Members:"
    + "\n        " + Join(seq(|brief.members|, i requires 0 <= i < |brief.members| => MemberLine(brief.members[i])), "\n")
    + "\n        "
  }

  /**
   * The prompt sent to the model, before rendering: the grounded prompt with
   * the team information (`None` renders as `""`) and the document context,
   * or the plain prompt.
   */
  datatype Prompt =
    | Grounded(teamContext: Option<TeamBrief>, context: Option<string>, message: string)
    | Plain(message: string)

  const NoDocumentsFound: string := "No relevant documents found."

  const GroundedIntro: string :=
    "You are a helpful assistant for a team knowledge base. Use the following context to answer the question.\n\n"
  const ContextHeader: string := "\n\nCONTEXT FROM TEAM DOCUMENTS:\n"
  const QuestionHeader: string := "\n\nUSER QUESTION:\n"
  const GroundedTail: string :=
    "\n\nPlease provide a helpful and accurate answer. If you're using information from the context, you don't need to cite the specific source names."
  const PlainTail: string := "\n\n(Please keep your response concise and helpful)"

  /** `${teamContext}`: the team information block, or nothing. */
  function TeamText(teamContext: Option<TeamBrief>): (r: string)
    ensures r == [] <==> teamContext.None?
  {
    if teamContext.Some? then TeamContext(teamContext.value) else ""
  }

  /** `${relevantContext || 'No relevant documents found.'}`. */
  function ContextText(context: Option<string>): (r: string)
    ensures r != []
    ensures context.Some? && context.value != [] ==> r == context.value
  {
    if context.Some? && context.value != [] then context.value else NoDocumentsFound
  }

  /** The grounded prompt's text before the question: the instructions, the team information and the context. */
  function GroundedHead(teamContext: Option<TeamBrief>, context: Option<string>): string {
    GroundedIntro + TeamText(teamContext) + ContextHeader + ContextText(context) + QuestionHeader
  }

  /**
   * The exact text of a prompt. The plain prompt is the question followed by
   * the request to be concise. The grounded prompt opens with the
   * instructions, holds the team information (when there is a team), the
   * context under its header (or the sentence saying no document was found),
   * and ends with the question under its header and the closing request.
   */
  function PromptText(prompt: Prompt): (r: string)
    ensures prompt.Plain? ==> StartsWith(r, prompt.message) && EndsWith(r, PlainTail) && |r| == |prompt.message| + |PlainTail|
    ensures prompt.Grounded? ==>
      && StartsWith(r, GroundedIntro)
      && EndsWith(r, QuestionHeader + prompt.message + GroundedTail)
      && Contains(r, ContextHeader + ContextText(prompt.context))
      && Contains(r, TeamText(prompt.teamContext))
  {
    match prompt
    case Plain(message) =>
      Concatenated(message, PlainTail);
      message + PlainTail
    case Grounded(teamContext, context, message) =>
      GroundedParts(GroundedIntro, TeamText(teamContext), ContextHeader, ContextText(context), QuestionHeader, message, GroundedTail);
      GroundedHead(teamContext, context) + message + GroundedTail
  }

  /** Where each part of a seven-part concatenation lies in it. */
  lemma GroundedParts(intro: string, team: string, header: string, context: string, question: string, message: string, tail: string)
    ensures var r := intro + team + header + context + question + message + tail;
      && StartsWith(r, intro)
      && EndsWith(r, question + message + tail)
      && Contains(r, header + context)
      && Contains(r, team)
  {
    var found := header + context;
    var last := question + message + tail;
    var r := intro + team + header + context + question + message + tail;
    assert r == (intro + team + found) + last;
    assert r == (intro + team) + found + last;
    assert r == intro + team + (found + last);
    assert r == intro + (team + found + last);
    Concatenated(intro, team + found + last);
    Concatenated(intro + team + found, last);
    ContainsMiddle(intro + team, found, last);
    ContainsMiddle(intro, team, found + last);
  }

  // ---------------------------------------------------------------------------
  // POST /api/chat
  // ---------------------------------------------------------------------------

  datatype ChatRequest = ChatRequest(message: string, history: seq<HistoryEntry>, teamId: Option<TeamId>)

  /** The body of the answer; `sources` is left out of the JSON when `None`. */
  datatype ChatResponse =
    | Reply(text: string, sources: Option<seq<string>>)
    | Error(status: nat, error: string, details: Option<string>)

  /** The calls the handler makes to the external model service, in order. */
  datatype ServiceCall = EmbedQuery(text: string) | SendMessage(history: seq<Turn>, prompt: Prompt)

  const MessageRequired: string := "Message is required"
  const TeamNotFound: string := "Team not found"
  const NotAuthorized: string := "Not authorized to access this team's knowledge"
  const EmptyReply: string := "Received empty response from AI"
  const EmptyReplyDetails: string := "The AI returned a blank response. Please try rephrasing your question."
  const GenerationFailed: string := "Failed to generate response"

  /** The retrieval depth the handler asks for. */
  const TopK: nat := 5

  /** `populate('members')`: the members whose user record exists, in order. */
  function PopulatedMembers(team: Team, users: map<UserId, User>): (ids: seq<UserId>)
    ensures forall i :: 0 <= i < |ids| ==> ids[i] in users && ids[i] in team.members
    ensures forall u :: u in team.members && u in users ==> u in ids
  {
    Filter(team.members, (u: UserId) => u in users)
  }

  function MemberUsers(ids: seq<UserId>, users: map<UserId, User>): seq<User>
    requires forall i :: 0 <= i < |ids| ==> ids[i] in users
  {
    seq(|ids|, i requires 0 <= i < |ids| => users[ids[i]])
  }

  /** The request passes the checks: a message, and for a team, an existing team the requester belongs to. */
  predicate Admitted(request: ChatRequest, requester: UserId, teams: map<TeamId, Team>, users: map<UserId, User>) {
    && request.message != []
    && (request.teamId.Some? ==>
          request.teamId.value in teams && requester in PopulatedMembers(teams[request.teamId.value], users))
  }

  /**
   * The chunks retrieval yields for a question in a team: none when embedding
   * the question fails, since the failure is swallowed.
   */
  function Retrieved(message: string, team: TeamId, chunks: seq<ChunkRecord>, titleOf: DocId -> Option<string>,
                     embedQuery: string -> Option<Vector>, value: Similarity -> real): (r: seq<Candidate>)
    ensures embedQuery(message).None? ==> r == []
    ensures |r| <= TopK
    ensures forall i :: 0 <= i < |r| ==> r[i].chunk.team == team && r[i].chunk in chunks
    ensures Ranked(r)
  {
    var q := embedQuery(message);
    if q.None? then []
    else FindRelevantChunks(chunks, team, titleOf, ScoreAgainst(q.value, value), TopK)
  }

  /**
   * The retrieval step of the handler: embed the question, rank the team's
   * chunks, and build the context and source list from the best ones. A
   * failed embedding leaves the context `None` and the sources empty.
   */
  method RetrieveContext(message: string, team: TeamId, chunks: seq<ChunkRecord>, titleOf: DocId -> Option<string>,
                         embedQuery: string -> Option<Vector>, value: Similarity -> real)
    returns (relevantContext: Option<string>, sourceDocs: seq<string>)
    ensures relevantContext == BuildContext(Retrieved(message, team, chunks, titleOf, embedQuery, value))
    ensures sourceDocs == SourceTitles(Retrieved(message, team, chunks, titleOf, embedQuery, value))
    ensures embedQuery(message).None? ==> relevantContext.None? && sourceDocs == []
  {
    relevantContext, sourceDocs := None, [];
    var queryEmbedding := embedQuery(message);
    if queryEmbedding.Some? {
      var relevantChunks := FindRelevantChunks(chunks, team, titleOf, ScoreAgainst(queryEmbedding.value, value), TopK);
      if |relevantChunks| > 0 {
        relevantContext := BuildContext(relevantChunks);
        sourceDocs := SourceTitles(relevantChunks);
      }
    }
  }

  /**
   * The answer the handler gives for the model's outcome: a thrown error is a
   * 500 with its message, a blank reply a 500 with fixed details, anything
   * else the reply with the sources, which are left out when there are none.
   */
  function Answer(answer: Result<string, string>, sources: seq<string>): (r: ChatResponse)
    ensures r.Reply? <==> answer.Success? && !IsBlank(answer.value)
    ensures r.Reply? ==> r.text == answer.value && (r.sources.None? <==> sources == [])
    ensures r.Reply? && r.sources.Some? ==> r.sources.value == sources
    ensures r.Error? ==> r.status == 500
    ensures answer.Failure? ==> r == Error(500, GenerationFailed, Some(answer.error))
  {
    if answer.Failure? then Error(500, GenerationFailed, Some(answer.error))
    else if IsBlank(answer.value) then Error(500, EmptyReply, Some(EmptyReplyDetails))
    else Reply(answer.value, if sources == [] then None else Some(sources))
  }

  /** The team information for an admitted request, `None` without a team. */
  function TeamBriefFor(request: ChatRequest, requester: UserId, teams: map<TeamId, Team>, users: map<UserId, User>): Option<TeamBrief>
    requires Admitted(request, requester, teams, users)
  {
    if request.teamId.None? then None
    else
      var team := teams[request.teamId.value];
      Some(TeamBrief(team, MemberUsers(PopulatedMembers(team, users), users)))
  }

  /** The prompt for an admitted request: grounded with a team, plain without. */
  function PromptFor(request: ChatRequest, requester: UserId, teams: map<TeamId, Team>, users: map<UserId, User>,
                     chunks: seq<ChunkRecord>, titleOf: DocId -> Option<string>,
                     embedQuery: string -> Option<Vector>, value: Similarity -> real): (prompt: Prompt)
    requires Admitted(request, requester, teams, users)
    ensures prompt.Plain? <==> request.teamId.None?
    ensures prompt.message == request.message
  {
    if request.teamId.None? then Plain(request.message)
    else
      var retrieved := Retrieved(request.message, request.teamId.value, chunks, titleOf, embedQuery, value);
      Grounded(TeamBriefFor(request, requester, teams, users), BuildContext(retrieved), request.message)
  }

  /** The sources for an admitted request. */
  function SourcesFor(request: ChatRequest, chunks: seq<ChunkRecord>, titleOf: DocId -> Option<string>,
                      embedQuery: string -> Option<Vector>, value: Similarity -> real): (r: seq<string>)
    ensures request.teamId.None? ==> r == []
    ensures NoDup(r)
    ensures forall t :: t in r ==> t != []
  {
    if request.teamId.None? then []
    else SourceTitles(Retrieved(request.message, request.teamId.value, chunks, titleOf, embedQuery, value))
  }

  /**
   * The handler after its checks: the team information and the retrieval (with
   * a team), the prompt, the model call and the answer. The grounded prompt is
   * chosen when the context or the team information is non-empty; the team
   * information is present exactly when its text is non-empty (`TeamContext`).
   */
  method AnswerAdmitted(request: ChatRequest, requester: UserId, teams: map<TeamId, Team>, users: map<UserId, User>,
                        chunks: seq<ChunkRecord>, titleOf: DocId -> Option<string>,
                        embedQuery: string -> Option<Vector>, value: Similarity -> real,
                        reply: (seq<Turn>, Prompt) -> Result<string, string>)
    returns (response: ChatResponse, calls: seq<ServiceCall>)
    requires Admitted(request, requester, teams, users)
    ensures var prompt := PromptFor(request, requester, teams, users, chunks, titleOf, embedQuery, value);
      && calls == (if request.teamId.Some? then [EmbedQuery(request.message)] else [])
                  + [SendMessage(CleanHistory(request.history), prompt)]
      && response == Answer(reply(CleanHistory(request.history), prompt), SourcesFor(request, chunks, titleOf, embedQuery, value))
  {
    calls := [];
    var relevantContext: Option<string> := None;
    var sourceDocs: seq<string> := [];
    var teamContext: Option<TeamBrief> := None;
    if request.teamId.Some? {
      var teamId := request.teamId.value;
      var team := teams[teamId];
      teamContext := Some(TeamBrief(team, MemberUsers(PopulatedMembers(team, users), users)));
      calls := calls + [EmbedQuery(request.message)];
      relevantContext, sourceDocs := RetrieveContext(request.message, teamId, chunks, titleOf, embedQuery, value);
    }
    var history := CleanHistory(request.history);
    var finalPrompt;
    if (relevantContext.Some? && relevantContext.value != []) || teamContext.Some? {
      finalPrompt := Grounded(teamContext, relevantContext, request.message);
    } else {
      finalPrompt := Plain(request.message);
    }
    calls := calls + [SendMessage(history, finalPrompt)];
    response := Answer(reply(history, finalPrompt), sourceDocs);
  }

  /**
   * The handler. The model service is two oracles: `embedQuery` (the question's
   * embedding, `None` when the call throws) and `reply` (the model's text for
   * the history and the rendered prompt, or the thrown error's message). The
   * request runs on one snapshot of the teams, users and chunks.
   */
  method ChatPost(request: ChatRequest, requester: UserId, teams: map<TeamId, Team>, users: map<UserId, User>,
                  chunks: seq<ChunkRecord>, titleOf: DocId -> Option<string>,
                  embedQuery: string -> Option<Vector>, value: Similarity -> real,
                  reply: (seq<Turn>, Prompt) -> Result<string, string>)
    returns (response: ChatResponse, calls: seq<ServiceCall>)
    // the checks, in order, and none of them calls the service
    ensures request.message == [] ==> response == Error(400, MessageRequired, None) && calls == []
    ensures (request.message != [] && request.teamId.Some? && request.teamId.value !in teams) ==>
      response == Error(404, TeamNotFound, None) && calls == []
    ensures (request.message != [] && request.teamId.Some? && request.teamId.value in teams
             && requester !in PopulatedMembers(teams[request.teamId.value], users)) ==>
      response == Error(403, NotAuthorized, None) && calls == []
    // an admitted request embeds the question (with a team), then sends one prompt
    ensures Admitted(request, requester, teams, users) ==>
      var prompt := PromptFor(request, requester, teams, users, chunks, titleOf, embedQuery, value);
      && calls == (if request.teamId.Some? then [EmbedQuery(request.message)] else [])
                  + [SendMessage(CleanHistory(request.history), prompt)]
      && response == Answer(reply(CleanHistory(request.history), prompt), SourcesFor(request, chunks, titleOf, embedQuery, value))
  {
    if request.message == [] {
      return Error(400, MessageRequired, None), [];
    }
    if request.teamId.Some? {
      var teamId := request.teamId.value;
      if teamId !in teams {
        return Error(404, TeamNotFound, None), [];
      }
      if requester !in PopulatedMembers(teams[teamId], users) {
        return Error(403, NotAuthorized, None), [];
      }
    }
    response, calls := AnswerAdmitted(request, requester, teams, users, chunks, titleOf, embedQuery, value, reply);
  }
}
