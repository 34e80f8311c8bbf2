/**
 * The document routes (server/routes/documents.js): upload with ingestion,
 * the membership-checked reads, the view counter and the creator-only delete.
 *
 * The documents and chunk collections are the fields of a `DocumentStore`;
 * the teams collection, which these routes only read, is a map passed in.
 * Documents are kept in creation order, so "newest first" is the reverse of
 * that order.
 */
module Documents {
  import opened Wrappers
  import opened Strings
  import opened Seqs
  import opened Records
  import opened FileNames
  import opened Embeddings
  import opened Notifications

  const TeamAndTitleRequired: string := "teamId and title are required"
  const FileRequired: string := "File is required"
  const OnlyPdfAllowed: string := "Only PDF files are allowed"
  const TeamNotFound: string := "Team not found"
  const NotAuthorizedToUpload: string := "Not authorized to upload to this team"
  const NotAuthorizedToList: string := "Not authorized to view this team's documents"
  const DocumentNotFound: string := "Document not found"
  const NotAuthorizedToView: string := "Not authorized to view this document"
  const NotAuthorizedToDownload: string := "Not authorized to download this document"
  const OnlyCreatorDeletes: string := "Only team creator can delete documents"
  const ContentNotAvailable: string := "File content not available"
  const PdfMimeType: string := "application/pdf"
  const DefaultRecentLimit: nat := 5

  /** The multipart file as multer hands it over; its buffer holds `size` bytes. */
  datatype UploadedFile = UploadedFile(originalName: string, mimetype: string, size: nat)

  /** The form fields of an upload; `teamId` is `None` when missing or empty. */
  datatype UploadRequest = UploadRequest(
    teamId: Option<TeamId>,
    title: string,
    tag: string,
    summary: string,
    file: Option<UploadedFile>)

  /** Accepted as a PDF by its declared type or by its name. */
  predicate IsPdf(file: UploadedFile) {
    file.mimetype == PdfMimeType || HasPdfSuffix(file.originalName)
  }

  /** The user belongs to the team stored under `teamId`. */
  predicate MemberOf(teams: map<TeamId, Team>, teamId: TeamId, user: UserId) {
    teamId in teams && IsMember(teams[teamId], user)
  }

  /** The checks of the upload handler, in order; `None` when the upload is admitted. */
  function UploadRejection(teams: map<TeamId, Team>, user: UserId, req: UploadRequest): (r: Option<Rejection>)
    ensures r.Some? ==> r.value.status in {400, 403, 404}
  {
    if req.teamId.None? || req.title == [] then Some(Rejection(400, TeamAndTitleRequired))
    else if req.file.None? then Some(Rejection(400, FileRequired))
    else if !IsPdf(req.file.value) then Some(Rejection(400, OnlyPdfAllowed))
    else if req.teamId.value !in teams then Some(Rejection(404, TeamNotFound))
    else if !IsMember(teams[req.teamId.value], user) then Some(Rejection(403, NotAuthorizedToUpload))
    else None
  }

  /**
   * An upload is admitted exactly when it names a team and a title, carries a
   * PDF, and comes from a member of an existing team; and a request failing an
   * earlier check gets that check's answer whatever else is wrong with it.
   */
  lemma UploadAdmission(teams: map<TeamId, Team>, user: UserId, req: UploadRequest)
    ensures UploadRejection(teams, user, req).None? <==>
      && req.teamId.Some? && req.title != []
      && req.file.Some? && IsPdf(req.file.value)
      && MemberOf(teams, req.teamId.value, user)
    ensures req.teamId.None? || req.title == [] ==> UploadRejection(teams, user, req) == Some(Rejection(400, TeamAndTitleRequired))
    ensures req.teamId.Some? && req.title != [] && req.file.None? ==> UploadRejection(teams, user, req) == Some(Rejection(400, FileRequired))
    ensures UploadRejection(teams, user, req).Some? && UploadRejection(teams, user, req).value.status != 400 ==>
      req.file.Some? && IsPdf(req.file.value)
  {
  }

  /** The text the PDF parser yields, when there is any: `extracted` is `None` when parsing throws. */
  function IngestedChunks(extracted: Option<string>, embed: Embedder): (r: seq<EmbeddedChunk>)
    ensures extracted.None? || IsBlank(extracted.value) ==> r == []
    ensures forall e :: e in r ==> e.text != [] && Trimmed(e.text) && |e.text| <= DefaultChunkSize
  {
    if extracted.Some? && !IsBlank(extracted.value) then
      IngestProperties(extracted.value, embed);
      SplitTextChunks(extracted.value, DefaultChunkSize, DefaultOverlap);
      Ingest(extracted.value, embed)
    else []
  }

  /** The chunk records written for the document `doc` of team `team`. */
  function ChunkRecords(doc: DocId, team: TeamId, embedded: seq<EmbeddedChunk>): (records: seq<ChunkRecord>)
    ensures |records| == |embedded|
  {
    seq(|embedded|, k requires 0 <= k < |embedded| =>
      ChunkRecord(doc, team, embedded[k].text, embedded[k].embedding, embedded[k].chunkIndex))
  }

  /** Each record mirrors one embedded chunk, position by position, under the given document and team. */
  lemma ChunkRecordsMirror(doc: DocId, team: TeamId, embedded: seq<EmbeddedChunk>)
    ensures var records := ChunkRecords(doc, team, embedded);
      && (forall r :: r in records ==>
            r.document == doc && r.team == team && EmbeddedChunk(r.text, r.embedding, r.chunkIndex) in embedded)
      && (forall k :: 0 <= k < |records| ==> records[k].chunkIndex == embedded[k].chunkIndex && records[k] in records)
  {
    var records := ChunkRecords(doc, team, embedded);
    forall r | r in records
      ensures EmbeddedChunk(r.text, r.embedding, r.chunkIndex) in embedded
    {
      var k :| 0 <= k < |records| && records[k] == r;
      assert embedded[k] == EmbeddedChunk(r.text, r.embedding, r.chunkIndex);
    }
  }

  /**
   * The records an upload writes: none for a failed or blank extraction;
   * otherwise one per chunk of the extracted text whose embedding succeeded,
   * each naming the new document and the upload's team, carrying that chunk's
   * text, vector and position, in increasing chunk order.
   */
  lemma UploadChunkRecords(doc: DocId, team: TeamId, extracted: Option<string>, embed: Embedder)
    ensures var records := ChunkRecords(doc, team, IngestedChunks(extracted, embed));
      && (extracted.None? || IsBlank(extracted.value) ==> records == [])
      && (forall r :: r in records ==> r.document == doc && r.team == team)
      && (extracted.Some? && !IsBlank(extracted.value) ==>
            var chunks := SplitText(extracted.value, DefaultChunkSize, DefaultOverlap);
            && |records| <= |chunks|
            && (forall r :: r in records ==>
                  && r.chunkIndex < |chunks|
                  && r.text == chunks[r.chunkIndex]
                  && embed(r.chunkIndex, r.text) == Some(r.embedding))
            && (forall k, l :: 0 <= k < l < |records| ==> records[k].chunkIndex < records[l].chunkIndex)
            && (forall i :: 0 <= i < |chunks| ==>
                  (embed(i, chunks[i]).Some? <==> (exists r :: r in records && r.chunkIndex == i))))
  {
    ChunkRecordsMirror(doc, team, IngestedChunks(extracted, embed));
    if extracted.Some? && !IsBlank(extracted.value) {
      TextChunkRecords(doc, team, extracted.value, embed);
    }
  }

  /** The records of an upload whose extracted text is not blank. */
  lemma TextChunkRecords(doc: DocId, team: TeamId, text: string, embed: Embedder)
    requires !IsBlank(text)
    ensures var records := ChunkRecords(doc, team, IngestedChunks(Some(text), embed));
      var chunks := SplitText(text, DefaultChunkSize, DefaultOverlap);
      && |records| <= |chunks|
      && (forall r :: r in records ==>
            && r.chunkIndex < |chunks|
            && r.text == chunks[r.chunkIndex]
            && embed(r.chunkIndex, r.text) == Some(r.embedding))
      && (forall k, l :: 0 <= k < l < |records| ==> records[k].chunkIndex < records[l].chunkIndex)
      && (forall i :: 0 <= i < |chunks| ==>
            (embed(i, chunks[i]).Some? <==> (exists r :: r in records && r.chunkIndex == i)))
  {
    var results := Ingest(text, embed);
    assert IngestedChunks(Some(text), embed) == results;
    IngestProperties(text, embed);
    RecordsOfResults(doc, team, results, SplitText(text, DefaultChunkSize, DefaultOverlap), embed);
  }

  /** Records mirror results: what holds of the embedding results holds of the records written for them. */
  lemma RecordsOfResults(doc: DocId, team: TeamId, results: seq<EmbeddedChunk>, chunks: seq<string>, embed: Embedder)
    requires |results| <= |chunks|
    requires forall r :: r in results ==>
      && r.chunkIndex < |chunks|
      && r.text == chunks[r.chunkIndex]
      && embed(r.chunkIndex, r.text) == Some(r.embedding)
    requires forall k, l :: 0 <= k < l < |results| ==> results[k].chunkIndex < results[l].chunkIndex
    requires forall i :: 0 <= i < |chunks| ==> (embed(i, chunks[i]).Some? <==> i in Indices(results))
    ensures var records := ChunkRecords(doc, team, results);
      && |records| <= |chunks|
      && (forall r :: r in records ==>
            && r.chunkIndex < |chunks|
            && r.text == chunks[r.chunkIndex]
            && embed(r.chunkIndex, r.text) == Some(r.embedding))
      && (forall k, l :: 0 <= k < l < |records| ==> records[k].chunkIndex < records[l].chunkIndex)
      && (forall i :: 0 <= i < |chunks| ==>
            (embed(i, chunks[i]).Some? <==> (exists r :: r in records && r.chunkIndex == i)))
  {
    var records := ChunkRecords(doc, team, results);
    ChunkRecordsMirror(doc, team, results);
    forall i | 0 <= i < |chunks| && embed(i, chunks[i]).Some?
      ensures exists r :: r in records && r.chunkIndex == i
    {
      var k :| 0 <= k < |results| && Indices(results)[k] == i;
      assert records[k] in records;
    }
  }

  /** The notification an upload creates. */
  function UploadNotice(doc: Document): (n: Notification)
    ensures n.team == doc.team && n.kind == DocumentUploaded && n.createdBy == doc.uploadedBy
    ensures n.relatedDocument == Some(doc.id) && n.relatedUser.None?
    ensures StartsWith(n.message, doc.title) && EndsWith(n.message, " was uploaded")
  {
    Concatenated(doc.title, " was uploaded");
    Notification(doc.team, DocumentUploaded, doc.title + " was uploaded", doc.uploadedBy, Some(doc.id), None)
  }

  /** No two stored documents share an id. */
  predicate UniqueIds(docs: seq<Document>) {
    && NoDup(docs)
    && forall d, e :: d in docs && e in docs && d.id == e.id ==> d == e
  }

  /** The position of the document with id `id`. */
  function Lookup(docs: seq<Document>, id: DocId): (r: Option<nat>)
    ensures r.Some? ==> r.value < |docs| && docs[r.value].id == id
    ensures r.None? ==> forall k :: 0 <= k < |docs| ==> docs[k].id != id
  {
    if docs == [] then None
    else if docs[|docs| - 1].id == id then Some(|docs| - 1)
    else Lookup(docs[..|docs| - 1], id)
  }

  /** With unique ids, the document found is the only one with that id. */
  lemma LookupUnique(docs: seq<Document>, id: DocId, k: nat)
    requires UniqueIds(docs)
    requires k < |docs| && docs[k].id == id
    ensures Lookup(docs, id) == Some(k)
  {
    var j := Lookup(docs, id).value;
    assert docs[j] in docs && docs[k] in docs;
  }

  /**
   * The checks shared by the view, preview and download handlers: the
   * document must exist (404), its team must exist (404), and the user must
   * be a member of it (403, with the handler's own message). On success, the
   * document's position.
   */
  function Access(teams: map<TeamId, Team>, docs: seq<Document>, user: UserId, id: DocId, denied: string): (r: Result<nat, Rejection>)
    ensures r.Success? ==> r.value < |docs| && docs[r.value].id == id && MemberOf(teams, docs[r.value].team, user)
    ensures r.Failure? ==> r.error in {Rejection(404, DocumentNotFound), Rejection(404, TeamNotFound), Rejection(403, denied)}
  {
    match Lookup(docs, id)
    case None => Failure(Rejection(404, DocumentNotFound))
    case Some(k) =>
      if docs[k].team !in teams then Failure(Rejection(404, TeamNotFound))
      else if !IsMember(teams[docs[k].team], user) then Failure(Rejection(403, denied))
      else Success(k)
  }

  /** A document can be read exactly by the members of its team; 403 is reserved for the stored document of an existing team. */
  lemma AccessIffMember(teams: map<TeamId, Team>, docs: seq<Document>, user: UserId, id: DocId, denied: string)
    requires UniqueIds(docs)
    ensures Access(teams, docs, user, id, denied).Success? <==>
      exists k :: 0 <= k < |docs| && docs[k].id == id && MemberOf(teams, docs[k].team, user)
    ensures Access(teams, docs, user, id, denied) == Failure(Rejection(403, denied)) ==>
      exists k :: 0 <= k < |docs| && docs[k].id == id && docs[k].team in teams && !IsMember(teams[docs[k].team], user)
  {
    if k :| 0 <= k < |docs| && docs[k].id == id && MemberOf(teams, docs[k].team, user) {
      LookupUnique(docs, id, k);
    }
  }

  /** `doc.fileName || doc.title`. */
  function NameOrTitle(doc: Document): (r: string)
    ensures doc.fileName != [] ==> r == doc.fileName
    ensures doc.fileName == [] ==> r == doc.title
    ensures r == [] <==> doc.fileName == [] && doc.title == []
  {
    if doc.fileName != [] then doc.fileName else doc.title
  }

  /** `fileName.replace(/"/g, '\\"')`: every double quote gets a backslash in front. */
  function EscapeQuotes(s: string): (r: string)
    ensures |r| >= |s|
    ensures r != [] ==> r[0] != '"'
    ensures forall i :: 0 <= i < |r| && r[i] == '"' ==> 0 < i && r[i - 1] == '\\'
  {
    if s == [] then []
    else
      var head := if s[0] == '"' then ['\\', '"'] else [s[0]];
      var tail := EscapeQuotes(s[1..]);
      assert forall i :: |head| <= i < |head + tail| ==> (head + tail)[i] == tail[i - |head|];
      head + tail
  }

  /**
   * How a header reader takes a quoted-string apart (section 3.2.6 of RFC
   * 7230): `s` is what follows the opening quote; the value ends at the first
   * quote that is not escaped, and a backslash stands for the character after
   * it, whatever that is.
   */
  function ReadQuoted(s: string): (r: string)
    ensures |r| <= |s|
  {
    if s == [] then []
    else if s[0] == '"' then []
    else if s[0] == '\\' && |s| >= 2 then [s[1]] + ReadQuoted(s[2..])
    else [s[0]] + ReadQuoted(s[1..])
  }

  /** An ordinary character is read as itself. */
  lemma ReadQuotedPlain(c: char, rest: string)
    requires c != '"' && c != '\\'
    ensures ReadQuoted([c] + rest) == [c] + ReadQuoted(rest)
  {
    assert ([c] + rest)[1..] == rest;
  }

  /** A backslash pair is read as its second character. */
  lemma ReadQuotedPair(c: char, rest: string)
    ensures ReadQuoted(['\\', c] + rest) == [c] + ReadQuoted(rest)
  {
    assert (['\\', c] + rest)[2..] == rest;
  }

  /** A name without backslashes, quote-escaped and closed, reads back as itself. */
  lemma {:induction false} ReadEscapedQuotes(name: string)
    requires '\\' !in name
    ensures ReadQuoted(EscapeQuotes(name) + "\"") == name
  {
    if name == [] {
      assert EscapeQuotes(name) + "\"" == "\"";
    } else {
      assert name == [name[0]] + name[1..];
      var rest := EscapeQuotes(name[1..]) + "\"";
      ReadEscapedQuotes(name[1..]);
      if name[0] == '"' {
        assert EscapeQuotes(name) + "\"" == ['\\', '"'] + rest;
        ReadQuotedPair('"', rest);
      } else {
        assert EscapeQuotes(name) + "\"" == [name[0]] + rest;
        ReadQuotedPlain(name[0], rest);
      }
    }
  }

  /** A backslash in the name is read as an escape: `a\b` comes back as `ab`. */
  lemma ReadEscapedBackslash()
    ensures EscapeQuotes("a\\b") == "a\\b"
    ensures ReadQuoted(EscapeQuotes("a\\b") + "\"") == "ab"
  {
    var s := "a\\b\"";
    assert EscapeQuotes("b") == "b";
    assert EscapeQuotes("\\b") == "\\b";
    assert EscapeQuotes("a\\b") == "a\\b";
    assert ReadQuoted(s[3..]) == [];
    assert ReadQuoted(s[1..]) == "b" by { assert s[1..][2..] == s[3..]; }
    assert ReadQuoted(s) == "ab";
  }

  /**
   * What the preview and download handlers send for a readable document: the
   * stored PDF inline or as an attachment, under the `.pdf` name (the
   * attachment also with the quote-escaped name); or, for a document without
   * content, the text summary named after the document.
   */
  datatype Delivery =
    | Inline(fileName: string)
    | Attachment(fileName: string, quotedName: string)
    | TextSummary(fileName: string)

  /** GET `/:id/preview` after the access checks. */
  function PreviewOf(doc: Document): (r: Result<Delivery, Rejection>)
    ensures r.Success? <==> doc.fileSize > 0
    ensures r.Success? ==> r.value.Inline? && HasPdfSuffix(r.value.fileName)
    ensures r.Success? ==> r.value == Inline(PdfFileName(NameOrTitle(doc)))
    ensures r.Failure? ==> r.error == Rejection(404, ContentNotAvailable)
  {
    if doc.fileSize > 0 then Success(Inline(PdfFileName(NameOrTitle(doc))))
    else Failure(Rejection(404, ContentNotAvailable))
  }

  /** GET `/:id/download` after the access checks. */
  function DownloadOf(doc: Document): (r: Delivery)
    ensures r.Attachment? <==> doc.fileSize > 0
    ensures r.Attachment? ==> HasPdfSuffix(r.fileName) && r.quotedName == EscapeQuotes(r.fileName)
    ensures r.Attachment? ==> r.fileName == PdfFileName(NameOrTitle(doc))
    ensures r.Attachment? && '\\' !in r.fileName ==> ReadQuoted(r.quotedName + "\"") == r.fileName
    ensures r.TextSummary? ==> EndsWith(r.fileName, ".txt") && StartsWith(r.fileName, NameOrTitle(doc))
    ensures r.TextSummary? ==> r.fileName == NameOrTitle(doc) + ".txt"
  {
    if doc.fileSize > 0 then
      var name := PdfFileName(NameOrTitle(doc));
      if '\\' in name then Attachment(name, EscapeQuotes(name))
      else
        ReadEscapedQuotes(name);
        Attachment(name, EscapeQuotes(name))
    else
      var name := NameOrTitle(doc) + ".txt";
      assert name[..|NameOrTitle(doc)|] == NameOrTitle(doc);
      assert name[|name| - 4..] == ".txt";
      TextSummary(name)
  }

  /** GET `/:id/preview`. */
  function Preview(teams: map<TeamId, Team>, docs: seq<Document>, user: UserId, id: DocId): (r: Result<Delivery, Rejection>)
    ensures r.Success? ==> exists k :: 0 <= k < |docs| && docs[k].id == id && MemberOf(teams, docs[k].team, user) && docs[k].fileSize > 0
  {
    match Access(teams, docs, user, id, NotAuthorizedToView)
    case Failure(e) => Failure(e)
    case Success(k) => PreviewOf(docs[k])
  }

  /** GET `/:id/download`. */
  function Download(teams: map<TeamId, Team>, docs: seq<Document>, user: UserId, id: DocId): (r: Result<Delivery, Rejection>)
    ensures r.Success? ==> exists k :: 0 <= k < |docs| && docs[k].id == id && MemberOf(teams, docs[k].team, user)
    ensures r.Failure? ==> r.error.status in {403, 404}
  {
    match Access(teams, docs, user, id, NotAuthorizedToDownload)
    case Failure(e) => Failure(e)
    case Success(k) => Success(DownloadOf(docs[k]))
  }

  /** The documents in reverse creation order. */
  function NewestFirst(docs: seq<Document>): (r: seq<Document>)
    ensures |r| == |docs|
    ensures forall k :: 0 <= k < |r| ==> r[k] == docs[|docs| - 1 - k]
  {
    if docs == [] then [] else [docs[|docs| - 1]] + NewestFirst(docs[..|docs| - 1])
  }

  /** `Document.find({ team: teamId })`. */
  function OfTeam(teamId: TeamId): Document -> bool {
    (d: Document) => d.team == teamId
  }

  /**
   * GET `/team/:teamId`: for its members only, the team's documents, each
   * once as often as stored, in reverse creation order.
   */
  function TeamDocuments(teams: map<TeamId, Team>, docs: seq<Document>, user: UserId, teamId: TeamId): (r: Result<seq<Document>, Rejection>)
    ensures teamId !in teams ==> r == Failure(Rejection(404, TeamNotFound))
    ensures teamId in teams && !IsMember(teams[teamId], user) ==> r == Failure(Rejection(403, NotAuthorizedToList))
    ensures MemberOf(teams, teamId, user) ==> r.Success? && forall d :: d in docs && d.team == teamId <==> d in r.value
    ensures MemberOf(teams, teamId, user) ==> r.Success? && r.value == NewestFirst(Filter(docs, OfTeam(teamId)))
  {
    if teamId !in teams then Failure(Rejection(404, TeamNotFound))
    else if !IsMember(teams[teamId], user) then Failure(Rejection(403, NotAuthorizedToList))
    else
      var own := Filter(docs, OfTeam(teamId));
      var r := NewestFirst(own);
      assert forall d :: d in own <==> d in r by {
        forall d | d in own ensures d in r {
          var k :| 0 <= k < |own| && own[k] == d;
          assert r[|own| - 1 - k] == d;
        }
      }
      Success(r)
  }

  /** `Number(req.query.limit) || 5`, where `query` is the parsed number (`None` for a missing or non-numeric one); a negative limit caps the answer at its magnitude. */
  function RecentLimit(query: Option<int>): (limit: nat)
    ensures limit > 0
    ensures query.None? || query == Some(0) ==> limit == DefaultRecentLimit
  {
    match query
    case None => DefaultRecentLimit
    case Some(n) => if n == 0 then DefaultRecentLimit else if n < 0 then -n else n
  }

  /** The user belongs to the document's team. */
  predicate VisibleTo(teams: map<TeamId, Team>, user: UserId, d: Document) {
    MemberOf(teams, d.team, user)
  }

  /** The documents of the user's teams, in creation order. */
  function Visible(teams: map<TeamId, Team>, docs: seq<Document>, user: UserId): (r: seq<Document>)
    ensures forall d :: d in r <==> d in docs && VisibleTo(teams, user, d)
    ensures Subsequence(r, docs)
  {
    Filter(docs, (d: Document) => VisibleTo(teams, user, d))
  }

  /** A user in no team sees no document. */
  lemma NoTeamNothingVisible(teams: map<TeamId, Team>, docs: seq<Document>, user: UserId)
    requires forall t :: t in teams ==> !IsMember(teams[t], user)
    ensures Visible(teams, docs, user) == []
  {
    var visible := Visible(teams, docs, user);
    assert forall i :: 0 <= i < |visible| ==> VisibleTo(teams, user, visible[i]);
  }

  /**
   * GET `/recent`: nothing for a user in no team; otherwise the newest
   * documents of the user's teams, at most `limit` of them. The early answer
   * for a user without teams agrees with the general one.
   */
  function Recent(teams: map<TeamId, Team>, docs: seq<Document>, user: UserId, query: Option<int>): (r: seq<Document>)
    ensures var visible := Visible(teams, docs, user);
      && |r| == Min(|visible|, RecentLimit(query))
      && forall k :: 0 <= k < |r| ==> r[k] == visible[|visible| - 1 - k]
  {
    if forall t :: t in teams ==> !IsMember(teams[t], user) then
      NoTeamNothingVisible(teams, docs, user);
      []
    else
      var newest := NewestFirst(Visible(teams, docs, user));
      newest[..Min(|newest|, RecentLimit(query))]
  }

  /** Each recent document belongs to one of the user's teams, and any left out is older than every one listed. */
  lemma RecentAreNewestVisible(teams: map<TeamId, Team>, docs: seq<Document>, user: UserId, query: Option<int>)
    ensures var r := Recent(teams, docs, user, query);
      && |r| <= RecentLimit(query)
      && (forall d :: d in r ==> d in docs && VisibleTo(teams, user, d))
      && (|r| < RecentLimit(query) ==> forall d :: d in docs && VisibleTo(teams, user, d) ==> d in r)
  {
    var visible := Visible(teams, docs, user);
    var r := Recent(teams, docs, user, query);
    forall d | d in r ensures d in docs && VisibleTo(teams, user, d) {
      var k :| 0 <= k < |r| && r[k] == d;
      assert visible[|visible| - 1 - k] in visible;
    }
    if |r| < RecentLimit(query) {
      forall d | d in docs && VisibleTo(teams, user, d) ensures d in r {
        var j :| 0 <= j < |visible| && visible[j] == d;
        assert r[|visible| - 1 - j] == d;
      }
    }
  }

  /** The view answer: the document with its new count, and the team's creator. */
  datatype DocumentView = DocumentView(document: Document, createdBy: UserId)

  /** The delete checks: the document and its team must exist (404), and only the team's creator may delete (403). */
  function DeleteRejection(teams: map<TeamId, Team>, docs: seq<Document>, user: UserId, id: DocId): (r: Option<Rejection>)
    ensures r.Some? ==> r.value in {Rejection(404, DocumentNotFound), Rejection(404, TeamNotFound), Rejection(403, OnlyCreatorDeletes)}
  {
    match Lookup(docs, id)
    case None => Some(Rejection(404, DocumentNotFound))
    case Some(k) =>
      if docs[k].team !in teams then Some(Rejection(404, TeamNotFound))
      else if teams[docs[k].team].createdBy != user then Some(Rejection(403, OnlyCreatorDeletes))
      else None
  }

  /** Deleting is allowed exactly to the creator of the document's team; membership plays no part. */
  lemma DeleteIffCreator(teams: map<TeamId, Team>, docs: seq<Document>, user: UserId, id: DocId)
    requires UniqueIds(docs)
    ensures DeleteRejection(teams, docs, user, id).None? <==>
      exists k :: 0 <= k < |docs| && docs[k].id == id && docs[k].team in teams && teams[docs[k].team].createdBy == user
  {
    if k :| 0 <= k < |docs| && docs[k].id == id && docs[k].team in teams && teams[docs[k].team].createdBy == user {
      LookupUnique(docs, id, k);
    }
  }

  /** A chunk record whose document is stored, under the same team. */
  ghost predicate Owned(docs: seq<Document>, c: ChunkRecord) {
    exists d :: d in docs && d.id == c.document && d.team == c.team
  }

  /** Replacing a document by one with the same id keeps the ids unique. */
  lemma ReplaceKeepsUniqueIds(docs: seq<Document>, k: nat, d: Document)
    requires UniqueIds(docs) && k < |docs| && d.id == docs[k].id
    ensures UniqueIds(docs[k := d])
  {
    var updated := docs[k := d];
    forall e, f | e in updated && f in updated && e.id == f.id ensures e == f {
      var i :| 0 <= i < |updated| && updated[i] == e;
      var j :| 0 <= j < |updated| && updated[j] == f;
      assert docs[i] in docs && docs[j] in docs;
    }
    forall i, j | 0 <= i < j < |updated| ensures updated[i] != updated[j] {
      assert docs[i] in docs && docs[j] in docs;
    }
  }

  /** Replacing a document by one with the same id and team keeps every chunk owned. */
  lemma ReplaceKeepsOwners(docs: seq<Document>, chunks: seq<ChunkRecord>, k: nat, d: Document)
    requires k < |docs| && d.id == docs[k].id && d.team == docs[k].team
    requires forall c :: c in chunks ==> Owned(docs, c)
    ensures forall c :: c in chunks ==> Owned(docs[k := d], c)
  {
    forall c | c in chunks ensures Owned(docs[k := d], c) {
      var e :| e in docs && e.id == c.document && e.team == c.team;
      var i :| 0 <= i < |docs| && docs[i] == e;
      assert docs[k := d][i] in docs[k := d];
    }
  }

  class DocumentStore {
    /** The documents collection, in creation order. */
    var documents: seq<Document>
    /** The chunk records of every document. */
    var chunks: seq<ChunkRecord>
    /** The id the next upload receives. */
    var nextId: DocId

    /** Ids are unique and already issued, and every chunk belongs to a stored document of its team. */
    ghost predicate Valid()
      reads this
    {
      && UniqueIds(documents)
      && (forall d :: d in documents ==> d.id < nextId)
      && (forall c :: c in chunks ==> Owned(documents, c))
    }

    constructor ()
      ensures Valid() && documents == [] && chunks == []
    {
      documents := [];
      chunks := [];
      nextId := 0;
    }

    /**
     * POST `/`. A rejected upload changes nothing. An admitted one stores the
     * document under the next id with its `.pdf` name and a zero view count,
     * stores the chunk records of whatever the ingestion produced (a parse or
     * embedding failure only leaves them out), announces the upload, and
     * answers with the document.
     */
    method Upload(teams: map<TeamId, Team>, user: UserId, req: UploadRequest,
                  extracted: Option<string>, embed: Embedder, log: NotificationLog)
      returns (response: Result<Document, Rejection>)
      requires Valid()
      modifies this, log
      ensures Valid()
      ensures UploadRejection(teams, user, req).Some? ==>
        && response == Failure(UploadRejection(teams, user, req).value)
        && documents == old(documents) && chunks == old(chunks) && nextId == old(nextId)
        && log.entries == old(log.entries)
      ensures UploadRejection(teams, user, req).None? ==>
        var file := req.file.value;
        var doc := Document(old(nextId), req.teamId.value, req.title, req.tag, req.summary,
                            PdfFileName(file.originalName), file.size, user, 0);
        && response == Success(doc)
        && documents == old(documents) + [doc]
        && chunks == old(chunks) + ChunkRecords(doc.id, doc.team, IngestedChunks(extracted, embed))
        && nextId == old(nextId) + 1
        && log.entries == old(log.entries) + [UploadNotice(doc)]
    {
      var rejection := UploadRejection(teams, user, req);
      if rejection.Some? {
        return Failure(rejection.value);
      }
      var file := req.file.value;
      var doc := Document(nextId, req.teamId.value, req.title, req.tag, req.summary,
                          PdfFileName(file.originalName), file.size, user, 0);
      AddDocument(doc);

      var embedded: seq<EmbeddedChunk> := [];
      if extracted.Some? && !IsBlank(extracted.value) {
        embedded := ProcessTextToChunks(extracted.value, embed);
      }
      if |embedded| > 0 {
        AddChunks(doc, embedded);
      }
      log.Create(UploadNotice(doc));
      response := Success(doc);
    }

    /** `Document.create`: stores the document under the next id. */
    method AddDocument(doc: Document)
      requires Valid() && doc.id == nextId
      modifies this
      ensures Valid()
      ensures documents == old(documents) + [doc] && nextId == old(nextId) + 1
      ensures chunks == old(chunks)
    {
      assert forall c :: c in chunks ==> Owned(documents + [doc], c) by {
        forall c | c in chunks ensures Owned(documents + [doc], c) {
          var d :| d in documents && d.id == c.document && d.team == c.team;
          assert d in documents + [doc];
        }
      }
      documents := documents + [doc];
      nextId := nextId + 1;
    }

    /** `DocumentChunk.insertMany` for the chunks of a stored document. */
    method AddChunks(doc: Document, embedded: seq<EmbeddedChunk>)
      requires Valid() && doc in documents
      modifies this
      ensures Valid()
      ensures chunks == old(chunks) + ChunkRecords(doc.id, doc.team, embedded)
      ensures documents == old(documents) && nextId == old(nextId)
    {
      var records := ChunkRecords(doc.id, doc.team, embedded);
      assert forall c :: c in records ==> Owned(documents, c) by {
        forall c | c in records ensures Owned(documents, c) {
          var k :| 0 <= k < |records| && records[k] == c;
        }
      }
      chunks := chunks + records;
    }

    /**
     * GET `/:id`: for a member of the document's team, adds one to the
     * stored view count and answers with the document carrying the new count;
     * otherwise the access error, with nothing changed.
     */
    method View(teams: map<TeamId, Team>, user: UserId, id: DocId) returns (response: Result<DocumentView, Rejection>)
      requires Valid()
      modifies this
      ensures Valid()
      ensures chunks == old(chunks) && nextId == old(nextId)
      ensures Access(teams, old(documents), user, id, NotAuthorizedToView).Failure? ==>
        && response == Failure(Access(teams, old(documents), user, id, NotAuthorizedToView).error)
        && documents == old(documents)
      ensures Access(teams, old(documents), user, id, NotAuthorizedToView).Success? ==>
        var k := Access(teams, old(documents), user, id, NotAuthorizedToView).value;
        var viewed := old(documents)[k].(viewCount := old(documents)[k].viewCount + 1);
        && documents == old(documents)[k := viewed]
        && response == Success(DocumentView(viewed, teams[viewed.team].createdBy))
    {
      var access := Access(teams, documents, user, id, NotAuthorizedToView);
      if access.Failure? {
        return Failure(access.error);
      }
      var k := access.value;
      var viewed := documents[k].(viewCount := documents[k].viewCount + 1);
      ReplaceKeepsUniqueIds(documents, k, viewed);
      ReplaceKeepsOwners(documents, chunks, k, viewed);
      documents := documents[k := viewed];
      response := Success(DocumentView(viewed, teams[viewed.team].createdBy));
    }

    /**
     * DELETE `/:id`: for the creator of the document's team, removes that
     * document and exactly the chunk records that belong to it; otherwise the
     * error, with nothing changed.
     */
    method Delete(teams: map<TeamId, Team>, user: UserId, id: DocId) returns (response: Result<(), Rejection>)
      requires Valid()
      modifies this
      ensures Valid()
      ensures nextId == old(nextId)
      ensures DeleteRejection(teams, old(documents), user, id).Some? ==>
        && response == Failure(DeleteRejection(teams, old(documents), user, id).value)
        && documents == old(documents) && chunks == old(chunks)
      ensures DeleteRejection(teams, old(documents), user, id).None? ==>
        && response == Success(())
        && documents == Filter(old(documents), (d: Document) => d.id != id)
        && chunks == Filter(old(chunks), (c: ChunkRecord) => c.document != id)
    {
      var rejection := DeleteRejection(teams, documents, user, id);
      if rejection.Some? {
        return Failure(rejection.value);
      }
      var keptDocs := Filter(documents, (d: Document) => d.id != id);
      var keptChunks := Filter(chunks, (c: ChunkRecord) => c.document != id);
      FilterNoDup(documents, (d: Document) => d.id != id);
      assert forall c :: c in keptChunks ==> Owned(keptDocs, c) by {
        forall c | c in keptChunks ensures Owned(keptDocs, c) {
          var d :| d in documents && d.id == c.document && d.team == c.team;
          var i :| 0 <= i < |documents| && documents[i] == d;
        }
      }
      documents := keptDocs;
      chunks := keptChunks;
      response := Success(());
    }
  }

  /** After a delete, no chunk record refers to the deleted document, and every record of another document is still there. */
  lemma DeleteCascades(chunks: seq<ChunkRecord>, id: DocId)
    ensures var kept := Filter(chunks, (c: ChunkRecord) => c.document != id);
      && (forall c :: c in kept ==> c.document != id && c in chunks)
      && (forall c :: c in chunks && c.document != id ==> c in kept)
  {
    var kept := Filter(chunks, (c: ChunkRecord) => c.document != id);
    forall c | c in chunks && c.document != id ensures c in kept {
      var i :| 0 <= i < |chunks| && chunks[i] == c;
    }
  }
}
