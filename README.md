# InsightHub core, modelled in Dafny

InsightHub is a team knowledge base. Team members upload PDF documents. The
server cuts each document's text into overlapping chunks, embeds every chunk
and stores the vectors. A chat route answers questions from the chunks most
similar to the question. The rest of the server holds the document and
team rules: who may upload, read, delete, join, add members, patch a team or
remove a member. The browser client adds small formatting and
classification helpers around those routes.

This project models that core and proves properties of the model:

- `embeddings.dfy`: the chunker (`splitTextIntoChunks`) as a window loop
  proved against a recursive specification, and the embedding loop
  (`processTextToChunks`) with a fallible embedding oracle.
- `chunk_coverage.dfy`: the chunks cover the normalised text; no
  non-whitespace character falls between two windows.
- `chat.dfy`: the cosine similarity loop and its guards, retrieval (a stable
  descending sort cut to the top K), the context blocks, source-title
  de-duplication, history cleaning, prompt choice and the order of the
  handler's checks.
- `documents.dfy`: the upload checks, the `.pdf` renaming, the chunk records,
  the membership-checked reads, the view counter, the recent list and the
  creator-only delete that cascades to the chunks. The stores are a
  `DocumentStore` class.
- `teams.dfy`: invite codes, create, join, patch, bulk add by e-mail, remove,
  and the public listing. The teams collection is a `TeamStore` class.
- `notifications.dfy`: the notifications collection, appended to by the
  handlers.
- `chat_client.dfy`: the chat panel (`ChatPanel`): the message list, the
  history sent, the source label and the error notices.
- `documents_api.dfy`: the browser's response handling, the download file
  name taken from `Content-Disposition`, and the preview URL.
- `members_page.dfy`: initials, avatar colours, the search filter, the invite
  check and the remove-button rule.
- `documents_section.dfy`: the "how long ago" text, the tag labels and
  colours, and the creator-only Remove button.
- `about_page.dfy`: the stand-up time display and the settings form.
- Shared modules:
  - `wrappers.dfy`: `Option` and `Result`.
  - `strings.dfy`: JavaScript's string operations, as the code uses them.
  - `seqs.dfy`: `filter` and `[...new Set(xs)]`.
  - `records.dfy`: the stored records.
  - `email.dfy`: the invite e-mail pattern. The members page and the
    settings page both use it; the settings page's invite check
    (src/components/AboutPage.tsx:161-168) is `MembersPage.StartInvite`.
  - `filenames.dfy`: the `.pdf` renaming rule. The upload, preview and
    download handlers and the browser's download helper all apply it.

External services are parameters:

- the embedding and chat model service, as oracles that may fail;
- the PDF parser, as the extracted text or `None`;
- the database, as the fields of the store classes or as maps;
- `Math.random`, as the draws;
- the clock, as the elapsed time;
- `decodeURIComponent` and `encodeURIComponent`, as functions.

## Model

| member | source | states |
|---|---|---|
| Strings.Trim | server/routes/chat.js:132 | `trim()` leaves no whitespace at either end. It keeps exactly the input between its leading and trailing whitespace, and it is empty exactly for a blank input |
| Strings.TrimTrimmed | server/services/embeddings.js:46 | trimming a string without surrounding whitespace changes nothing |
| Strings.TrimOfSuffix | server/services/embeddings.js:46-51 | trimming a suffix of a string gives a suffix of the trimmed string |
| Strings.TrimOfSlice | server/services/embeddings.js:46 | the trimmed window occurs in the text at the offset where the window's leading whitespace ends |
| Strings.CollapseSpaces | server/services/embeddings.js:21 | `replace(/\s+/g, ' ')`: the only whitespace left is single spaces, never two in a row, and the non-whitespace characters are exactly the input's, in order. A leading run stays a space. The result is never longer, and it is empty exactly for an empty input |
| Strings.CollapseSpacesBySqueeze | server/services/embeddings.js:21 | the collapse equals, on every input, a reading one character at a time: a space at the start of each whitespace run, nothing for the rest of the run, and every other character kept |
| Strings.CollapseAndTrim | server/services/embeddings.js:21 | the cleaned text has only single inner spaces and none at its ends, and keeps the input's non-whitespace characters in order. It is never longer than the input, and it is empty exactly for a blank input |
| Strings.LastIndexOf | server/services/embeddings.js:35 | `lastIndexOf`: an offset where the pattern occurs with no occurrence after it, or -1 |
| Strings.ToLower | server/routes/teams.js:362 | same length, every letter lower-cased |
| Strings.ToUpper | server/routes/teams.js:146 | same length, every letter upper-cased |
| Strings.Split | src/components/MembersPage.tsx:84 | `split(' ')` gives at least one part, and no part holds the separator |
| Strings.SplitSingle | src/components/MembersPage.tsx:84-88 | there is exactly one part iff the separator is absent, and that part is the whole string |
| Strings.SplitAt | src/components/AboutPage.tsx:108 | the first part is everything before the first separator, and the rest splits on its own |
| Strings.SplitJoin | src/components/MembersPage.tsx:84 | joining the parts with the separator gives the string back |
| Strings.JoinSnoc | server/routes/chat.js:60 | joining one more part appends the separator and that part |
| Strings.NatToString | src/components/DocumentsSection.tsx:69-74 | a count renders as one or more decimal digits, with no leading zero |
| Strings.DigitsValueOfNatToString | src/components/AboutPage.tsx:109 | reading the rendered digits back gives the number |
| Strings.RemoveAll | server/routes/chat.js:132 | removing every copy of the note never lengthens the text, and leaves it unchanged exactly when the note does not occur in it |
| Strings.RemoveAllAppended | server/routes/chat.js:132 | for a pattern whose last character occurs nowhere earlier in it, removing it from a text without it, followed by one copy, gives the text back |
| Strings.RemoveAllSplice | server/routes/chat.js:132 | for such a pattern, a text without it, then one copy, then any text `b`, is cleaned to the text followed by the cleaned `b` |
| Strings.RemoveAllJoined | server/routes/chat.js:132 | for such a pattern, every copy is removed: texts without it, joined by it, come out as the same texts run together (`Concat`) |
| Seqs.Filter | server/routes/teams.js:429 | `filter` keeps, in order, exactly the elements that pass the test |
| Seqs.FilterCount | server/routes/teams.js:429 | each element that passes is kept as many times as it occurs, and one that fails not at all |
| Seqs.FilterNoDup | server/routes/teams.js:429 | filtering a list without duplicates leaves none |
| Seqs.Dedup | server/routes/chat.js:118 | `[...new Set(xs)]` has no duplicates and the same elements as `xs` |
| Seqs.DedupFirstOccurrenceOrder | server/routes/teams.js:362 | the kept copies are in the order of their first occurrences |
| Email.ScanAcceptsOnlyMatches | src/components/MembersPage.tsx:106-107 | every address the scan accepts matches `^[^\s@]+@[^\s@]+\.[^\s@]+$` |
| Email.ScanAcceptsAllMatches | src/components/MembersPage.tsx:106-107 | every address matching the pattern passes the scan |
| Email.IsValidEmailMatchesPattern | src/components/AboutPage.tsx:164-165 | the scan and the pattern accept the same addresses |
| FileNames.StripExtension | server/routes/documents.js:55 | `replace(/\.[^/.]+$/, '')` drops a final extension when there is one and otherwise changes nothing |
| FileNames.PdfFileName | server/routes/documents.js:53-57 | the stored name ends in `.pdf` ignoring case. It equals the original exactly when the original already did; otherwise it is the stem followed by the lower-case `.pdf` |
| FileNames.PdfFileNameIdempotent | server/routes/documents.js:248-252 | renaming an already renamed name changes nothing |
| Embeddings.Cleaned | server/services/embeddings.js:21 | the chunker's text is normalised, no longer than the input, and has the input's non-whitespace characters in order |
| Embeddings.WindowEnd | server/services/embeddings.js:31-44 | the window end lies in the second half of the window. A window reaching past the text keeps its unclamped end, and an early end falls on a space |
| Embeddings.WindowPrefersSentenceEnd | server/services/embeddings.js:35-37 | with a `". "` past the middle, the window ends just after the period of the last such `". "` |
| Embeddings.WindowFallsBackToSpace | server/services/embeddings.js:38-43 | otherwise it ends at the last space past the middle, or at the full window when there is none |
| Embeddings.NextStart | server/services/embeddings.js:50 | the next window start is strictly greater, so the loop terminates |
| Embeddings.WindowText | server/services/embeddings.js:46 | a non-empty window chunk is trimmed, fits the window and occurs in the cleaned text |
| Embeddings.ChunksFromStep | server/services/embeddings.js:46-51 | for `ChunksFrom` (the loop from a given start): one loop step emits the window's chunk when it is non-empty, then the chunks from the next start |
| Embeddings.ChunksFromAreChunks | server/services/embeddings.js:30-52 | every chunk the loop emits is non-empty, trimmed, at most `chunkSize` long and a piece of the cleaned text |
| Embeddings.SplitTextChunks | server/services/embeddings.js:16-55 | for `SplitText` (`splitTextIntoChunks`): empty text gives `[]`; a cleaned text that fits gives `[cleaned]`, which is `[""]` for whitespace. Every chunk is trimmed, fits the window and is a piece of the cleaned text |
| ChunkCoverage.NextStartWithinWindow | server/services/embeddings.js:50 | the next window starts strictly after this one and no later than this window's end, so no text is skipped between windows |
| ChunkCoverage.WindowTextAt | server/services/embeddings.js:46 | the trimmed window chunk occurs in the cleaned text at `WindowOffset`, just after the window's leading spaces |
| ChunkCoverage.WindowCoversNonSpace | server/services/embeddings.js:46-48 | a non-whitespace character inside a window lands, in its place, in that window's chunk, which is therefore emitted |
| ChunkCoverage.ChunksFromCover | server/services/embeddings.js:30-52 | no text is dropped: every non-whitespace character from the start on lies, at its own position, inside an emitted window chunk |
| ChunkCoverage.SplitTextCovers | server/services/embeddings.js:16-55 | the chunks cover the cleaned text: every non-whitespace character of it lies, at its position, inside some returned chunk |
| Embeddings.FirstWindowText | server/services/embeddings.js:28-46 | the first window's chunk is non-empty and starts the cleaned text |
| Embeddings.FirstChunkIsPrefix | server/services/embeddings.js:28-48 | the first chunk starts at offset 0 of the cleaned text |
| Embeddings.LastWindowText | server/services/embeddings.js:31-46 | a window reaching the end of the text yields the whole trimmed tail |
| Embeddings.FinalWindowChunks | server/services/embeddings.js:31-51 | because the final window end is not clamped, one more chunk follows when `end - overlap` is still inside the text |
| Embeddings.FinalWindowRepeatsSuffix | server/services/embeddings.js:46-51 | that extra chunk is a suffix of the chunk before it |
| Embeddings.SplitTextIntoChunks | server/services/embeddings.js:16-55 | the method computes the chunker's specification |
| Embeddings.FindWindowEnd | server/services/embeddings.js:31-44 | the loop body's end computation equals `WindowEnd` |
| Embeddings.SlideWindow | server/services/embeddings.js:27-54 | the `while` loop emits exactly the chunks of the window specification |
| Embeddings.EmbedPrefixResults | server/services/embeddings.js:62-70 | for `EmbedPrefix` (the loop's results for the first `n` chunks): at most one result per chunk; each carries its chunk's text and the vector its call returned |
| Embeddings.EmbedPrefixIncreasing | server/services/embeddings.js:62-69 | result indices strictly increase |
| Embeddings.EmbedPrefixPresence | server/services/embeddings.js:62-73 | a chunk has a result exactly when its embedding call succeeded |
| Embeddings.EmbedChunks | server/services/embeddings.js:58-77 | the `for` loop embeds each chunk in order and skips failures, as specified |
| Embeddings.ProcessTextToChunks | server/services/embeddings.js:58-77 | chunking with 1000/200, then embedding |
| Embeddings.IngestProperties | server/services/embeddings.js:58-77 | for `Ingest` (`processTextToChunks`): results are at most the chunk count, carry `chunks[chunkIndex]` and their call's vector, have strictly increasing indices, and exist exactly for the successful calls |
| Chat.Cosine | server/routes/chat.js:14-29 | 0 for different lengths, 0 when either norm is 0; a ratio only for two non-zero vectors |
| Chat.CosineSimilarity | server/routes/chat.js:14-29 | the accumulating loop computes `Cosine` |
| Chat.DotSymmetric | server/routes/chat.js:21-22 | the dot product is symmetric |
| Chat.CosineSymmetric | server/routes/chat.js:14-29 | `sim(a, b) == sim(b, a)` |
| Chat.NormSquared | server/routes/chat.js:23-24 | a squared norm is non-negative, and it is 0 exactly for the zero vector |
| Chat.DotSelfNonNegative | server/routes/chat.js:23-27 | the same, for one vector |
| Chat.CosineOfZeroVector | server/routes/chat.js:27-28 | a zero vector scores 0 against anything |
| Chat.CosineSelf | server/routes/chat.js:27-28 | a non-zero vector against itself is the ratio `n / sqrt(n * n)` with `n > 0` |
| Chat.Insert | server/routes/chat.js:46 | inserting into a ranked list keeps it ranked and adds exactly that element |
| Chat.SortBySimilarity | server/routes/chat.js:46 | the stable sort gives a permutation that is non-increasing in similarity, with ties in fetch order |
| Chat.TeamChunks | server/routes/chat.js:33-35 | exactly the team's chunks |
| Chat.Score | server/routes/chat.js:41-44 | one scored candidate per fetched chunk, with its fetch position |
| Chat.FindRelevantChunks | server/routes/chat.js:31-49 | `min(n, topK)` chunks, all of the team, ranked; each is a scored team chunk, taken at most as often as it occurs, and every scored chunk left out ranks after every one returned |
| Chat.NoChunksNoRetrieval | server/routes/chat.js:37-39 | a team without chunks retrieves nothing |
| Chat.RetrievalKeepsTheBest | server/routes/chat.js:46-48 | every chunk left out ranks after every chunk returned |
| Chat.SourceBlocks | server/routes/chat.js:55-58 | block `k` is `[Source k: "title"]` and the text, 1-based and in order |
| Chat.DisplayTitle | server/routes/chat.js:56 | a non-empty title is kept; a missing or empty one reads `Unknown Document`; never empty |
| Chat.SourceBlock | server/routes/chat.js:57 | the block starts with `[Source k: "` and the title, ends with `"]`, a newline and the chunk text, and has no other character: its length is the two parts' lengths added |
| Chat.ScoreAgainstSymmetric | server/routes/chat.js:41-44 | for `ScoreAgainst` (the score `findRelevantChunks` gives each chunk): a chunk scores against the query as the query scores against the chunk |
| Chat.BuildContext | server/routes/chat.js:52-61 | `null` exactly for no chunks |
| Chat.BuildContextSingle | server/routes/chat.js:55-60 | one chunk gives its block numbered 1 |
| Chat.BuildContextSnoc | server/routes/chat.js:55-60 | blocks are joined by `\n\n---\n\n` |
| Chat.KnownTitles | server/routes/chat.js:118 | the non-empty titles, each from some chunk |
| Chat.SourceTitles | server/routes/chat.js:118 | no duplicates; exactly the non-empty titles of the chunks |
| Chat.SourceTitlesFirstOccurrenceOrder | server/routes/chat.js:118 | titles keep first-occurrence order |
| Chat.CleanTurn | server/routes/chat.js:129-134 | role `user` iff `type === 'user'`; the text is trimmed, and a text without the note is only trimmed |
| Chat.CleanTurnDropsNote | server/routes/chat.js:132 | a question that arrives with the note appended once is cleaned back to the trimmed question |
| Chat.CleanTurnDropsEveryNote | server/routes/chat.js:129-134 | a text made of note-free pieces joined by the note is cleaned to the pieces run together, trimmed: every copy is dropped and the rest kept in order |
| Chat.CleanHistory | server/routes/chat.js:129-134 | one cleaned turn per entry, in order |
| Chat.TeamContext | server/routes/chat.js:93-102 | the team block is never empty, so a team request always gets the grounded prompt |
| Chat.MemberLine | server/routes/chat.js:101 | the member line starts with `- `, the name and ` (`, holds the role or `Member`, ends with `) - ` and the e-mail, and its length leaves room for nothing but the role between them |
| Chat.TeamText | server/routes/chat.js:148 | the `${teamContext}` slot is empty exactly when there is no team |
| Chat.ContextText | server/routes/chat.js:151 | the context slot is the retrieved context when it is non-empty, and is never empty |
| Chat.PromptText | server/routes/chat.js:144-159 | the plain prompt is the question followed by the request to be concise. The grounded prompt opens with the instructions, holds the team block and the context under its header, and ends with the question under its header and the closing request |
| Chat.PopulatedMembers | server/routes/chat.js:81-83 | the members whose user record exists |
| Chat.RetrieveContext | server/routes/chat.js:104-124 | context and sources come from the retrieved chunks; a failed embedding leaves `null` and `[]` |
| Chat.Retrieved | server/routes/chat.js:104-124 | nothing after a failed embedding; otherwise at most five of the team's own chunks, ranked |
| Chat.SourcesFor | server/routes/chat.js:76-118 | no sources without a team; otherwise non-empty titles without duplicates |
| Chat.PromptFor | server/routes/chat.js:143-159 | the plain prompt exactly when there is no team, since a team always gives a non-empty team block; both carry the message |
| Chat.Answer | server/routes/chat.js:163-189 | a reply exactly for a non-blank answer, with the text as given and the sources omitted exactly when empty; every error is a 500, and a thrown error passes its message on as the details |
| Chat.AnswerAdmitted | server/routes/chat.js:93-181 | an admitted request with a team embeds the question once, then sends exactly one prompt: grounded in the team block and the retrieved context with a team, plain without. A thrown error or a blank reply is a 500, and empty sources are omitted |
| Chat.ChatPost | server/routes/chat.js:64-190 | no message gives 400, an unknown team 404 and a non-member 403, in that order and before any service call; an admitted request is answered as `AnswerAdmitted` |
| Documents.UploadRejection | server/routes/documents.js:29-51 | a rejection is 400, 403 or 404 |
| Documents.UploadAdmission | server/routes/documents.js:29-51 | admitted iff team and title, a PDF file and a member of an existing team. Missing fields give the first 400 and a missing file the second, and any non-400 rejection comes after the PDF check |
| Documents.ChunkRecords | server/routes/documents.js:89-95 | one record per embedded chunk |
| Documents.ChunkRecordsMirror | server/routes/documents.js:89-95 | each record carries the new document, the upload's team, and its chunk's text, vector and index |
| Documents.IngestedChunks | server/routes/documents.js:77-84 | nothing for a failed or blank extraction; every ingested chunk is non-empty, trimmed and at most 1000 characters |
| Documents.UploadNotice | server/routes/documents.js:107-113 | the upload notice is for the document's team, by the uploader, names the document, and reads `<title> was uploaded` |
| Documents.UploadChunkRecords | server/routes/documents.js:81-98 | no records for a failed or blank extraction; otherwise one per successfully embedded chunk, in chunk order, with its text, vector and index |
| Documents.Lookup | server/routes/documents.js:226 | the position of the document with that id, or none |
| Documents.LookupUnique | server/routes/documents.js:226 | with unique ids, the document found is the one with that id |
| Documents.Access | server/routes/documents.js:230-241 | success only for a member of the document's team; failures are the two 404s and the handler's 403 |
| Documents.AccessIffMember | server/routes/documents.js:351-353 | a document is readable exactly by the members of its team, and 403 means the team exists and the user is not in it |
| Documents.EscapeQuotes | server/routes/documents.js:308 | every `"` is preceded by a backslash, and the result does not start with a quote |
| Documents.ReadEscapedQuotes | server/routes/documents.js:308-309 | a name without backslashes, escaped and closed by the header's quote, reads back as itself under the quoted-string rules of section 3.2.6 of RFC 7230 |
| Documents.ReadEscapedBackslash | server/routes/documents.js:308-309 | a backslash is not escaped, so the name `a\b` reads back as `ab` |
| Documents.NameOrTitle | server/routes/documents.js:248 | the file name when it is non-empty, else the title; empty only when both are |
| Documents.PreviewOf | server/routes/documents.js:243-267 | the inline PDF when there is content, else 404. The name is exactly `PdfFileName(NameOrTitle(doc))`, so it ends in `.pdf` |
| Documents.DownloadOf | server/routes/documents.js:295-328 | an attachment when there is content, named exactly `PdfFileName(NameOrTitle(doc))`, with the quote-escaped header name; that name reads back as the file name whenever it has no backslash. Otherwise the text summary named exactly `NameOrTitle(doc) + ".txt"` |
| Documents.Preview | server/routes/documents.js:218-272 | success only for a member, on a document with content |
| Documents.Download | server/routes/documents.js:275-333 | success only for a member; failures are 403 or 404 |
| Documents.NewestFirst | server/routes/documents.js:147 | the documents in reverse creation order |
| Documents.TeamDocuments | server/routes/documents.js:132-167 | 404 for an unknown team, 403 for a non-member; a member gets exactly the team's documents (`OfTeam`), in reverse creation order |
| Documents.RecentLimit | server/routes/documents.js:177 | a missing, non-numeric or zero limit is 5, and the limit is always positive |
| Documents.NoTeamNothingVisible | server/routes/documents.js:182-184 | a user in no team sees nothing |
| Documents.Visible | server/routes/documents.js:179-186 | exactly the documents of teams the user belongs to, in creation order |
| Documents.Recent | server/routes/documents.js:175-200 | the newest `min(n, limit)` documents of the user's teams, newest first |
| Documents.RecentAreNewestVisible | server/routes/documents.js:186-189 | every listed document is visible to the user, and a short list holds them all |
| Documents.DeleteRejection | server/routes/documents.js:386-398 | the two 404s or the creator-only 403 |
| Documents.DeleteIffCreator | server/routes/documents.js:396-398 | deleting is allowed exactly to the creator of the document's team |
| Documents.ReplaceKeepsUniqueIds | server/routes/documents.js:355 | updating a document in place keeps the ids unique |
| Documents.ReplaceKeepsOwners | server/routes/documents.js:355 | updating a document in place keeps every chunk owned |
| Documents.DocumentStore.constructor | server/models/Document.js:1-25 | an empty, valid store |
| Documents.DocumentStore.Upload | server/routes/documents.js:24-124 | a rejection changes nothing. Admission stores the document under its `.pdf` name, stores the chunk records ingestion produced and one notification, and answers 201 |
| Documents.DocumentStore.AddDocument | server/routes/documents.js:59-69 | appends the document under the next id |
| Documents.DocumentStore.AddChunks | server/routes/documents.js:97 | appends that document's chunk records |
| Documents.DocumentStore.View | server/routes/documents.js:336-376 | a member raises the stored view count by exactly one and gets the new count; otherwise nothing changes |
| Documents.DocumentStore.Delete | server/routes/documents.js:384-404 | the creator removes exactly that document and exactly its chunk records; otherwise nothing changes |
| Documents.DeleteCascades | server/routes/documents.js:402 | no chunk of the deleted document remains, and every other chunk stays |
| Teams.InviteAlphabetSymbols | server/routes/teams.js:10 | 32 symbols, capital letters and the digits 2 to 9 |
| Teams.InviteAlphabetLacksI | server/routes/teams.js:10 | no `I` |
| Teams.InviteAlphabetLacksO | server/routes/teams.js:10 | no `O` |
| Teams.InviteAlphabetLacksZero | server/routes/teams.js:10 | no `0` |
| Teams.InviteAlphabetLacksOne | server/routes/teams.js:10 | no `1` |
| Teams.InviteAlphabetShape | server/routes/teams.js:10 | all of the above together |
| Teams.GenerateInviteCode | server/routes/teams.js:9-16 | six symbols of the alphabet, symbol `i` chosen by draw `i` |
| Teams.ReplaceKeepsValid | server/routes/teams.js:169-170 | storing a well-formed team under its id with its code kept keeps the collection valid |
| Teams.FindByCode | server/routes/teams.js:146 | a team holding the code, or none holds it |
| Teams.FindByCodeUnique | server/routes/teams.js:146 | with distinct codes, the team found is the one holding it |
| Teams.ApplyPatch | server/routes/teams.js:262-273 | each of the eight patchable fields (name, description, mission, standupTime, timezone, slackChannel, email, isPrivate) takes the patch's value when defined and keeps the team's otherwise; members, code and creator never change |
| Teams.ApplyPatchLaws | server/routes/teams.js:262-273 | an empty patch changes nothing, and a patch applied twice is applied once |
| Teams.NormalizeCode | server/routes/teams.js:146 | the normalised code is never longer than the typed one |
| Teams.NormalizeLowerInviteCode | server/routes/teams.js:146 | a code typed in lower case normalises back to the stored code |
| Teams.AddedIds | server/routes/teams.js:378 | the user ids of the added entries, in order |
| Teams.AddEachNotFound | server/routes/teams.js:371-374 | for `AddEach` (the add-members loop): `notFound` is exactly the addresses without an account, in order |
| Teams.AddEachMembers | server/routes/teams.js:376-378 | members grow by the added accounts in order and stay duplicate-free; each added account was not a member |
| Teams.AddEachComplete | server/routes/teams.js:370-380 | old members stay, and every address with an account ends up a member |
| Teams.AddEachAddsExactlyNew | server/routes/teams.js:370-380 | with distinct addresses and accounts, an address is added iff its account exists and was not a member |
| Teams.AddedAndNotFoundDisjoint | server/routes/teams.js:367-380 | no address is both added and not found |
| Teams.AddedNotices | server/routes/teams.js:385-396 | at most one `member_added` notice per added account, for this team, by the actor |
| Teams.UniqueEmails | server/routes/teams.js:362 | no duplicates; exactly the lower-cased addresses |
| Teams.PublicTeams | server/routes/teams.js:105-115 | exactly the public teams the user is not in, newest first |
| Teams.TeamStore.constructor | server/models/Team.js:1-26 | an empty, valid collection |
| Teams.TeamStore.PublicFor | server/routes/teams.js:107-115 | exactly the public teams the user is not in |
| Teams.TeamStore.Create | server/routes/teams.js:31-71 | no name gives 400 and changes nothing. Otherwise a new team is stored, private unless the body says otherwise, with the creator as `createdBy` and sole member |
| Teams.TeamStore.JoinTarget | server/routes/teams.js:144-161 | the code wins over the id: the team found carries the normalised code, and none found is 404 `Invalid invite code`. Without a code, an unknown id is 404 `Team not found`, a private team 403, a public team is that team, and no id at all is 400 |
| Teams.TeamStore.JoinByLowerInviteCode | server/routes/teams.js:147-148 | a team's invite code typed in lower case targets that very team, whatever id the request also carries |
| Teams.JoinNotices | server/routes/teams.js:172-182 | one notice exactly when the joining account exists: `member_added` for the team, by and about the user, reading `<name> joined the team` |
| Teams.TeamStore.Join | server/routes/teams.js:138-196 | a failed target is answered with its rejection and changes nothing, and a member gets 400; otherwise the target team (see `JoinTarget`) gets the user appended once and the join is announced |
| Teams.TeamStore.Patch | server/routes/teams.js:239-301 | 404 and 403 change nothing. An empty name fails the save with 500 and changes nothing. Otherwise a member's patch overwrites exactly the defined fields and announces name or description changes with `UpdateNotice` |
| Teams.TeamStore.AddMembers | server/routes/teams.js:343-398 | 400, then 404, then 403, each changing nothing; otherwise the members become the loop's outcome and the added are announced |
| Teams.RemovalNotices | server/routes/teams.js:432-440 | one notice exactly when the removed account exists: `member_removed` for the team, by the actor, about the removed user, reading `<name> was removed from the team` |
| Teams.TeamStore.RemoveMember | server/routes/teams.js:406-443 | 404, the creator-only 403 and the self 400 change nothing; otherwise every occurrence of the member goes, the rest stay in order |
| Teams.AddAccounts | server/routes/teams.js:370-380 | the loop computes the add-members outcome |
| Teams.AnnounceAdded | server/routes/teams.js:385-396 | the notification loop appends exactly `AddedNotices` |
| Notifications.NotificationLog.constructor | server/models/Notification.js:1-33 | an empty log |
| Notifications.NotificationLog.Create | server/routes/notifications.js:8-18 | `createNotification` appends exactly one record |
| ChatClient.FailureOf | src/components/ChatSection.tsx:88-95 | status kept; the message is the body's `error`, else its `message`, else `Server error: ` and the status in decimal; the details are the body's `details`, else its `error`; a non-JSON body reads as `Unknown error` |
| ChatClient.NoticeText | src/components/ChatSection.tsx:122-142 | only the notice that passes a message on starts with `Error: `, and the message follows it unchanged; every notice text is non-empty |
| ChatClient.ClassifyCases | src/components/ChatSection.tsx:125-145 | for `Classify` (the handler's chain of checks): 500 gives one of the three service notices, with quota markers beating rate-limit markers. without quota markers, a rate-limit marker gives the rate-limit notice and none the unavailable notice. 400, 401 and 403 get their notices. Any other status, or none: a TypeError about `fetch` gives the connection notice, else a message gives `Error: message`, else the generic text |
| ChatClient.HttpErrorNeverGeneric | src/components/ChatSection.tsx:88-95 | a failed answer never gets the generic text |
| ChatClient.SourceLabel | src/components/ChatSection.tsx:106 | no label exactly when there are no sources |
| ChatClient.SourceLabelShape | src/components/ChatSection.tsx:106 | `Based on: ` followed by the first two sources joined by `, `, and `...` exactly when there are more |
| ChatClient.History | src/components/ChatSection.tsx:65 | the messages after the greeting with non-blank content, in order |
| ChatClient.BotMessage | src/components/ChatSection.tsx:100-153 | the answer carries the given id; it has a source only for a non-blank reply with sources |
| ChatClient.NumberedSnoc | src/components/ChatSection.tsx:48 | appending the next id keeps ids `1..n` |
| ChatClient.UserMessage | src/components/ChatSection.tsx:47-52 | id `length + 1`, the text as typed |
| ChatClient.ChatPanel.constructor | src/components/ChatSection.tsx:26-33 | the greeting alone, id 1, for the given team |
| ChatClient.ChatPanel.Submit | src/components/ChatSection.tsx:44-86 | blank input or in flight: no change. Otherwise the user message is appended, the input cleared and loading set, and the request carries the text, the history and the panel's team |
| ChatClient.ChatPanel.Receive | src/components/ChatSection.tsx:100-155 | exactly one bot message is appended, then loading ends |
| ChatClient.ChatPanel.Send | src/components/ChatSection.tsx:44-157 | no-op when blank or in flight; otherwise the request carries the text, the history and the team, the list grows by exactly the user message and the answer, and stays numbered |
| DocumentsApi.ErrorMessage | src/api/documents.ts:115-119 | `error`, else `message`, else `Something went wrong`; never empty |
| DocumentsApi.HandleResponse | src/api/documents.ts:13-22 | success iff ok, with the body or `{}`; a failure carries the error message |
| DocumentsApi.RunEnd | src/api/documents.ts:125 | the end of the longest run of allowed characters |
| DocumentsApi.FirstStar | src/api/documents.ts:125 | the leftmost match of the `filename*` pattern |
| DocumentsApi.FirstPlain | src/api/documents.ts:134 | the leftmost match of the `filename=` pattern |
| DocumentsApi.StarValue | src/api/documents.ts:125-126 | the captured group is non-empty, holds no `;` and follows the key in the header; none iff no match |
| DocumentsApi.PlainValue | src/api/documents.ts:134-135 | the captured group is non-empty and holds no quote or `;`; none iff no match |
| DocumentsApi.StarValueOfParameter | src/api/documents.ts:125 | a header starting with the star parameter yields its value |
| DocumentsApi.PlainValueOfQuoted | src/api/documents.ts:134 | a quoted plain parameter yields the name between the quotes |
| DocumentsApi.DownloadFileName | src/api/documents.ts:121-148 | ends in `.pdf`. The default without a header; a decoded star name wins; the plain name (decoded when possible) only while the name is still the default |
| DocumentsApi.ApiBase | src/api/documents.ts:3 | the configured base, or the local server when unset or empty |
| DocumentsApi.PreviewUrl | src/api/documents.ts:93-105 | fails iff no token is stored; otherwise exactly the document's preview route followed by `?token=` and the encoded token |
| MembersPage.InitialsAsWritten | src/components/MembersPage.tsx:82-89 | an empty end part contributes `undefined` (`FirstCharText`). `U` for an empty name, never empty; the call throws (`None`) exactly when the name splits into two or more parts with both end parts empty |
| MembersPage.InitialsAsWrittenTrailingSpace | src/components/MembersPage.tsx:84-86 | `"Ann "` gives `AUNDEFINED` |
| MembersPage.InitialsOfSpace | src/components/MembersPage.tsx:84-86 | the name `" "` makes the written function throw, while the corrected one gives `U` |
| MembersPage.SplitTrailingSpace | src/components/MembersPage.tsx:84 | `"Ann "` splits into `Ann` and an empty part |
| MembersPage.Words | src/components/MembersPage.tsx:84 | the words are non-empty and hold no space |
| MembersPage.Initials | src/components/MembersPage.tsx:82-89 | one or two characters, never a space |
| MembersPage.InitialsAgreeOnCleanNames | src/components/MembersPage.tsx:82-89 | on names without stray spaces the corrected initials equal the written ones |
| MembersPage.InitialsAgreeOnManyParts | src/components/MembersPage.tsx:85-86 | the same, with two or more parts |
| MembersPage.IntendedOfManyParts | src/components/MembersPage.tsx:86 | first letters of the first and last words |
| MembersPage.WrittenOfManyParts | src/components/MembersPage.tsx:86 | first letters of the first and last parts |
| MembersPage.InitialsAgreeOnOnePart | src/components/MembersPage.tsx:88 | the same, with one part |
| MembersPage.ColorClass | src/components/MembersPage.tsx:91-101 | one of the six colours, the `index`-th for the first six |
| MembersPage.ColorClassPeriodic | src/components/MembersPage.tsx:100 | colours repeat every six |
| MembersPage.FilteredMembers | src/components/MembersPage.tsx:155-168 | a missing field never matches (`FieldMatches`). A blank search gives the list unchanged. Otherwise the result holds, in order, exactly the members with a field containing the lower-cased query |
| MembersPage.StartInvite | src/components/MembersPage.tsx:103-114 | a request (for that one address) iff a team and a matching address; a bad address gets the error text |
| MembersPage.FeedbackOf | src/components/MembersPage.tsx:116-127 | success iff someone was added; "not found" iff no one was added and some address was unknown |
| MembersPage.ShowsRemoveExactly | src/components/MembersPage.tsx:251 | the button shows iff the viewer is the creator and the card is not theirs |
| DocumentsSection.UnitName | src/components/DocumentsSection.tsx:69-74 | a non-empty singular unit |
| DocumentsSection.PluralSuffix | src/components/DocumentsSection.tsx:69-74 | the text ends in `s ago` iff the plural `s` was added |
| DocumentsSection.Render | src/components/DocumentsSection.tsx:58-74 | empty only without a date; `Just now` for the first minute; otherwise `<count> <unit>` first, ` ago` last, an `s` between them iff the count is not 1, and nothing else (its length) |
| DocumentsSection.RelativeAsWritten | src/components/DocumentsSection.tsx:57-75 | empty iff no date; `Just now` iff under a minute; minute, hour and day counts are at least 1 |
| DocumentsSection.ZeroMonthsAgo | src/components/DocumentsSection.tsx:72-73 | 28 days shows `0 months ago` |
| DocumentsSection.ZeroYearsAgo | src/components/DocumentsSection.tsx:73-74 | 360 days shows `0 years ago` |
| DocumentsSection.RelativeTime | src/components/DocumentsSection.tsx:57-75 | corrected buckets: the same empty and `Just now` cases, and every count at least 1 |
| DocumentsSection.RelativeTimeCounts | src/components/DocumentsSection.tsx:62-74 | each count is the floor-divided elapsed time, below the next unit's threshold |
| DocumentsSection.RelativeAgreesOutsideGaps | src/components/DocumentsSection.tsx:68-74 | the corrected and written versions agree outside 28-29 and 360-364 days |
| DocumentsSection.TagDisplayName | src/components/DocumentsSection.tsx:77-87 | a known tag gives its label, an unknown one is kept, and no tag gives `Other` |
| DocumentsSection.TagColor | src/components/DocumentsSection.tsx:89-99 | a known tag's colour, else the primary colour |
| DocumentsSection.RemoveShownIffDeletable | src/components/DocumentsSection.tsx:47 | `IsCreator` on the list answer's `createdBy` and `currentUserId`: for every listed document the Remove button shows exactly when the delete route would allow the caller to delete it |
| DocumentsSection.TagsLabelledAndColoured | src/components/DocumentsSection.tsx:78-97 | a tag has a label iff it has a colour |
| AboutPage.DigitRun | src/components/AboutPage.tsx:109 | the leading digits |
| AboutPage.Unsigned | src/components/AboutPage.tsx:109 | drops exactly one leading sign, and nothing when there is none |
| AboutPage.ParseInt | src/components/AboutPage.tsx:109 | NaN exactly when no digit follows the leading whitespace and optional sign; otherwise the value of the digit run, negated after a minus sign |
| AboutPage.ParseIntOfNatToString | src/components/AboutPage.tsx:109 | a rendered hour parses back |
| AboutPage.ParseIntOfDigits | src/components/AboutPage.tsx:109 | any digit string, leading zeros included, followed by a non-digit parses as its decimal value |
| AboutPage.ParseIntStopsAtNonDigit | src/components/AboutPage.tsx:109 | a rendered number followed by a non-digit parses as the number |
| AboutPage.ParseIntNegative | src/components/AboutPage.tsx:109 | a minus sign negates it |
| AboutPage.ParseIntSkipsSpace | src/components/AboutPage.tsx:109 | a leading space does not change the result |
| AboutPage.DisplayHour | src/components/AboutPage.tsx:111 | for a non-negative hour, 1 to 12 and congruent modulo 12; NaN shows 12 |
| AboutPage.ClockRoundTrip | src/components/AboutPage.tsx:110-111 | with `IsPm` (`hour >= 12`): every hour of the day shows as 1-12 with a suffix that reads back as that hour |
| AboutPage.ZoneText | src/components/AboutPage.tsx:112 | `ToUpper` of the zone, of the same length, or empty without one |
| AboutPage.FormatTime | src/components/AboutPage.tsx:104-115 | empty iff the time is empty; without a colon, `time` plus the zone |
| AboutPage.FormatTimeOfClock | src/components/AboutPage.tsx:107-112 | an `HH:MM` time whose hour is any digit string below 24, zero-padded (`09:30`) or not, shows the 12-hour hour, the minutes as given, PM iff the hour is at least 12, and the zone |
| AboutPage.LoadForm | src/components/AboutPage.tsx:77-85 | each text field is the team's value or `""` when missing; a missing privacy flag loads as private |
| AboutPage.SavePatch | src/components/AboutPage.tsx:122-130 | the timezone is lower-cased, an empty Slack channel or e-mail is undefined, and the mission is left alone |
| AboutPage.SaveUneditedForm | src/components/AboutPage.tsx:117-130 | saving unedited changes only the timezone's case |
| AboutPage.ClearedFieldsKept | src/components/AboutPage.tsx:127-128 | clearing the Slack channel or e-mail in the form keeps the server's value |

## Left out

- Floating point: `Math.sqrt` and the division in `cosineSimilarity` are not computed. `Chat.Cosine` stops at `Ratio(dot, normProduct)`, meaning `dot / sqrt(normProduct)`, and retrieval ranks by a score oracle for that value.
- Chat.CosineSelf: states the ratio `n / sqrt(n * n)` with `n > 0`, not the number 1, because the square root is not modelled.
- Case mapping covers ASCII letters only; Unicode case mapping is not modelled. Strings are sequences of code points, not UTF-16 units.
- The external services are oracles: the Gemini embedding and chat calls, `pdf-parse`, multer, `decodeURIComponent` and `encodeURIComponent`. Their failures are `None` or `Failure`.
- The database is the fields of `DocumentStore`, `TeamStore` and `NotificationLog`, or maps passed in. The invalid-ObjectId path (a 500) and write failures such as a failed `insertMany` are not modelled.
- Concurrency: each handler is one sequential step over the stores.
- `getUniqueInviteCode` retries without bound: `TeamStore.Create` is given a code no team holds. `Math.random` is the draws given to `GenerateInviteCode`.
- Teams.InviteAlphabetShape: does not state that the 32 symbols are distinct.
- Teams.NormalizeCode: its contract bounds only the length. `TeamStore.JoinTarget` states that the team found carries the normalised code, and `NormalizeLowerInviteCode` and `TeamStore.JoinByLowerInviteCode` state the case-insensitive match.
- The chunker is modelled for `2 * overlap < chunkSize` (the route uses 1000 and 200); with a larger overlap the source loop need not terminate.
- The prompt is a structured value: plain, or grounded in the team block, the context and the question. `PromptText` renders it with the templates' exact wording.
- `populate('members')` drops members whose user record is missing; the model does the same and does not model other populate fields.
- The stored file's bytes are its size: a document has content when `fileSize > 0`. The text summary's lines (tag, summary, uploader, date) are not modelled, only its name.
- GET `/teams/my`, GET `/teams/:id` and GET `/teams/:id/members` are not modelled; the members page reads the member cards they return.
- Documents.RecentLimit: a negative `limit` is read as its magnitude, which is how the database treats it. Fractional limits are outside the model, because the limit is an integer.
- AboutPage.ParseInt: the `0x` prefix of `parseInt` is not modelled.
- A history entry without `content` makes `.replace` throw, and the handler answers 500. The model's history entries always carry a text.
- Documents.DownloadOf: the `filename*` parameter, which carries the exact name percent-encoded, is not modelled. The quoted `filename` reads back exactly only for names without a backslash (`ReadEscapedBackslash`).
- The inline preview header and the text summary's header put the name between quotes without escaping it; only the name they carry is modelled.
- DocumentsSection.RelativeAsWritten: an invalid date (NaN elapsed time) is not modelled; a missing date is `None`.
- The tag maps ignore JavaScript's inherited object keys (such as `constructor`).
- The download helper's name extraction is its two regular expressions, not the full parameter grammar of section 4.3 of RFC 6266.
- React rendering, toasts, `localStorage`, message timestamps, the DOM download, and the date formatters `formatDate` and `formatJoinedDate` are not modelled; they depend on the clock or the browser.

## Findings

| source | as written | input that shows it | evidently intended | confidence | as-written member | corrected member |
|---|---|---|---|---|---|---|
| src/components/MembersPage.tsx:82-89 | `name.split(' ')` keeps empty parts, and `part[0]` of an empty part is `undefined`, which the concatenation spells out | `"Ann "` gives `AUNDEFINED` | initials from the non-empty words, one or two characters | not executed | MembersPage.InitialsAsWrittenTrailingSpace | MembersPage.Initials |
| src/components/MembersPage.tsx:84-86 | with both end parts empty, `undefined + undefined` is `NaN`, and calling `toUpperCase` on it throws while the card renders | `" "` throws | `U`, as for an empty name | not executed | MembersPage.InitialsOfSpace | MembersPage.Initials |
| src/components/DocumentsSection.tsx:72-73 | weeks stop at 4 (28 days) but months are `days / 30`, which is 0 before day 30 | 28 days gives `0 months ago` | weeks until day 30, so every count is at least 1 | not executed | DocumentsSection.ZeroMonthsAgo | DocumentsSection.RelativeTime |
| src/components/DocumentsSection.tsx:73-74 | months stop at 12 (360 days) but years are `days / 365`, which is 0 before day 365 | 360 days gives `0 years ago` | months until day 365, so every count is at least 1 | not executed | DocumentsSection.ZeroYearsAgo | DocumentsSection.RelativeTime |
