/**
 * The browser's client for the documents routes (src/api/documents.ts): how
 * an answer is turned into a value or an error, which file name a download is
 * saved under, and the preview URL.
 *
 * A JSON body is a map from field names to (string) values; `fetch`,
 * `decodeURIComponent` and `encodeURIComponent` are parameters.
 */
module DocumentsApi {
  import opened Wrappers
  import opened Strings
  import opened FileNames

  type JsonBody = map<string, string>

  const FallbackError: string := "Something went wrong"
  const DefaultName: string := "document.pdf"
  const DefaultApiBase: string := "http://localhost:4000"
  const NotAuthenticated: string := "Not authenticated - please log in again"

  /** A field's value, `""` when the field is absent (both are falsy). */
  function Field(data: JsonBody, key: string): string {
    if key in data then data[key] else ""
  }

  /** The message of a failed answer: the body's `error`, else its `message`, else the fallback text. */
  function ErrorMessage(data: JsonBody): (message: string)
    ensures message != []
    ensures Field(data, "error") != [] ==> message == Field(data, "error")
    ensures Field(data, "error") == [] && Field(data, "message") != [] ==> message == Field(data, "message")
    ensures Field(data, "error") == [] && Field(data, "message") == [] ==> message == FallbackError
  {
    if Field(data, "error") != [] then Field(data, "error")
    else if Field(data, "message") != [] then Field(data, "message")
    else FallbackError
  }

  /**
   * `handleResponse`: the parsed body (`{}` when it is not JSON) on an ok
   * answer, the error message otherwise.
   */
  function HandleResponse(ok: bool, parsed: Option<JsonBody>): (r: Result<JsonBody, string>)
    ensures r.Success? <==> ok
    ensures ok && parsed.Some? ==> r.value == parsed.value
    ensures ok && parsed.None? ==> r.value == map[]
    ensures !ok && parsed.None? ==> r.error == FallbackError
    ensures !ok ==> r.error != []
  {
    var data := parsed.GetOr(map[]);
    if !ok then Failure(ErrorMessage(data)) else Success(data)
  }

  // The two patterns of the download helper.

  const StarKey: string := "filename*=UTF-8''"
  const PlainKey: string := "filename="
  const StarStops: set<char> := {';'}
  const PlainStops: set<char> := {'"', '\'', ';'}

  /** The end of the longest run of characters outside `stops` that starts at `j`. */
  function RunEnd(h: string, j: nat, stops: set<char>): (e: nat)
    requires j <= |h|
    ensures j <= e <= |h|
    ensures forall k :: j <= k < e ==> h[k] !in stops
    ensures e < |h| ==> h[e] in stops
    decreases |h| - j
  {
    if j == |h| || h[j] in stops then j else RunEnd(h, j + 1, stops)
  }

  /** `/filename\*=UTF-8''([^;]+)/` matches at `i`: the key, then at least one character other than `;`. */
  predicate StarMatchAt(h: string, i: int) {
    OccursAt(h, StarKey, i) && i + |StarKey| < |h| && h[i + |StarKey|] !in StarStops
  }

  /** Where the value of `/filename=["']?([^"';]+)["']?/` starts when matching at `i`: after the key and one optional quote. */
  function PlainStart(h: string, i: nat): nat
    requires i + |PlainKey| <= |h|
  {
    var j := i + |PlainKey|;
    if j < |h| && h[j] in {'"', '\''} then j + 1 else j
  }

  /**
   * `/filename=["']?([^"';]+)["']?/` matches at `i`. When a quote follows
   * the key, leaving the quote out cannot help, since the group cannot start
   * with a quote, so one starting position is enough.
   */
  predicate PlainMatchAt(h: string, i: int) {
    && OccursAt(h, PlainKey, i)
    && PlainStart(h, i) < |h| && h[PlainStart(h, i)] !in PlainStops
  }

  /** The leftmost position at or after `from` where the star pattern matches. */
  function FirstStar(h: string, from: nat): (r: Option<nat>)
    ensures r.Some? ==> from <= r.value && StarMatchAt(h, r.value)
    ensures forall j :: from <= j && (r.None? || j < r.value) ==> !StarMatchAt(h, j)
    decreases |h| - from
  {
    if from >= |h| then None
    else if StarMatchAt(h, from) then Some(from)
    else FirstStar(h, from + 1)
  }

  /** The leftmost position at or after `from` where the plain pattern matches. */
  function FirstPlain(h: string, from: nat): (r: Option<nat>)
    ensures r.Some? ==> from <= r.value && PlainMatchAt(h, r.value)
    ensures forall j :: from <= j && (r.None? || j < r.value) ==> !PlainMatchAt(h, j)
    decreases |h| - from
  {
    if from >= |h| then None
    else if PlainMatchAt(h, from) then Some(from)
    else FirstPlain(h, from + 1)
  }

  /**
   * The captured group of the star pattern: the longest run of non-`;`
   * characters after the leftmost `filename*=UTF-8''`. It is never empty and
   * the header holds it right after the key.
   */
  function StarValue(h: string): (v: Option<string>)
    ensures v.Some? ==> v.value != [] && (forall c :: c in v.value ==> c !in StarStops) && Contains(h, StarKey + v.value)
    ensures v.None? <==> forall i :: !StarMatchAt(h, i)
  {
    match FirstStar(h, 0)
    case None => None
    case Some(i) =>
      var j := i + |StarKey|;
      var e := RunEnd(h, j, StarStops);
      assert h[i..e] == StarKey + h[j..e];
      ContainsAt(h, StarKey + h[j..e], i);
      Some(h[j..e])
  }

  /**
   * The captured group of the plain pattern: the longest run of characters
   * other than `"`, `'` and `;` after the leftmost matching `filename=` and
   * one optional quote. It is never empty.
   */
  function PlainValue(h: string): (v: Option<string>)
    ensures v.Some? ==> v.value != [] && forall c :: c in v.value ==> c !in PlainStops
    ensures v.None? <==> forall i :: !PlainMatchAt(h, i)
  {
    match FirstPlain(h, 0)
    case None => None
    case Some(i) =>
      var j := PlainStart(h, i);
      Some(h[j..RunEnd(h, j, PlainStops)])
  }

  /** A header that begins with the star parameter yields its value. */
  lemma StarValueOfParameter(v: string, rest: string)
    requires v != [] && forall c :: c in v ==> c !in StarStops
    requires rest == [] || rest[0] in StarStops
    ensures StarValue(StarKey + v + rest) == Some(v)
  {
    var h := StarKey + v + rest;
    var j := |StarKey|;
    assert h[..j] == StarKey;
    assert h[j] == v[0];
    assert StarMatchAt(h, 0);
    assert forall k :: j <= k < j + |v| ==> h[k] == v[k - j];
    assert j + |v| == |h| || h[j + |v|] in StarStops;
    assert RunEnd(h, j, StarStops) == j + |v|;
    assert h[j..j + |v|] == v;
  }

  /** A header that begins with a quoted plain parameter yields the name between the quotes. */
  lemma PlainValueOfQuoted(v: string, rest: string)
    requires v != [] && forall c :: c in v ==> c !in PlainStops
    ensures PlainValue(PlainKey + ['"'] + v + ['"'] + rest) == Some(v)
  {
    var h := PlainKey + ['"'] + v + ['"'] + rest;
    var j := |PlainKey| + 1;
    assert h[..|PlainKey|] == PlainKey;
    assert h[|PlainKey|] == '"';
    assert PlainStart(h, 0) == j;
    assert h[j] == v[0];
    assert PlainMatchAt(h, 0);
    assert forall k :: j <= k < j + |v| ==> h[k] == v[k - j];
    assert h[j + |v|] in PlainStops;
    assert RunEnd(h, j, PlainStops) == j + |v|;
    assert h[j..j + |v|] == v;
  }

  /** The value of the star parameter once decoded, if it is present and decodes. */
  function StarName(h: string, decode: string -> Option<string>): Option<string> {
    match StarValue(h)
    case None => None
    case Some(v) => decode(v)
  }

  /**
   * The name a download is saved under, following the helper's steps: start
   * from `document.pdf`; take the decoded star parameter when there is one;
   * while the name is still `document.pdf`, take the plain parameter, decoded
   * when it decodes and as it stands otherwise; finally apply the `.pdf`
   * renaming rule.
   */
  method DownloadFileName(header: Option<string>, decode: string -> Option<string>) returns (filename: string)
    ensures HasPdfSuffix(filename)
    ensures header.None? ==> filename == DefaultName
    ensures header.Some? && StarName(header.value, decode).Some? && StarName(header.value, decode).value != DefaultName ==>
      filename == PdfFileName(StarName(header.value, decode).value)
    ensures header.Some? && (StarName(header.value, decode).None? || StarName(header.value, decode).value == DefaultName) ==>
      match PlainValue(header.value)
      case None => filename == DefaultName
      case Some(p) => filename == PdfFileName(decode(p).GetOr(p))
  {
    filename := DefaultName;
    if header.Some? {
      var h := header.value;
      var star := StarValue(h);
      if star.Some? {
        var decoded := decode(star.value);
        if decoded.Some? {
          filename := decoded.value;
        }
      }
      if filename == DefaultName {
        var plain := PlainValue(h);
        if plain.Some? {
          filename := plain.value;
          var decoded := decode(filename);
          if decoded.Some? {
            filename := decoded.value;
          }
        }
      }
    }
    assert HasPdfSuffix(DefaultName) by {
      assert ToLower(DefaultName) == DefaultName;
    }
    filename := PdfFileName(filename);
  }

  /** `VITE_API_URL`, or the local server when it is unset or empty. */
  function ApiBase(configured: Option<string>): (base: string)
    ensures base != []
    ensures configured.Some? && configured.value != [] ==> base == configured.value
  {
    if configured.Some? && configured.value != [] then configured.value else DefaultApiBase
  }

  /**
   * `getDocumentPreviewUrl`: fails without a stored token; otherwise the
   * preview route of the document with the encoded token as its `token`
   * query parameter.
   */
  function PreviewUrl(configured: Option<string>, documentId: string, token: Option<string>, encode: string -> string): (r: Result<string, string>)
    ensures r.Failure? <==> token.None? || token.value == []
    ensures r.Failure? ==> r.error == NotAuthenticated
    ensures r.Success? ==>
      && StartsWith(r.value, ApiBase(configured) + "/api/documents/" + documentId)
      && EndsWith(r.value, "/preview?token=" + encode(token.value))
      && |r.value| == |ApiBase(configured) + "/api/documents/" + documentId| + |"/preview?token=" + encode(token.value)|
  {
    if token.None? || token.value == [] then Failure(NotAuthenticated)
    else
      var head := ApiBase(configured) + "/api/documents/" + documentId;
      var tail := "/preview?token=" + encode(token.value);
      var url := head + tail;
      assert url[..|head|] == head;
      assert url[|url| - |tail|..] == tail;
      Success(url)
  }
}
