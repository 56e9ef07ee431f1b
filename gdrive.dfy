/**
 * The Google Drive collector: file-id extraction from share URLs, file-type
 * detection, the export-URL templates, the retry loop of a download, and the
 * error aggregation of the collection functions.
 *
 * Requests are abstract: a `Network` gives the outcome of the n-th attempt to
 * fetch a URL (0-based), so every download is a function of the network and
 * the URL. Waiting between attempts, directory creation and file writes are
 * not modelled; a successful download is represented by the text it saves.
 */
module GDrive {
  import opened Wrappers
  import opened Text

  // ---------------------------------------------------------------------------
  // Export URL templates (`SHEET_EXPORT_URL`, `DOC_EXPORT_URL`, `DRIVE_FILE_URL`)
  // ---------------------------------------------------------------------------

  const SheetExportPrefix: string := "https://docs.google.com/spreadsheets/d/"
  const SheetExportSuffix: string := "/export?format=csv"
  const DocExportPrefix: string := "https://docs.google.com/document/d/"
  const DocExportSuffix: string := "/export?format=txt"
  const DriveFileHost: string := "https://drive.google.com"
  const DriveFileQuery: string := "/uc?export=download&id="
  const DriveFilePrefix: string := DriveFileHost + DriveFileQuery

  function SheetExportUrl(fileId: string): string {
    SheetExportPrefix + fileId + SheetExportSuffix
  }

  function DocExportUrl(fileId: string): string {
    DocExportPrefix + fileId + DocExportSuffix
  }

  function DriveFileUrl(fileId: string): string {
    DriveFilePrefix + fileId
  }

  /** A Drive file; `fileType` is `"sheet"`, `"doc"` or `"file"`. */
  datatype DriveFile = DriveFile(fileId: string, name: string, fileType: string, url: string)

  /** `DriveFile.export_url`: the template chosen by the file type, with the id substituted. */
  function ExportUrl(f: DriveFile): string {
    if f.fileType == "sheet" then SheetExportUrl(f.fileId)
    else if f.fileType == "doc" then DocExportUrl(f.fileId)
    else DriveFileUrl(f.fileId)
  }

  // ---------------------------------------------------------------------------
  // extract_file_id: the searches for `/d/([a-zA-Z0-9_-]+)` and `[?&]id=([a-zA-Z0-9_-]+)`
  // ---------------------------------------------------------------------------

  predicate IsIdChar(c: char) {
    IsLetter(c) || IsDigit(c) || c == '_' || c == '-'
  }

  /** A string the id group can match in full. */
  predicate IsFileId(id: string) {
    id != [] && forall i :: 0 <= i < |id| ==> IsIdChar(id[i])
  }

  /** The two URL forms an id is taken from: `/d/<id>` and `?id=<id>` or `&id=<id>`. */
  datatype Form = PathForm | QueryForm

  function MarkerLength(f: Form): nat {
    if f.PathForm? then 3 else 4
  }

  predicate MarkerAt(s: string, i: int, f: Form) {
    0 <= i && i + MarkerLength(f) <= |s| &&
    match f
    case PathForm => s[i] == '/' && s[i + 1] == 'd' && s[i + 2] == '/'
    case QueryForm => (s[i] == '?' || s[i] == '&') && s[i + 1] == 'i' && s[i + 2] == 'd' && s[i + 3] == '='
  }

  /** The pattern of form `f` matches at `i`: the marker, then at least one id character. */
  predicate FormAt(s: string, i: int, f: Form) {
    MarkerAt(s, i, f) && i + MarkerLength(f) < |s| && IsIdChar(s[i + MarkerLength(f)])
  }

  /** The leftmost match of form `f` at or after `i`, as `re.search` finds it. */
  function FindForm(s: string, f: Form, i: nat): (r: Option<nat>)
    ensures r.Some? ==> i <= r.value && FormAt(s, r.value, f)
    ensures r.Some? ==> forall j :: i <= j < r.value ==> !FormAt(s, j, f)
    ensures r.None? ==> forall j :: i <= j ==> !FormAt(s, j, f)
    decreases |s| - i
  {
    if i >= |s| then None
    else if FormAt(s, i, f) then Some(i)
    else FindForm(s, f, i + 1)
  }

  /** The length of the id-character run of `s` starting at `i` (the greedy `+`). */
  function IdRun(s: string, i: nat): (n: nat)
    requires i <= |s|
    ensures i + n <= |s|
    ensures forall j :: i <= j < i + n ==> IsIdChar(s[j])
    ensures i + n == |s| || !IsIdChar(s[i + n])
    decreases |s| - i
  {
    if i < |s| && IsIdChar(s[i]) then 1 + IdRun(s, i + 1) else 0
  }

  /** The group of the match of form `f` at `p`. */
  function GroupAt(s: string, p: nat, f: Form): (id: string)
    requires FormAt(s, p, f)
    ensures IsFileId(id)
  {
    var k := p + MarkerLength(f);
    s[k..k + IdRun(s, k)]
  }

  /** `extract_file_id`: the `/d/` form is tried first, then the `id=` form. */
  function ExtractFileId(url: string): (r: Option<string>)
    ensures r.Some? ==> IsFileId(r.value)
    ensures r.None? <==> (forall j :: !FormAt(url, j, PathForm)) && (forall j :: !FormAt(url, j, QueryForm))
  {
    match FindForm(url, PathForm, 0)
    case Some(p) => Some(GroupAt(url, p, PathForm))
    case None =>
      match FindForm(url, QueryForm, 0)
      case Some(q) => Some(GroupAt(url, q, QueryForm))
      case None => None
  }

  /**
   * A URL with a `/d/<id>` part gives the id of its first such part, whatever
   * `id=` parts it also has; without one, it gives the id of its first `id=` part.
   */
  lemma ExtractFileIdPrefersPath(url: string, p: nat, f: Form)
    requires FormAt(url, p, f)
    requires forall j :: 0 <= j < p ==> !FormAt(url, j, f)
    requires f.QueryForm? ==> forall j :: !FormAt(url, j, PathForm)
    ensures ExtractFileId(url) == Some(GroupAt(url, p, f))
  {
    var r := FindForm(url, f, 0);
    assert r == Some(p);
  }

  /**
   * The id is read back from a URL made of a prefix without a match, a match
   * marker, the id, and a rest that does not continue the id.
   */
  lemma ExtractAfterMarker(s: string, p: nat, f: Form, id: string)
    requires IsFileId(id)
    requires MarkerAt(s, p, f) && ContainsAt(s, id, p + MarkerLength(f))
    requires p + MarkerLength(f) + |id| == |s| || !IsIdChar(s[p + MarkerLength(f) + |id|])
    requires forall j :: 0 <= j < p ==> !FormAt(s, j, f)
    requires f.QueryForm? ==> forall j :: !FormAt(s, j, PathForm)
    ensures ExtractFileId(s) == Some(id)
  {
    var k := p + MarkerLength(f);
    assert FormAt(s, p, f) by { assert s[k] == id[0]; }
    ExtractFileIdPrefersPath(s, p, f);
    GroupAtId(s, p, f, id);
  }

  /** The group of a match is the id that follows its marker. */
  lemma GroupAtId(s: string, p: nat, f: Form, id: string)
    requires IsFileId(id) && FormAt(s, p, f)
    requires ContainsAt(s, id, p + MarkerLength(f))
    requires p + MarkerLength(f) + |id| == |s| || !IsIdChar(s[p + MarkerLength(f) + |id|])
    ensures GroupAt(s, p, f) == id
  {
    IdRunOfId(s, p + MarkerLength(f), id);
  }

  lemma IdRunOfId(s: string, k: nat, id: string)
    requires IsFileId(id) && ContainsAt(s, id, k)
    requires k + |id| == |s| || !IsIdChar(s[k + |id|])
    ensures IdRun(s, k) == |id|
    decreases |id|
  {
    assert s[k] == id[0];
    if |id| > 1 {
      assert ContainsAt(s, id[1..], k + 1) by {
        assert s[k + 1..k + |id|] == s[k..k + |id|][1..];
      }
      IdRunOfId(s, k + 1, id[1..]);
    }
  }

  /** An id character is never the lead character of a marker. */
  lemma NoMarkerInId(s: string, k: nat, id: string, f: Form)
    requires IsFileId(id) && ContainsAt(s, id, k)
    ensures forall j :: k <= j < k + |id| ==> !MarkerAt(s, j, f)
  {
    forall j | k <= j < k + |id| ensures !MarkerAt(s, j, f) {
      assert s[j] == id[j - k];
    }
  }

  lemma ExtractOfSheetUrl(id: string, rest: string)
    requires IsFileId(id)
    requires rest == [] || !IsIdChar(rest[0])
    ensures ExtractFileId(SheetExportPrefix + id + rest) == Some(id)
  {
    var s := SheetExportPrefix + id + rest;
    assert ContainsAt(s, id, 39) by { assert s[39..39 + |id|] == id; }
    forall j | 0 <= j < 36 ensures !FormAt(s, j, PathForm) {
      assert s[j] == SheetExportPrefix[j];
      if s[j] == '/' {
        assert s[j + 1] == SheetExportPrefix[j + 1];
        assert s[j + 2] == SheetExportPrefix[j + 2];
      }
    }
    assert 39 + |id| == |s| || s[39 + |id|] == rest[0];
    ExtractAfterMarker(s, 36, PathForm, id);
  }

  lemma ExtractOfDocUrl(id: string, rest: string)
    requires IsFileId(id)
    requires rest == [] || !IsIdChar(rest[0])
    ensures ExtractFileId(DocExportPrefix + id + rest) == Some(id)
  {
    var s := DocExportPrefix + id + rest;
    assert ContainsAt(s, id, 35) by { assert s[35..35 + |id|] == id; }
    forall j | 0 <= j < 32 ensures !FormAt(s, j, PathForm) {
      assert s[j] == DocExportPrefix[j];
      if s[j] == '/' {
        assert s[j + 1] == DocExportPrefix[j + 1];
        assert s[j + 2] == DocExportPrefix[j + 2];
      }
    }
    assert 35 + |id| == |s| || s[35 + |id|] == rest[0];
    ExtractAfterMarker(s, 32, PathForm, id);
  }

  lemma PrefixChar(p: string, rest: string, j: int)
    requires 0 <= j < |p|
    ensures (p + rest)[j] == p[j]
  {
  }

  lemma DriveFileUrlHasNoPathForm(id: string)
    requires IsFileId(id)
    ensures forall j :: !FormAt(DriveFileUrl(id), j, PathForm)
  {
    var s := DriveFileUrl(id);
    assert ContainsAt(s, id, 47) by { assert s[47..] == id; }
    NoMarkerInId(s, 47, id, PathForm);
    DriveFileUrlNoEarlyPath(id);
  }

  lemma DriveFileUrlNoEarlyPath(id: string)
    ensures forall j :: 0 <= j < 47 ==> !MarkerAt(DriveFileUrl(id), j, PathForm)
  {
    DriveFileHostNoPath(id);
    DriveFileQueryNoPath(id);
  }

  lemma DriveFileHostNoPath(id: string)
    ensures forall j :: 0 <= j < 24 ==> !MarkerAt(DriveFileUrl(id), j, PathForm)
  {
    var host, path := DriveFileHost, DriveFileQuery;
    var s := DriveFileUrl(id);
    assert s == host + (path + id);
    forall j | 0 <= j < 24 ensures !MarkerAt(s, j, PathForm) {
      PrefixChar(host, path + id, j);
      if host[j] == '/' {
        PrefixChar(host, path + id, j + 1);
        PrefixChar(host, path + id, j + 2);
      }
    }
  }

  lemma DriveFileQueryNoPath(id: string)
    ensures forall j :: 24 <= j < 47 ==> !MarkerAt(DriveFileUrl(id), j, PathForm)
  {
    var host, path := DriveFileHost, DriveFileQuery;
    var s := DriveFileUrl(id);
    assert s == host + (path + id);
    forall j | 24 <= j < 47 ensures !MarkerAt(s, j, PathForm) {
      PrefixChar(path, id, j - 24);
      assert s[j] == path[j - 24];
      if path[j - 24] == '/' {
        PrefixChar(path, id, j - 23);
        assert s[j + 1] == path[j - 23];
      }
    }
  }

  lemma DriveFileUrlQueryMarker(id: string)
    ensures forall j :: 0 <= j < 43 ==> !MarkerAt(DriveFileUrl(id), j, QueryForm)
    ensures MarkerAt(DriveFileUrl(id), 43, QueryForm)
  {
    DriveFileUrlNoEarlyQuery(id);
    DriveFileUrlMarkerAt(id);
  }

  lemma DriveFileUrlMarkerAt(id: string)
    ensures MarkerAt(DriveFileUrl(id), 43, QueryForm)
  {
    var s := DriveFileUrl(id);
    assert s[..47] == DriveFilePrefix;
    assert s[43] == DriveFilePrefix[43] && s[44] == DriveFilePrefix[44];
    assert s[45] == DriveFilePrefix[45] && s[46] == DriveFilePrefix[46];
  }

  lemma DriveFileUrlNoEarlyQuery(id: string)
    ensures forall j :: 0 <= j < 43 ==> !MarkerAt(DriveFileUrl(id), j, QueryForm)
  {
    var host, path := DriveFileHost, DriveFileQuery;
    var s := DriveFileUrl(id);
    assert s == host + (path + id);
    forall j | 0 <= j < 24 ensures !MarkerAt(s, j, QueryForm) {
      PrefixChar(host, path + id, j);
    }
    DriveFileQueryNoEarlyQuery(id);
  }

  lemma DriveFileQueryNoEarlyQuery(id: string)
    ensures forall j :: 24 <= j < 43 ==> !MarkerAt(DriveFileUrl(id), j, QueryForm)
  {
    var host, path := DriveFileHost, DriveFileQuery;
    var s := DriveFileUrl(id);
    assert s == host + (path + id);
    forall j | 24 <= j < 43 ensures !MarkerAt(s, j, QueryForm) {
      PrefixChar(path, id, j - 24);
      assert s[j] == path[j - 24];
      if path[j - 24] == '?' || path[j - 24] == '&' {
        PrefixChar(path, id, j - 23);
        assert s[j + 1] == path[j - 23];
      }
    }
  }

  lemma ExtractOfDriveFileUrl(id: string)
    requires IsFileId(id)
    ensures ExtractFileId(DriveFileUrl(id)) == Some(id)
  {
    var s := DriveFileUrl(id);
    assert |DriveFilePrefix| == 47;
    assert ContainsAt(s, id, 47) by { assert s[47..] == id; }
    DriveFileUrlHasNoPathForm(id);
    DriveFileUrlQueryMarker(id);
    ExtractAfterMarker(s, 43, QueryForm, id);
  }

  /** The file id is read back from every export URL built from it. */
  lemma ExportUrlRoundTrip(f: DriveFile)
    requires IsFileId(f.fileId)
    ensures ExtractFileId(ExportUrl(f)) == Some(f.fileId)
  {
    if f.fileType == "sheet" {
      ExtractOfSheetUrl(f.fileId, SheetExportSuffix);
    } else if f.fileType == "doc" {
      ExtractOfDocUrl(f.fileId, DocExportSuffix);
    } else {
      ExtractOfDriveFileUrl(f.fileId);
    }
  }

  // ---------------------------------------------------------------------------
  // detect_file_type
  // ---------------------------------------------------------------------------

  const FileTypes: set<string> := {"sheet", "doc", "file"}

  function DetectFileType(url: string): (r: string)
    ensures r in FileTypes
    ensures r == "sheet" <==> Contains(url, "spreadsheets")
    ensures r == "doc" <==> !Contains(url, "spreadsheets") && Contains(url, "document")
  {
    if Contains(url, "spreadsheets") then "sheet"
    else if Contains(url, "document") then "doc"
    else "file"
  }

  /** A sheet export URL, like every Sheets URL, is detected as a sheet. */
  lemma DetectOfSheetUrl(id: string, rest: string)
    ensures DetectFileType(SheetExportPrefix + id + rest) == "sheet"
  {
    var s := SheetExportPrefix + id + rest;
    assert s[24..36] == "spreadsheets";
    assert ContainsAt(s, "spreadsheets", 24);
  }

  // ---------------------------------------------------------------------------
  // download_file: at most `retries` attempts over abstract responses
  // ---------------------------------------------------------------------------

  /** One attempt: the request raised (including an HTTP error status) or a body came back. */
  datatype Outcome = RequestFailed | Response(text: string)

  /** The outcome of attempt `n` (0-based) to fetch a URL. */
  type Network = (string, nat) -> Outcome

  /** Python's `s[:n]`. */
  function Prefix(s: string, n: nat): (r: string)
    ensures |r| == if |s| <= n then |s| else n
    ensures r == s[..|r|]
  {
    if |s| <= n then s else s[..n]
  }

  /** Google's "too many requests" page, looked for in the first 1000 characters. */
  predicate RateLimited(text: string) {
    Contains(Prefix(text, 1000), "Too many requests")
  }

  /** An HTML error page saying the file is not found. */
  predicate NotFoundPage(text: string) {
    StartsWith(text, "<!DOCTYPE html>") && Contains(Lower(text), "not found")
  }

  /** The outcomes after which another attempt is made. */
  predicate Retried(o: Outcome) {
    o.RequestFailed? || RateLimited(o.text)
  }

  /** How a download ends: saved at some attempt, stopped by a not-found page, or out of attempts. */
  datatype Download = Saved(content: string, attempt: nat) | NotFound(attempt: nat) | GaveUp

  /** The download from attempt `attempt` on. */
  function DownloadFrom(net: Network, url: string, retries: int, attempt: nat): Download
    decreases retries - attempt
  {
    if attempt >= retries then GaveUp
    else
      match net(url, attempt)
      case RequestFailed => DownloadFrom(net, url, retries, attempt + 1)
      case Response(text) =>
        if RateLimited(text) then DownloadFrom(net, url, retries, attempt + 1)
        else if NotFoundPage(text) then NotFound(attempt)
        else Saved(text, attempt)
  }

  function SavedContent(d: Download): (r: Option<string>)
    ensures r.Some? <==> d.Saved?
  {
    if d.Saved? then Some(d.content) else None
  }

  /** The download of a URL with the default three attempts. */
  const Retries: int := 3

  /** `download_file`: returns whether the file was saved and, if so, the text saved. */
  method DownloadFile(net: Network, url: string, retries: int) returns (ok: bool, saved: Option<string>)
    ensures saved == SavedContent(DownloadFrom(net, url, retries, 0))
    ensures ok <==> saved.Some?
  {
    var attempt: nat := 0;
    while attempt < retries
      invariant DownloadFrom(net, url, retries, attempt) == DownloadFrom(net, url, retries, 0)
      decreases retries - attempt
    {
      var response := net(url, attempt);
      if response.RequestFailed? {
        attempt := attempt + 1;
      } else if Contains(Prefix(response.text, 1000), "Too many requests") {
        attempt := attempt + 1;
      } else if StartsWith(response.text, "<!DOCTYPE html>") && Contains(Lower(response.text), "not found") {
        return false, None;
      } else {
        return true, Some(response.text);
      }
    }
    return false, None;
  }

  /** Every attempt in `[a, k)` failed or was rate limited. */
  predicate RetriedBetween(net: Network, url: string, a: int, k: int) {
    forall j: nat :: a <= j < k ==> Retried(net(url, j))
  }

  /** How an attempt that is not retried ends the download. */
  function Decide(o: Outcome, k: nat): (d: Download)
    requires !Retried(o)
    ensures !d.GaveUp? && d.attempt == k
  {
    if NotFoundPage(o.text) then NotFound(k) else Saved(o.text, k)
  }

  /** The download gives up exactly when all attempts from `a` up to `retries` are failed or rate limited. */
  lemma {:induction false} GaveUpIff(net: Network, url: string, retries: int, a: nat)
    ensures DownloadFrom(net, url, retries, a).GaveUp? <==> RetriedBetween(net, url, a, retries)
    decreases retries - a
  {
    if a < retries {
      if Retried(net(url, a)) {
        GaveUpIff(net, url, retries, a + 1);
      } else {
        assert !DownloadFrom(net, url, retries, a).GaveUp?;
      }
    }
  }

  /**
   * A download that does not give up ends at the first attempt from `a` on that is
   * neither failed nor rate limited, which lies within the attempts: it saves that
   * attempt's body unless the body is a not-found page.
   */
  lemma {:induction false} DownloadEndsAtFirstAnswer(net: Network, url: string, retries: int, a: nat)
    ensures var d := DownloadFrom(net, url, retries, a);
            !d.GaveUp? ==> a <= d.attempt < retries && RetriedBetween(net, url, a, d.attempt)
                           && !Retried(net(url, d.attempt)) && d == Decide(net(url, d.attempt), d.attempt)
    decreases retries - a
  {
    if a < retries {
      var o := net(url, a);
      if Retried(o) {
        DownloadEndsAtFirstAnswer(net, url, retries, a + 1);
        assert DownloadFrom(net, url, retries, a) == DownloadFrom(net, url, retries, a + 1);
      } else {
        assert DownloadFrom(net, url, retries, a) == Decide(o, a);
      }
    }
  }

  // ---------------------------------------------------------------------------
  // download_sheet and download_doc
  // ---------------------------------------------------------------------------

  predicate Truthy(s: Option<string>) {
    s.Some? && s.value != ""
  }

  /** The file id of a `url_or_id` argument: extracted from an `http…` URL, otherwise the argument itself. */
  function FileIdOf(urlOrId: string): (r: Option<string>)
    ensures !StartsWith(urlOrId, "http") ==> r == Some(urlOrId)
    ensures StartsWith(urlOrId, "http") ==> r == ExtractFileId(urlOrId)
  {
    if StartsWith(urlOrId, "http") then ExtractFileId(urlOrId) else Some(urlOrId)
  }

  /** The URL `download_sheet` passes to `download_file`, or `None` when it returns `False` first. */
  function SheetRequestUrl(urlOrId: string, gid: Option<string>): (r: Option<string>)
    ensures r.None? <==> FileIdOf(urlOrId).None?
  {
    match FileIdOf(urlOrId)
    case None => None
    case Some(id) =>
      Some(if Truthy(gid) then SheetExportUrl(id) + "&gid=" + gid.value else SheetExportUrl(id))
  }

  /** The URL `download_doc` passes to `download_file`, or `None` when it returns `False` first. */
  function DocRequestUrl(urlOrId: string): (r: Option<string>)
    ensures r.None? <==> FileIdOf(urlOrId).None?
  {
    match FileIdOf(urlOrId)
    case None => None
    case Some(id) => Some(DocExportUrl(id))
  }

  /**
   * The request URL of a sheet carries the file id where extraction finds it, so
   * a requested export URL names the same file as the URL it was made from; a
   * gid is appended only when given.
   */
  lemma SheetRequestUrlProps(urlOrId: string, gid: Option<string>)
    requires SheetRequestUrl(urlOrId, gid).Some?
    requires IsFileId(FileIdOf(urlOrId).value)
    ensures var u := SheetRequestUrl(urlOrId, gid).value;
            ExtractFileId(u) == FileIdOf(urlOrId)
            && DetectFileType(u) == "sheet"
            && (Truthy(gid) <==> |u| > |SheetExportUrl(FileIdOf(urlOrId).value)|)
  {
    var id := FileIdOf(urlOrId).value;
    if Truthy(gid) {
      var rest := SheetExportSuffix + "&gid=" + gid.value;
      assert SheetRequestUrl(urlOrId, gid).value == SheetExportPrefix + id + rest;
      assert rest[0] == '/';
      ExtractOfSheetUrl(id, rest);
      DetectOfSheetUrl(id, rest);
    } else {
      ExtractOfSheetUrl(id, SheetExportSuffix);
      DetectOfSheetUrl(id, SheetExportSuffix);
    }
  }

  /** An `http…` argument with no id gives no request at all; an id is used verbatim. */
  lemma RequestUrlWithoutId(urlOrId: string, gid: Option<string>)
    ensures StartsWith(urlOrId, "http") && ExtractFileId(urlOrId).None?
            ==> SheetRequestUrl(urlOrId, gid).None? && DocRequestUrl(urlOrId).None?
    ensures !StartsWith(urlOrId, "http")
            ==> DocRequestUrl(urlOrId) == Some(DocExportUrl(urlOrId))
                && SheetRequestUrl(urlOrId, None) == Some(SheetExportUrl(urlOrId))
  {
  }

  /** The text a sheet download saves, if any. */
  function SheetContent(net: Network, urlOrId: string, gid: Option<string>): Option<string> {
    match SheetRequestUrl(urlOrId, gid)
    case None => None
    case Some(u) => SavedContent(DownloadFrom(net, u, Retries, 0))
  }

  function DocContent(net: Network, urlOrId: string): Option<string> {
    match DocRequestUrl(urlOrId)
    case None => None
    case Some(u) => SavedContent(DownloadFrom(net, u, Retries, 0))
  }

  /** `download_sheet`. */
  method DownloadSheet(net: Network, urlOrId: string, gid: Option<string>) returns (ok: bool, saved: Option<string>)
    ensures saved == SheetContent(net, urlOrId, gid)
    ensures ok <==> saved.Some?
    ensures SheetRequestUrl(urlOrId, gid).None? ==> !ok
  {
    var url := SheetRequestUrl(urlOrId, gid);
    if url.None? {
      return false, None;
    }
    ok, saved := DownloadFile(net, url.value, Retries);
  }

  /** `download_doc`. */
  method DownloadDoc(net: Network, urlOrId: string) returns (ok: bool, saved: Option<string>)
    ensures saved == DocContent(net, urlOrId)
    ensures ok <==> saved.Some?
    ensures DocRequestUrl(urlOrId).None? ==> !ok
  {
    var url := DocRequestUrl(urlOrId);
    if url.None? {
      return false, None;
    }
    ok, saved := DownloadFile(net, url.value, Retries);
  }

  // ---------------------------------------------------------------------------
  // collect_track_data and collect_all_data
  // ---------------------------------------------------------------------------

  /** A track's entry in the track configuration: `config.get("attendees_url")`, `config.get("notes_url")`. */
  datatype TrackUrls = TrackUrls(attendeesUrl: Option<string>, notesUrl: Option<string>)

  datatype TrackData = TrackData(trackId: string, attendeesPath: Option<string>, notesPath: Option<string>, errors: seq<string>)

  function TrackDir(outputDir: string, trackId: string): string {
    outputDir + "/" + trackId
  }

  function AttendeesPath(outputDir: string, trackId: string): string {
    TrackDir(outputDir, trackId) + "/attendees.csv"
  }

  function NotesPath(outputDir: string, trackId: string): string {
    TrackDir(outputDir, trackId) + "/" + trackId + "-notes.txt"
  }

  function AttendeesError(url: string): string {
    "Failed to download attendees: " + url
  }

  function NotesError(url: string): string {
    "Failed to download notes: " + url
  }

  /** A configured URL whose download did not save anything. */
  predicate AttendeesFailed(net: Network, urls: TrackUrls) {
    Truthy(urls.attendeesUrl) && SheetContent(net, urls.attendeesUrl.value, None).None?
  }

  predicate NotesFailed(net: Network, urls: TrackUrls) {
    Truthy(urls.notesUrl) && DocContent(net, urls.notesUrl.value).None?
  }

  /** The result of `collect_track_data`. */
  function TrackDataOf(net: Network, trackId: string, urls: TrackUrls, outputDir: string): TrackData {
    var attendeesPath :=
      if Truthy(urls.attendeesUrl) && SheetContent(net, urls.attendeesUrl.value, None).Some?
      then Some(AttendeesPath(outputDir, trackId)) else None;
    var notesPath :=
      if Truthy(urls.notesUrl) && DocContent(net, urls.notesUrl.value).Some?
      then Some(NotesPath(outputDir, trackId)) else None;
    var attendeesErrors := if AttendeesFailed(net, urls) then [AttendeesError(urls.attendeesUrl.value)] else [];
    var notesErrors := if NotesFailed(net, urls) then [NotesError(urls.notesUrl.value)] else [];
    TrackData(trackId, attendeesPath, notesPath, attendeesErrors + notesErrors)
  }

  /** `collect_track_data`. */
  method CollectTrackData(net: Network, trackId: string, urls: TrackUrls, outputDir: string) returns (r: TrackData)
    ensures r == TrackDataOf(net, trackId, urls, outputDir)
  {
    r := TrackData(trackId, None, None, []);
    if urls.attendeesUrl.Some? && urls.attendeesUrl.value != "" {
      var ok, _ := DownloadSheet(net, urls.attendeesUrl.value, None);
      if ok {
        r := r.(attendeesPath := Some(AttendeesPath(outputDir, trackId)));
      } else {
        r := r.(errors := r.errors + [AttendeesError(urls.attendeesUrl.value)]);
      }
    }
    if urls.notesUrl.Some? && urls.notesUrl.value != "" {
      var ok, _ := DownloadDoc(net, urls.notesUrl.value);
      if ok {
        r := r.(notesPath := Some(NotesPath(outputDir, trackId)));
      } else {
        r := r.(errors := r.errors + [NotesError(urls.notesUrl.value)]);
      }
    }
  }

  /**
   * A URL that is not given means no download and no path; each configured
   * download that fails adds exactly one error, the attendees error first.
   */
  lemma TrackDataProps(net: Network, trackId: string, urls: TrackUrls, outputDir: string)
    ensures var r := TrackDataOf(net, trackId, urls, outputDir);
            r.trackId == trackId
            && (!Truthy(urls.attendeesUrl) ==> r.attendeesPath.None?)
            && (!Truthy(urls.notesUrl) ==> r.notesPath.None?)
            && (r.attendeesPath.Some? <==> Truthy(urls.attendeesUrl) && !AttendeesFailed(net, urls))
            && (r.notesPath.Some? <==> Truthy(urls.notesUrl) && !NotesFailed(net, urls))
            && |r.errors| == (if AttendeesFailed(net, urls) then 1 else 0) + (if NotesFailed(net, urls) then 1 else 0)
            && |r.errors| <= 2
            && (AttendeesFailed(net, urls) ==> r.errors[0] == AttendeesError(urls.attendeesUrl.value))
            && (NotesFailed(net, urls) ==> r.errors[|r.errors| - 1] == NotesError(urls.notesUrl.value))
  {
  }

  /** The result of `collect_all_data`. */
  datatype Collection = Collection(lightningTalksPath: Option<string>, tracks: map<string, TrackData>, errors: seq<string>)

  function TalksPath(outputDir: string): string {
    outputDir + "/lightning_talks.csv"
  }

  function TalksError(url: string): string {
    "Failed to download lightning talks: " + url
  }

  /** The collection after the lightning talks, before any track. */
  function CollectionStart(net: Network, talksUrl: string, outputDir: string): Collection {
    if SheetContent(net, talksUrl, None).Some? then Collection(Some(TalksPath(outputDir)), map[], [])
    else Collection(None, map[], [TalksError(talksUrl)])
  }

  /** The collection once the tracks of `configs` have been collected, in order. */
  function CollectionOf(net: Network, talksUrl: string, configs: seq<(string, TrackUrls)>, outputDir: string): Collection {
    if configs == [] then CollectionStart(net, talksUrl, outputDir)
    else
      var c := CollectionOf(net, talksUrl, configs[..|configs| - 1], outputDir);
      var (trackId, urls) := configs[|configs| - 1];
      var t := TrackDataOf(net, trackId, urls, outputDir);
      c.(tracks := c.tracks[trackId := t], errors := c.errors + t.errors)
  }

  /** `collect_all_data`, over the track configuration in its iteration order. */
  method CollectAllData(net: Network, talksUrl: string, configs: seq<(string, TrackUrls)>, outputDir: string)
    returns (r: Collection)
    ensures r == CollectionOf(net, talksUrl, configs, outputDir)
  {
    r := Collection(None, map[], []);
    var ok, _ := DownloadSheet(net, talksUrl, None);
    if ok {
      r := r.(lightningTalksPath := Some(TalksPath(outputDir)));
    } else {
      r := r.(errors := r.errors + [TalksError(talksUrl)]);
    }
    assert r == CollectionStart(net, talksUrl, outputDir);
    assert configs[..0] == [];
    var i := 0;
    while i < |configs|
      invariant 0 <= i <= |configs|
      invariant r == CollectionOf(net, talksUrl, configs[..i], outputDir)
    {
      var (trackId, urls) := configs[i];
      var t := CollectTrackData(net, trackId, urls, outputDir);
      CollectionOfStep(net, talksUrl, configs, outputDir, i);
      r := r.(tracks := r.tracks[trackId := t], errors := r.errors + t.errors);
      i := i + 1;
    }
    assert configs[..i] == configs;
  }

  /** One more track configuration extends the collection by that track's data. */
  lemma CollectionOfStep(net: Network, talksUrl: string, configs: seq<(string, TrackUrls)>, outputDir: string, i: nat)
    requires i < |configs|
    ensures var c := CollectionOf(net, talksUrl, configs[..i], outputDir);
            var t := TrackDataOf(net, configs[i].0, configs[i].1, outputDir);
            CollectionOf(net, talksUrl, configs[..i + 1], outputDir)
            == c.(tracks := c.tracks[configs[i].0 := t], errors := c.errors + t.errors)
  {
    var prefix := configs[..i + 1];
    assert prefix[..|prefix| - 1] == configs[..i];
    assert prefix[|prefix| - 1] == configs[i];
  }

  /** The errors of every track in order, one list after the other. */
  function TrackErrors(net: Network, configs: seq<(string, TrackUrls)>, outputDir: string): seq<string> {
    if configs == [] then []
    else TrackDataOf(net, configs[0].0, configs[0].1, outputDir).errors + TrackErrors(net, configs[1..], outputDir)
  }

  lemma {:induction false} TrackErrorsSnoc(net: Network, configs: seq<(string, TrackUrls)>, outputDir: string)
    requires configs != []
    ensures var last := configs[|configs| - 1];
            TrackErrors(net, configs, outputDir)
            == TrackErrors(net, configs[..|configs| - 1], outputDir) + TrackDataOf(net, last.0, last.1, outputDir).errors
    decreases |configs|
  {
    if |configs| > 1 {
      TrackErrorsSnoc(net, configs[1..], outputDir);
      assert configs[1..][..|configs[1..]| - 1] == configs[..|configs| - 1][1..];
    }
  }

  /** The errors are the lightning-talks error, if any, followed by each track's errors in order. */
  lemma {:induction false} CollectionErrors(net: Network, talksUrl: string, configs: seq<(string, TrackUrls)>, outputDir: string)
    ensures CollectionOf(net, talksUrl, configs, outputDir).errors
            == (if SheetContent(net, talksUrl, None).None? then [TalksError(talksUrl)] else [])
               + TrackErrors(net, configs, outputDir)
    decreases |configs|
  {
    if configs != [] {
      CollectionErrors(net, talksUrl, configs[..|configs| - 1], outputDir);
      TrackErrorsSnoc(net, configs, outputDir);
    }
  }

  /** The lightning-talks path is set exactly when its download saved the sheet. */
  lemma {:induction false} CollectionTalksPath(net: Network, talksUrl: string, configs: seq<(string, TrackUrls)>, outputDir: string)
    ensures var c := CollectionOf(net, talksUrl, configs, outputDir);
            c.lightningTalksPath == if SheetContent(net, talksUrl, None).Some? then Some(TalksPath(outputDir)) else None
    decreases |configs|
  {
    if configs != [] {
      CollectionTalksPath(net, talksUrl, configs[..|configs| - 1], outputDir);
    }
  }

  function TrackIds(configs: seq<(string, TrackUrls)>): set<string> {
    set i | 0 <= i < |configs| :: configs[i].0
  }

  lemma TrackIdsSnoc(configs: seq<(string, TrackUrls)>)
    requires configs != []
    ensures TrackIds(configs) == TrackIds(configs[..|configs| - 1]) + {configs[|configs| - 1].0}
  {
    var init := configs[..|configs| - 1];
    forall x | x in TrackIds(configs) ensures x in TrackIds(init) + {configs[|configs| - 1].0} {
      var i :| 0 <= i < |configs| && configs[i].0 == x;
      if i < |init| {
        assert init[i] == configs[i];
      }
    }
    forall x | x in TrackIds(init) ensures x in TrackIds(configs) {
      var i :| 0 <= i < |init| && init[i].0 == x;
      assert configs[i] == init[i];
    }
  }

  /** There is one track entry per configured track id. */
  lemma {:induction false} CollectionTrackKeys(net: Network, talksUrl: string, configs: seq<(string, TrackUrls)>, outputDir: string)
    ensures CollectionOf(net, talksUrl, configs, outputDir).tracks.Keys == TrackIds(configs)
    decreases |configs|
  {
    if configs != [] {
      CollectionTrackKeys(net, talksUrl, configs[..|configs| - 1], outputDir);
      TrackIdsSnoc(configs);
    }
  }

  /** A track id configured once gets that configuration's track data. */
  lemma {:induction false} CollectionTrackEntry(net: Network, talksUrl: string, configs: seq<(string, TrackUrls)>, outputDir: string, k: nat)
    requires k < |configs|
    requires forall j :: 0 <= j < |configs| && j != k ==> configs[j].0 != configs[k].0
    ensures var c := CollectionOf(net, talksUrl, configs, outputDir);
            configs[k].0 in c.tracks
            && c.tracks[configs[k].0] == TrackDataOf(net, configs[k].0, configs[k].1, outputDir)
    decreases |configs|
  {
    if k < |configs| - 1 {
      var init := configs[..|configs| - 1];
      forall j | 0 <= j < |init| && j != k ensures init[j].0 != init[k].0 {
        assert init[j] == configs[j];
      }
      CollectionTrackEntry(net, talksUrl, init, outputDir, k);
      assert init[k] == configs[k];
    }
  }
}
