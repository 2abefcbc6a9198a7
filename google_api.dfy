/** The helpers around Google's Discovery Engine API
    (`app/backends/gemini/google_api.py`): request headers, the
    retry-once-on-401 request, session creation, uploads, the file metadata
    map, image downloads with retries, and the naming of saved media.
    The network is a parameter: what each send returns is given. */
module GoogleApi {
  import opened Wrappers
  import opened Strings

  /** `GEMINI_API_BASE`. */
  const GeminiApiBase := "https://biz-discoveryengine.googleapis.com/v1alpha"

  type Headers = map<string, string>

  /** The common headers that do not depend on the request. */
  const FixedHeaders: Headers := map[
    "accept" := "*/*",
    "accept-encoding" := "gzip, deflate, br, zstd",
    "accept-language" := "zh-CN,zh;q=0.9,en;q=0.8",
    "content-type" := "application/json",
    "origin" := "https://business.gemini.google",
    "referer" := "https://business.gemini.google/",
    "x-server-timeout" := "1800",
    "sec-ch-ua" := "\"Chromium\";v=\"124\", \"Google Chrome\";v=\"124\", \"Not-A.Brand\";v=\"99\"",
    "sec-ch-ua-mobile" := "?0",
    "sec-ch-ua-platform" := "\"Windows\"",
    "sec-fetch-dest" := "empty",
    "sec-fetch-mode" := "cors",
    "sec-fetch-site" := "cross-site"]

  /** `get_common_headers`: the fixed browser-like headers plus the bearer
      token and the user agent, and nothing else. */
  function CommonHeaders(jwt: string, userAgent: string): (h: Headers)
    ensures h.Keys == FixedHeaders.Keys + {"authorization", "user-agent"}
    ensures h["authorization"] == "Bearer " + jwt && h["user-agent"] == userAgent
    ensures forall k :: k in FixedHeaders ==> h[k] == FixedHeaders[k]
  {
    assert "authorization" !in FixedHeaders && "user-agent" !in FixedHeaders;
    AddTwo(FixedHeaders, "authorization", "Bearer " + jwt, "user-agent", userAgent);
    FixedHeaders + map["authorization" := "Bearer " + jwt, "user-agent" := userAgent]
  }

  /** Two new keys added to a map. */
  lemma AddTwo<K, V>(m: map<K, V>, k1: K, v1: V, k2: K, v2: V)
    requires k1 != k2
    ensures var h := m + map[k1 := v1, k2 := v2];
      && h.Keys == m.Keys + {k1, k2} && h[k1] == v1 && h[k2] == v2
      && (forall k :: k in m && k != k1 && k != k2 ==> h[k] == m[k])
  {
  }

  /** The common headers updated with the caller's extra headers, if any. */
  function RequestHeaders(jwt: string, userAgent: string, extra: Headers): Headers {
    if extra != map[] then CommonHeaders(jwt, userAgent) + extra else CommonHeaders(jwt, userAgent)
  }

  /** Extra headers win over the common ones; the bearer token is sent
      unless the caller overrides `authorization`. */
  lemma RequestHeadersMeaning(jwt: string, userAgent: string, extra: Headers)
    ensures var h := RequestHeaders(jwt, userAgent, extra);
      && h.Keys == CommonHeaders(jwt, userAgent).Keys + extra.Keys
      && (forall k :: k in extra ==> h[k] == extra[k])
      && (forall k :: k in CommonHeaders(jwt, userAgent) && k !in extra ==> h[k] == CommonHeaders(jwt, userAgent)[k])
  {
  }

  /** The bearer token is sent unless the caller overrides
      `authorization`. */
  lemma Authorization(jwt: string, userAgent: string, extra: Headers)
    requires "authorization" !in extra
    ensures RequestHeaders(jwt, userAgent, extra)["authorization"] == "Bearer " + jwt
  {
  }

  /** `str.upper` on ASCII letters. */
  function UpperChar(c: char): char {
    if 'a' <= c <= 'z' then (c as int - 32) as char else c
  }

  function Upper(s: string): (r: string)
    ensures |r| == |s| && forall i :: 0 <= i < |s| ==> r[i] == UpperChar(s[i])
  {
    if s == [] then [] else [UpperChar(s[0])] + Upper(s[1..])
  }

  /** One request as sent: its verb and headers. */
  datatype Sent = Sent(verb: string, headers: Headers)

  /** `make_request_with_jwt_retry`: `jwt(i)` is what the i-th `get_jwt`
      gives (a token, or the error it raises) and `status(i)` the status of
      the i-th send. The token is fetched before the verb is checked.
      Returns the sends made and the last status. */
  function JwtRetry(verbName: string, userAgent: string, extra: Headers,
                    jwt: nat -> Result<string, ApiError>, status: nat -> int)
    : Result<(seq<Sent>, int), ApiError>
  {
    if jwt(0).Err? then Err(jwt(0).error)
    else
      var verb := Upper(verbName);
      if verb != "GET" && verb != "POST" then Err(ValueError("Unsupported HTTP method: " + verbName))
      else
        var first := Sent(verb, RequestHeaders(jwt(0).value, userAgent, extra));
        if status(0) != 401 then Ok(([first], status(0)))
        else if jwt(1).Err? then Err(jwt(1).error)
        else Ok(([first, Sent(verb, RequestHeaders(jwt(1).value, userAgent, extra))], status(1)))
  }

  /** A failing token fetch comes first, whatever the verb; then a verb
      other than GET or POST, in any case, is refused before any send; a
      401 whose second token fetch fails raises that error. */
  lemma JwtRetryRefuses(verbName: string, userAgent: string, extra: Headers,
                        jwt: nat -> Result<string, ApiError>, status: nat -> int)
    ensures var r := JwtRetry(verbName, userAgent, extra, jwt, status);
      var known := Upper(verbName) == "GET" || Upper(verbName) == "POST";
      && (jwt(0).Err? ==> r == Err(jwt(0).error))
      && (jwt(0).Ok? && !known ==> r == Err(ValueError("Unsupported HTTP method: " + verbName)))
      && (jwt(0).Ok? && known && status(0) == 401 && jwt(1).Err? ==> r == Err(jwt(1).error))
      && (r.Ok? <==> jwt(0).Ok? && known && (status(0) == 401 ==> jwt(1).Ok?))
  {
  }

  /** Otherwise there are one or two sends of that verb, the second exactly
      when the first answered 401, each carrying the token the matching
      `get_jwt` call gave, and the last send's status is returned. */
  lemma JwtRetrySends(verbName: string, userAgent: string, extra: Headers,
                      jwt: nat -> Result<string, ApiError>, status: nat -> int)
    ensures var r := JwtRetry(verbName, userAgent, extra, jwt, status);
      r.Ok? ==>
        var (sends, last) := r.value;
        && |sends| == (if status(0) == 401 then 2 else 1)
        && (forall i :: 0 <= i < |sends| ==> jwt(i).Ok? && sends[i].verb == Upper(verbName))
        && ("authorization" !in extra ==>
              forall i :: 0 <= i < |sends| ==> sends[i].headers["authorization"] == "Bearer " + jwt(i).value)
        && last == status(|sends| - 1)
  {
    var r := JwtRetry(verbName, userAgent, extra, jwt, status);
    if r.Ok? && "authorization" !in extra {
      Authorization(jwt(0).value, userAgent, extra);
      if status(0) == 401 {
        Authorization(jwt(1).value, userAgent, extra);
      }
    }
  }

  /** The retry as written: both calls go through `get_jwt`, which hands
      out the cached token again while the cache is live (see
      `Jwt.JwtManager.Get`); only when `live` is false is the second token
      a newly minted one. */
  function JwtRetryAsWritten(verbName: string, userAgent: string, extra: Headers,
                             cached: string, live: bool, minted: Result<string, ApiError>, status: nat -> int)
    : Result<(seq<Sent>, int), ApiError>
  {
    JwtRetry(verbName, userAgent, extra, (i: nat) => if i == 0 || live then Ok(cached) else minted, status)
  }

  /** While the cache is live, the request sent after a 401 is the very
      request that was refused: same verb, same headers, same token. */
  lemma RetryResendsCachedToken(verbName: string, userAgent: string, extra: Headers,
                                cached: string, minted: Result<string, ApiError>, status: nat -> int)
    requires Upper(verbName) == "GET" || Upper(verbName) == "POST"
    requires status(0) == 401
    ensures var r := JwtRetryAsWritten(verbName, userAgent, extra, cached, true, minted, status);
      r.Ok? && |r.value.0| == 2 && r.value.0[1] == r.value.0[0]
  {
  }

  /** The retry as evidently intended: a 401 drops the cached token, so the
      second send carries a newly minted one (`_refresh` rather than
      `get`). */
  function JwtRetryRefreshing(verbName: string, userAgent: string, extra: Headers,
                              cached: string, minted: Result<string, ApiError>, status: nat -> int)
    : Result<(seq<Sent>, int), ApiError>
  {
    JwtRetry(verbName, userAgent, extra, (i: nat) => if i == 0 then Ok(cached) else minted, status)
  }

  /** With the intended retry, the request after a 401 carries the minted
      token, so a new token always gives a different second request; a
      failed mint is raised. */
  lemma RetryUsesMintedToken(verbName: string, userAgent: string, extra: Headers,
                             cached: string, minted: Result<string, ApiError>, status: nat -> int)
    requires Upper(verbName) == "GET" || Upper(verbName) == "POST"
    requires status(0) == 401
    requires "authorization" !in extra
    ensures var r := JwtRetryRefreshing(verbName, userAgent, extra, cached, minted, status);
      && (minted.Err? ==> r == Err(minted.error))
      && (minted.Ok? ==>
            && r.Ok? && |r.value.0| == 2
            && r.value.0[1].headers["authorization"] == "Bearer " + minted.value
            && (minted.value != cached ==> r.value.0[1] != r.value.0[0]))
  {
    if minted.Ok? {
      Authorization(cached, userAgent, extra);
      Authorization(minted.value, userAgent, extra);
      var r := JwtRetryRefreshing(verbName, userAgent, extra, cached, minted, status);
      if minted.value != cached {
        assert ("Bearer " + minted.value)[7..] == minted.value;
        assert ("Bearer " + cached)[7..] == cached;
      }
    }
  }

  /** The failures the API helpers raise. */
  datatype ApiError =
    | HttpStatusError(message: string)
    | MissingField(name: string)
    | TimeoutError
    | TransportError(kind: string)
    | RuntimeError(message: string)
    | ValueError(message: string)

  /** The session creation endpoint. */
  const CreateSessionUrl := GeminiApiBase + "/locations/global/widgetCreateSession"

  /** `create_google_session` after its send: a non-200 status fails,
      otherwise the session name of the body is the result. */
  function CreateSession(status: int, sessionName: Option<string>): (r: Result<string, ApiError>)
    ensures r.Ok? <==> status == 200 && sessionName.Some?
    ensures r.Ok? ==> r.value == sessionName.value
    ensures status != 200 ==> r == Err(HttpStatusError("createSession failed: " + IntToString(status)))
  {
    if status != 200 then Err(HttpStatusError("createSession failed: " + IntToString(status)))
    else match sessionName
      case None => Err(MissingField("session"))
      case Some(name) => Ok(name)
  }

  /** The position of the last `sep` in `s`, if any. */
  function LastIndexOf(s: string, sep: char): (r: Option<nat>)
    ensures r.Some? ==> r.value < |s| && s[r.value] == sep && forall j :: r.value < j < |s| ==> s[j] != sep
    ensures r.None? ==> forall j :: 0 <= j < |s| ==> s[j] != sep
    decreases |s|
  {
    if s == [] then None
    else if s[|s| - 1] == sep then Some(|s| - 1)
    else LastIndexOf(s[..|s| - 1], sep)
  }

  /** `s.split(sep)[-1]`: the text after the last separator, or all of it
      when there is none. */
  function LastPart(s: string, sep: char): (l: string)
    ensures forall j :: 0 <= j < |l| ==> l[j] != sep
    ensures |l| <= |s| && s[|s| - |l|..] == l
    ensures sep !in s ==> l == s
    ensures sep in s ==> |l| < |s| && s[|s| - |l| - 1] == sep
  {
    match LastIndexOf(s, sep)
    case None => s
    case Some(i) => s[i + 1..]
  }

  /** The extension of an uploaded file: the part of the MIME type after
      its last `/`, or "bin" without one. */
  function UploadExtension(mimeType: string): (ext: string)
    ensures '/' !in mimeType ==> ext == "bin"
    ensures '/' in mimeType ==>
      '/' !in ext && |ext| < |mimeType| && mimeType[|mimeType| - |ext|..] == ext && mimeType[|mimeType| - |ext| - 1] == '/'
  {
    if '/' in mimeType then LastPart(mimeType, '/')
    else "bin"
  }

  predicate EndsWith(s: string, suffix: string) {
    |suffix| <= |s| && s[|s| - |suffix|..] == suffix
  }

  /** The name an upload is given: `upload_<seconds>_<six hex digits>.<ext>`,
      the clock and the random hex being inputs. */
  function UploadFileName(now: int, hex: string, mimeType: string): (name: string)
    ensures "upload_" <= name && EndsWith(name, "." + UploadExtension(mimeType))
  {
    "upload_" + IntToString(now) + "_" + Take(hex, 6) + "." + UploadExtension(mimeType)
  }

  /** `upload_context_file` after its send: a non-200 status fails,
      otherwise the file id of the body, if any. */
  function UploadResult(status: int, fileId: Option<string>): (r: Result<Option<string>, ApiError>)
    ensures r.Ok? <==> status == 200
    ensures r.Ok? ==> r.value == fileId
  {
    if status != 200 then Err(HttpStatusError("Upload failed: " + IntToString(status))) else Ok(fileId)
  }

  /** One entry of `fileMetadata`: its id, when present, and the rest. */
  datatype FileMetadata = FileMetadata(fileId: Option<string>, fields: map<string, string>)

  /** Entries with a non-empty id, keyed by it; a later entry replaces an
      earlier one with the same id. */
  function MetadataMap(entries: seq<FileMetadata>): map<string, FileMetadata> {
    if entries == [] then map[]
    else
      var m := MetadataMap(entries[..|entries| - 1]);
      var fm := entries[|entries| - 1];
      if fm.fileId.Some? && fm.fileId.value != "" then m[fm.fileId.value := fm] else m
  }

  /** `get_session_file_metadata` after its send. */
  function SessionFileMetadata(status: int, entries: seq<FileMetadata>): map<string, FileMetadata> {
    if status != 200 then map[] else MetadataMap(entries)
  }

  predicate HasId(fm: FileMetadata, id: string) {
    fm.fileId == Some(id)
  }

  /** Some entry carries the id. */
  predicate Carries(entries: seq<FileMetadata>, id: string) {
    exists j :: 0 <= j < |entries| && HasId(entries[j], id)
  }

  /** Entry `j` is the last to carry the id. */
  predicate LastWith(entries: seq<FileMetadata>, j: int, id: string) {
    0 <= j < |entries| && HasId(entries[j], id) && forall l :: j < l < |entries| ==> !HasId(entries[l], id)
  }

  /** The map's keys are exactly the non-empty ids of the entries. */
  lemma {:induction false} MetadataMapKeys(entries: seq<FileMetadata>, id: string)
    ensures id in MetadataMap(entries) <==> id != "" && Carries(entries, id)
  {
    if entries != [] {
      var n := |entries| - 1;
      var prefix := entries[..n];
      MetadataMapKeys(prefix, id);
      if Carries(entries, id) && !HasId(entries[n], id) {
        var j :| 0 <= j < |entries| && HasId(entries[j], id);
        assert HasId(prefix[j], id);
      }
      if Carries(prefix, id) {
        var j :| 0 <= j < |prefix| && HasId(prefix[j], id);
        assert HasId(entries[j], id);
      }
    }
  }

  /** Each id maps to the last entry carrying it. */
  lemma {:induction false} MetadataMapValues(entries: seq<FileMetadata>, id: string)
    requires id in MetadataMap(entries)
    ensures exists j :: LastWith(entries, j, id) && entries[j] == MetadataMap(entries)[id]
  {
    var n := |entries| - 1;
    var prefix := entries[..n];
    MetadataMapKeys(entries, id);
    if HasId(entries[n], id) {
      assert LastWith(entries, n, id);
    } else {
      MetadataMapValues(prefix, id);
      var j :| LastWith(prefix, j, id) && prefix[j] == MetadataMap(prefix)[id];
      assert LastWith(entries, j, id);
    }
  }

  /** The filling loop of `get_session_file_metadata`. */
  method GetSessionFileMetadata(status: int, entries: seq<FileMetadata>) returns (result: map<string, FileMetadata>)
    ensures result == SessionFileMetadata(status, entries)
  {
    if status != 200 {
      return map[];
    }
    result := map[];
    for k := 0 to |entries|
      invariant result == MetadataMap(entries[..k])
    {
      assert entries[..k + 1][..k] == entries[..k];
      var fm := entries[k];
      if fm.fileId.Some? && fm.fileId.value != "" {
        result := result[fm.fileId.value := fm];
      }
    }
    assert entries[..|entries|] == entries;
  }

  /** `build_image_download_url`. */
  function DownloadUrl(session: string, fileId: string): (url: string)
    ensures GeminiApiBase + "/" + session <= url && EndsWith(url, "&alt=media")
  {
    GeminiApiBase + "/" + session + ":downloadFile?fileId=" + fileId + "&alt=media"
  }

  /** The file id sits between `?fileId=` and `&alt=media`, so distinct ids
      of one session give distinct URLs. */
  lemma DownloadUrlInjective(session: string, id1: string, id2: string)
    requires DownloadUrl(session, id1) == DownloadUrl(session, id2)
    ensures id1 == id2
  {
    var head := GeminiApiBase + "/" + session + ":downloadFile?fileId=";
    var u1, u2 := DownloadUrl(session, id1), DownloadUrl(session, id2);
    assert u1 == head + id1 + "&alt=media";
    assert u2 == head + id2 + "&alt=media";
    assert |id1| == |id2|;
    assert id1 == u1[|head|..|head| + |id1|];
    assert id2 == u2[|head|..|head| + |id2|];
  }

  // Downloads.

  /** What one attempt met: a response after the 401 retry, a timeout of
      the 180-second wait, another `httpx.HTTPError`, or any other
      exception (such as `get_jwt`'s expired-account error, or a token
      refresh whose body cannot be parsed or decoded), which the loop does
      not catch; a refresh refused with a non-200 status is an
      `httpx.HTTPError` and is retried. */
  datatype Fetch =
    | Response(status: int, content: seq<bv8>)
    | Timeout
    | Failed(kind: string)
    | Raised(error: ApiError)

  /** `raise_for_status` and the exception an attempt ends with: `None` for
      a success. */
  function FetchError(f: Fetch): Option<ApiError> {
    match f
    case Response(status, _) =>
      if 200 <= status < 300 then None
      else Some(HttpStatusError("status " + IntToString(status)))
    case Timeout => Some(TimeoutError)
    case Failed(kind) => Some(TransportError(kind))
    case Raised(e) => Some(e)
  }

  /** An attempt that failed with one of the two handled kinds
      (`asyncio.TimeoutError`, or `httpx.HTTPError`, which covers
      `raise_for_status`'s `HTTPStatusError`), so the loop may go on. */
  predicate Retried(f: Fetch) {
    !f.Raised? && FetchError(f).Some?
  }

  function Pow2(n: nat): (p: nat)
    ensures p >= 1
  {
    if n == 0 then 1 else 2 * Pow2(n - 1)
  }

  /** The sleeps after the first `k` failed attempts: 1, 2, 4, ... seconds. */
  function Backoff(k: nat): (s: seq<nat>)
    ensures |s| == k
  {
    if k == 0 then [] else Backoff(k - 1) + [Pow2(k - 1)]
  }

  /** The attempts of `download_image_with_jwt` from attempt `i` of `n`:
      the first success is returned; an unhandled exception leaves at once;
      a handled failure sleeps `2**i` seconds unless it was the last
      attempt, which re-raises; with no attempts at all the download
      fails. */
  function DownloadTries(i: nat, n: int, fetch: nat -> Fetch, sleeps: seq<nat>): (Result<seq<bv8>, ApiError>, seq<nat>)
    decreases n - i
  {
    if i >= n then (Err(RuntimeError("Image download failed unexpectedly")), sleeps)
    else if fetch(i).Raised? then (Err(fetch(i).error), sleeps)
    else match FetchError(fetch(i))
      case None => (Ok(fetch(i).content), sleeps)
      case Some(e) =>
        if i == n - 1 then (Err(e), sleeps)
        else DownloadTries(i + 1, n, fetch, sleeps + [Pow2(i)])
  }

  /** `download_image_with_jwt`, with its retry loop. */
  method DownloadImage(maxRetries: int, fetch: nat -> Fetch) returns (r: Result<seq<bv8>, ApiError>, sleeps: seq<nat>)
    ensures (r, sleeps) == DownloadTries(0, maxRetries, fetch, [])
  {
    sleeps := [];
    var attempt := 0;
    while attempt < maxRetries
      invariant 0 <= attempt
      invariant DownloadTries(attempt, maxRetries, fetch, sleeps) == DownloadTries(0, maxRetries, fetch, [])
      decreases maxRetries - attempt
    {
      var f := fetch(attempt);
      if f.Raised? {
        return Err(f.error), sleeps;
      }
      var err := FetchError(f);
      if err.None? {
        return Ok(f.content), sleeps;
      }
      if attempt == maxRetries - 1 {
        return Err(err.value), sleeps;
      }
      sleeps := sleeps + [Pow2(attempt)];
      attempt := attempt + 1;
    }
    r := Err(RuntimeError("Image download failed unexpectedly"));
  }

  /** The first attempt from `i` on that is not a handled failure, or `n`
      when there is none. */
  function FirstStop(fetch: nat -> Fetch, i: nat, n: int): (k: nat)
    requires i <= n
    ensures i <= k <= n
    ensures forall l :: i <= l < k ==> Retried(fetch(l))
    ensures k < n ==> !Retried(fetch(k))
    decreases n - i
  {
    if i == n || !Retried(fetch(i)) then i else FirstStop(fetch, i + 1, n)
  }

  /** An attempt after only handled failures that is not one itself is the
      first stop. */
  lemma {:induction false} FirstStopAt(fetch: nat -> Fetch, i: nat, n: int, j: nat)
    requires i <= j < n
    requires forall l :: i <= l < j ==> Retried(fetch(l))
    requires !Retried(fetch(j))
    ensures FirstStop(fetch, i, n) == j
    decreases j - i
  {
    if i < j {
      assert Retried(fetch(i));
      FirstStopAt(fetch, i + 1, n, j);
    }
  }

  /** The attempts are decided by the first stop: its content on success,
      its exception at once otherwise, after one doubling sleep per earlier
      attempt; without a stop the last attempt's handled failure. */
  lemma {:induction false} DownloadTriesByStop(i: nat, n: int, fetch: nat -> Fetch)
    requires i <= n
    ensures var k := FirstStop(fetch, i, n);
      var (r, s) := DownloadTries(i, n, fetch, Backoff(i));
      && (i == n ==> r == Err(RuntimeError("Image download failed unexpectedly")) && s == Backoff(i))
      && (k < n && fetch(k).Raised? ==> r == Err(fetch(k).error) && s == Backoff(k))
      && (k < n && !fetch(k).Raised? ==> FetchError(fetch(k)).None? && r == Ok(fetch(k).content) && s == Backoff(k))
      && (i < k == n ==> r == Err(FetchError(fetch(n - 1)).value) && s == Backoff(n - 1))
    decreases n - i
  {
    if i < n - 1 && Retried(fetch(i)) {
      assert Backoff(i) + [Pow2(i)] == Backoff(i + 1);
      DownloadTriesByStop(i + 1, n, fetch);
    }
  }

  /** Attempt `j` is the first from attempt `i` on that did not fail with a
      handled kind, and it succeeded. */
  predicate FirstSuccess(fetch: nat -> Fetch, i: nat, j: nat) {
    i <= j && FetchError(fetch(j)).None? && forall l :: i <= l < j ==> Retried(fetch(l))
  }

  /** Attempt `j` is the first from attempt `i` on that did not fail with a
      handled kind, and it raised an unhandled exception. */
  predicate FirstRaise(fetch: nat -> Fetch, i: nat, j: nat) {
    i <= j && fetch(j).Raised? && forall l :: i <= l < j ==> Retried(fetch(l))
  }

  /** At most `max_retries` attempts; the first attempt that is not a
      handled failure decides: its content on success, its exception at
      once otherwise; the sleeps between attempts double from one second;
      when every attempt fails with a handled kind the last failure is
      re-raised; no attempts at all is a failure. */
  lemma DownloadTriesMeaning(i: nat, n: int, fetch: nat -> Fetch)
    requires i <= n
    ensures var (r, s) := DownloadTries(i, n, fetch, Backoff(i));
      && (i == n ==> r == Err(RuntimeError("Image download failed unexpectedly")) && s == Backoff(i))
      && (r.Ok? <==> exists j :: i <= j < n && FirstSuccess(fetch, i, j))
      && (r.Ok? ==> exists j: nat :: j < n && FirstSuccess(fetch, i, j) && r.value == fetch(j).content && s == Backoff(j))
      && (forall j: nat :: j < n && FirstRaise(fetch, i, j) ==> r == Err(fetch(j).error) && s == Backoff(j))
      && (i < n && (forall j :: i <= j < n ==> Retried(fetch(j))) ==>
            r == Err(FetchError(fetch(n - 1)).value) && s == Backoff(n - 1))
  {
    DownloadTriesByStop(i, n, fetch);
    DownloadTriesSucceeds(i, n, fetch);
    if exists j :: i <= j < n && FirstSuccess(fetch, i, j) {
      var j :| i <= j < n && FirstSuccess(fetch, i, j);
      FirstStopAt(fetch, i, n, j);
    }
    forall j: nat | j < n && FirstRaise(fetch, i, j)
      ensures DownloadTries(i, n, fetch, Backoff(i)) == (Err(fetch(j).error), Backoff(j))
    {
      FirstStopAt(fetch, i, n, j);
    }
  }

  /** A success is the first attempt that is not a handled failure, after
      one doubling sleep per earlier attempt. */
  lemma DownloadTriesSucceeds(i: nat, n: int, fetch: nat -> Fetch)
    requires i <= n
    ensures var (r, s) := DownloadTries(i, n, fetch, Backoff(i));
      r.Ok? ==> exists j: nat :: j < n && FirstSuccess(fetch, i, j) && r.value == fetch(j).content && s == Backoff(j)
  {
    DownloadTriesByStop(i, n, fetch);
    var k := FirstStop(fetch, i, n);
    if DownloadTries(i, n, fetch, Backoff(i)).0.Ok? {
      assert FirstSuccess(fetch, i, k);
    }
  }

  /** A failure is either the first unhandled exception, raised at once
      after the sleeps of the handled failures before it, or, when every
      attempt failed with a handled kind, the last attempt's error. */
  lemma DownloadTriesFails(i: nat, n: int, fetch: nat -> Fetch)
    requires i <= n
    ensures var (r, s) := DownloadTries(i, n, fetch, Backoff(i));
      i < n && r.Err? ==>
        || (exists j: nat :: j < n && FirstRaise(fetch, i, j) && r.error == fetch(j).error && s == Backoff(j))
        || ((forall j :: i <= j < n ==> Retried(fetch(j)))
            && r.error == FetchError(fetch(n - 1)).value && s == Backoff(n - 1))
  {
    DownloadTriesByStop(i, n, fetch);
    var k := FirstStop(fetch, i, n);
    if k < n && fetch(k).Raised? {
      assert FirstRaise(fetch, i, k);
    }
  }

  /** The download as a whole, from the first attempt. */
  lemma DownloadMeaning(maxRetries: int, fetch: nat -> Fetch)
    ensures var (r, s) := DownloadTries(0, maxRetries, fetch, []);
      && (maxRetries <= 0 ==> r == Err(RuntimeError("Image download failed unexpectedly")) && s == [])
      && (r.Ok? <==> exists j :: 0 <= j < maxRetries && FirstSuccess(fetch, 0, j))
      && (r.Ok? ==> exists j :: 0 <= j < maxRetries && fetch(j).Response? && r.value == fetch(j).content && s == Backoff(j))
      && (forall j: nat :: j < maxRetries && FirstRaise(fetch, 0, j) ==> r == Err(fetch(j).error) && s == Backoff(j))
      && (maxRetries > 0 && (forall j :: 0 <= j < maxRetries ==> Retried(fetch(j))) ==>
            r == Err(FetchError(fetch(maxRetries - 1)).value) && s == Backoff(maxRetries - 1))
  {
    if maxRetries > 0 {
      DownloadTriesMeaning(0, maxRetries, fetch);
      var (r, s) := DownloadTries(0, maxRetries, fetch, []);
      if r.Ok? {
        var j: nat :| j < maxRetries && FirstSuccess(fetch, 0, j) && r.value == fetch(j).content && s == Backoff(j);
        assert 0 <= j < maxRetries && fetch(j).Response?;
      }
    }
  }

  // Saved media.

  /** `ext_map` in `save_media_file`. */
  const MediaExtensions: map<string, string> := map[
    "image/png" := ".png",
    "image/jpeg" := ".jpg",
    "image/gif" := ".gif",
    "image/webp" := ".webp",
    "video/mp4" := ".mp4",
    "video/webm" := ".webm",
    "video/quicktime" := ".mov"]

  function MediaExtension(mimeType: string): (ext: string)
    ensures ext in MediaExtensions.Values
    ensures ext == ".png" <==> mimeType !in MediaExtensions || mimeType == "image/png"
  {
    assert MediaExtensions["image/png"] == ".png";
    if mimeType in MediaExtensions then MediaExtensions[mimeType] else ".png"
  }

  /** The saved file's name, `<chat id>_<file id><ext>`. */
  function MediaFileName(chatId: string, fileId: string, mimeType: string): string {
    chatId + "_" + fileId + MediaExtension(mimeType)
  }

  /** The public URL `save_media_file` returns; the write itself is I/O. */
  function MediaUrl(baseUrl: string, urlPath: string, chatId: string, fileId: string, mimeType: string): string {
    baseUrl + "/" + urlPath + "/" + MediaFileName(chatId, fileId, mimeType)
  }

  /** The URL is the base, the path and the file name joined by `/`; the
      name starts with the chat id and an underscore and ends with the
      extension of the MIME type. */
  lemma MediaUrlMeaning(baseUrl: string, urlPath: string, chatId: string, fileId: string, mimeType: string)
    ensures var name := MediaFileName(chatId, fileId, mimeType);
      var url := MediaUrl(baseUrl, urlPath, chatId, fileId, mimeType);
      var ext := MediaExtension(mimeType);
      && url == baseUrl + "/" + urlPath + "/" + name
      && name[..|chatId| + 1] == chatId + "_"
      && name[|name| - |ext|..] == ext
      && url[|url| - |name|..] == name
  {
  }

  /** Two files of one chat with distinct ids of one MIME type get
      distinct names. */
  lemma MediaFileNameInjective(chatId: string, id1: string, id2: string, mimeType: string)
    requires MediaFileName(chatId, id1, mimeType) == MediaFileName(chatId, id2, mimeType)
    ensures id1 == id2
  {
    var n1, n2 := MediaFileName(chatId, id1, mimeType), MediaFileName(chatId, id2, mimeType);
    assert |id1| == |id2|;
    assert id1 == n1[|chatId| + 1..|chatId| + 1 + |id1|];
    assert id2 == n2[|chatId| + 1..|chatId| + 1 + |id2|];
  }
}
