/** The chat completions route (`app/api/chat.py`): the prompt taken from
    a conversation, the base URL for media links, the 404 for an unknown
    model and the mapping of backend failures to HTTP statuses. */
module ChatApi {
  import opened Wrappers
  import opened Strings
  import Messages
  import GeminiChat

  /** The stripped text of a user message, when it is not blank; list
      content joins its "text" parts. */
  function UserText(m: Messages.Message): (t: Option<string>)
    ensures t.Some? ==> t.value != "" && m.role == Some("user")
  {
    if m.role != Some("user") then None
    else match m.content
      case Text(s) => if Strip(s) != "" then Some(Strip(s)) else None
      case Parts(ps) => if Strip(Messages.PartsText(ps)) != "" then Some(Strip(Messages.PartsText(ps))) else None
      case Other(_) => None
  }

  /** The text of the last message that has some, scanning from the end. */
  function LastUserText(ms: seq<Messages.Message>): Option<string> {
    if ms == [] then None
    else if UserText(ms[|ms| - 1]).Some? then UserText(ms[|ms| - 1])
    else LastUserText(ms[..|ms| - 1])
  }

  /** `extract_prompt`: that text, or "" when no user message has any. */
  function ExtractPrompt(ms: seq<Messages.Message>): string {
    if LastUserText(ms).Some? then LastUserText(ms).value else ""
  }

  /** `extract_prompt`, with its reverse scan. */
  method ExtractPromptScan(ms: seq<Messages.Message>) returns (prompt: string)
    ensures prompt == ExtractPrompt(ms)
  {
    var i := |ms|;
    assert ms[..i] == ms;
    while i > 0
      invariant 0 <= i <= |ms|
      invariant LastUserText(ms) == LastUserText(ms[..i])
    {
      assert ms[..i][..i - 1] == ms[..i - 1];
      var msg := ms[i - 1];
      if msg.role == Some("user") {
        match msg.content {
          case Text(s) =>
            if Strip(s) != "" {
              return Strip(s);
            }
          case Parts(ps) =>
            var text := Messages.PartsText(ps);
            if Strip(text) != "" {
              return Strip(text);
            }
          case Other(_) =>
        }
      }
      i := i - 1;
    }
    return "";
  }

  /** What follows decides: the last messages win when they have text. */
  lemma {:induction false} LastUserTextAppend(a: seq<Messages.Message>, b: seq<Messages.Message>)
    ensures LastUserText(a + b) == if LastUserText(b).Some? then LastUserText(b) else LastUserText(a)
    decreases |b|
  {
    if b == [] {
      assert a + b == a;
    } else {
      var b0 := b[..|b| - 1];
      assert (a + b)[..|a + b| - 1] == a + b0;
      assert (a + b)[|a + b| - 1] == b[|b| - 1];
      LastUserTextAppend(a, b0);
    }
  }

  /** Message `k` has the last user text of the conversation. */
  predicate LastUserAt(ms: seq<Messages.Message>, k: int) {
    0 <= k < |ms| && UserText(ms[k]).Some? && forall j :: k < j < |ms| ==> UserText(ms[j]).None?
  }

  /** The prompt is "" exactly when no user message has text. */
  lemma {:induction false} ExtractPromptEmpty(ms: seq<Messages.Message>)
    ensures ExtractPrompt(ms) == "" <==> forall k :: 0 <= k < |ms| ==> UserText(ms[k]).None?
  {
    if ms != [] {
      var n := |ms| - 1;
      ExtractPromptEmpty(ms[..n]);
      if UserText(ms[n]).None? {
        assert forall k :: 0 <= k < n ==> ms[..n][k] == ms[k];
      }
    }
  }

  /** Otherwise it is the text of the last user message that has some. */
  lemma ExtractPromptLast(ms: seq<Messages.Message>)
    ensures ExtractPrompt(ms) != "" ==> exists k :: LastUserAt(ms, k) && UserText(ms[k]) == Some(ExtractPrompt(ms))
  {
    LastUserTextAt(ms);
  }

  lemma {:induction false} LastUserTextAt(ms: seq<Messages.Message>)
    ensures LastUserText(ms).Some? ==> exists k :: LastUserAt(ms, k) && UserText(ms[k]) == LastUserText(ms)
  {
    if ms != [] {
      var n := |ms| - 1;
      if UserText(ms[n]).Some? {
        assert LastUserAt(ms, n);
      } else if LastUserText(ms).Some? {
        LastUserTextAt(ms[..n]);
        var k :| LastUserAt(ms[..n], k) && UserText(ms[..n][k]) == LastUserText(ms[..n]);
        LastUserAtExtend(ms, k);
      }
    }
  }

  /** A message without user text after the last one leaves it the last. */
  lemma LastUserAtExtend(ms: seq<Messages.Message>, k: int)
    requires ms != [] && UserText(ms[|ms| - 1]).None?
    requires LastUserAt(ms[..|ms| - 1], k)
    ensures LastUserAt(ms, k) && ms[..|ms| - 1][k] == ms[k]
  {
    var n := |ms| - 1;
    assert forall j :: k < j < n ==> ms[..n][j] == ms[j];
  }

  /** A message that is not from the user, wherever it is inserted, never
      changes the prompt. */
  lemma InsertOtherRole(a: seq<Messages.Message>, m: Messages.Message, b: seq<Messages.Message>)
    requires m.role != Some("user")
    ensures ExtractPrompt(a + [m] + b) == ExtractPrompt(a + b)
  {
    LastUserTextAppend(a + [m], b);
    LastUserTextAppend(a, b);
    assert (a + [m])[..|a + [m]| - 1] == a;
  }

  /** `rstrip("/")`: every trailing slash removed. */
  function TrimTrailingSlashes(s: string): (r: string)
    ensures r <= s && (r == [] || r[|r| - 1] != '/')
    ensures forall k :: |r| <= k < |s| ==> s[k] == '/'
  {
    if s == [] || s[|s| - 1] != '/' then s else TrimTrailingSlashes(s[..|s| - 1])
  }

  lemma TrimTrailingSlashesIdempotent(s: string)
    ensures TrimTrailingSlashes(TrimTrailingSlashes(s)) == TrimTrailingSlashes(s)
  {
  }

  /** `_get_base_url`: the configured base URL without trailing slashes,
      or the scheme and host of the request, preferring the forwarded ones
      and falling back to the Host header and then "localhost". `headers`
      holds lower-case names. */
  function BaseUrl(configured: string, headers: map<string, string>, scheme: string): string {
    if configured != "" then TrimTrailingSlashes(configured)
    else
      var proto := if "x-forwarded-proto" in headers then headers["x-forwarded-proto"] else scheme;
      var host := if "x-forwarded-host" in headers then headers["x-forwarded-host"]
                  else if "host" in headers then headers["host"] else "localhost";
      proto + "://" + host
  }

  lemma BaseUrlMeaning(configured: string, headers: map<string, string>, scheme: string)
    ensures var u := BaseUrl(configured, headers, scheme);
      && (configured != "" ==>
            && u <= configured && (u == [] || u[|u| - 1] != '/')
            && forall k :: |u| <= k < |configured| ==> configured[k] == '/')
      && (configured == "" ==>
            (if "x-forwarded-proto" in headers then headers["x-forwarded-proto"] else scheme) + "://" <= u)
      && (configured == "" && "x-forwarded-host" !in headers && "host" in headers ==>
            EndsWith(u, "://" + headers["host"]))
      && (configured == "" && "x-forwarded-proto" !in headers && "x-forwarded-host" !in headers && "host" !in headers ==>
            u == scheme + "://localhost")
      && (configured == "" && "x-forwarded-host" in headers ==> EndsWith(u, "://" + headers["x-forwarded-host"]))
  {
    if configured == "" {
      var proto := if "x-forwarded-proto" in headers then headers["x-forwarded-proto"] else scheme;
      var host := if "x-forwarded-host" in headers then headers["x-forwarded-host"]
                  else if "host" in headers then headers["host"] else "localhost";
      var u := BaseUrl(configured, headers, scheme);
      assert u == (proto + "://") + host;
      assert u[..|proto + "://"|] == proto + "://";
      assert u == proto + ("://" + host);
      assert u[|u| - |"://" + host|..] == "://" + host;
    }
  }

  predicate EndsWith(s: string, suffix: string) {
    |suffix| <= |s| && s[|s| - |suffix|..] == suffix
  }

  // Failures.

  /** What `backend.chat` raised. */
  datatype Raised = RaisedValue(message: string) | RaisedRuntime(message: string) | RaisedOther(message: string)

  datatype HttpError = HttpError(status: int, detail: string)

  /** The exception handlers of `chat_completions`, in order. */
  function ChatFailure(e: Raised): HttpError {
    match e
    case RaisedValue(m) => HttpError(400, m)
    case RaisedRuntime(m) =>
      if Contains(Lower(m), "rate_limit") || Contains(m, "429") then HttpError(429, m)
      else if Contains(Lower(m), "unavailable") || Contains(m, "503") then HttpError(503, m)
      else HttpError(500, m)
    case RaisedOther(m) => HttpError(500, m)
  }

  /** The message is always the detail; a rate limit is reported as such
      even when the message also says unavailable. */
  lemma ChatFailureMeaning(e: Raised)
    ensures ChatFailure(e).detail == e.message
    ensures ChatFailure(e).status in {400, 429, 503, 500}
    ensures ChatFailure(e).status == 400 <==> e.RaisedValue?
    ensures ChatFailure(e).status == 429 <==>
      e.RaisedRuntime? && (Contains(Lower(e.message), "rate_limit") || Contains(e.message, "429"))
    ensures ChatFailure(e).status == 503 ==> e.RaisedRuntime? && (Contains(Lower(e.message), "unavailable") || Contains(e.message, "503"))
  {
  }

  /** `Contains` survives prefixing. */
  lemma {:induction false} ContainsAfter(p: string, s: string, sub: string)
    requires Contains(s, sub)
    ensures Contains(p + s, sub)
    decreases |p|
  {
    if p == [] {
      assert p + s == s;
    } else {
      assert (p + s)[1..] == p[1..] + s;
      ContainsAfter(p[1..], s, sub);
    }
  }

  /** A text contains what it holds at some position. */
  lemma {:induction false} ContainsAt(s: string, sub: string, i: nat)
    requires i + |sub| <= |s| && s[i..i + |sub|] == sub
    ensures Contains(s, sub)
    decreases i
  {
    if i == 0 {
      assert sub <= s;
    } else {
      assert s[1..][i - 1..i - 1 + |sub|] == sub;
      ContainsAt(s[1..], sub, i - 1);
    }
  }

  /** Lowering leaves a text without capitals alone. */
  lemma LowerOfLower(s: string)
    requires forall k :: 0 <= k < |s| ==> !('A' <= s[k] <= 'Z')
    ensures Lower(s) == s
  {
  }

  /** A word without capitals is found in the lowered text around it. */
  lemma ContainsLowered(head: string, word: string, tail: string)
    requires Lower(word) == word
    ensures Contains(Lower(head + word + tail), word)
  {
    LowerAppend(head + word, tail);
    LowerAppend(head, word);
    assert Contains(word, word) by {
      assert word <= word;
    }
    ContainsAfter(Lower(head), word, word);
    ContainsBefore(Lower(head) + word, Lower(tail), word);
  }

  /** `Lower` distributes over concatenation. */
  lemma LowerAppend(a: string, b: string)
    ensures Lower(a + b) == Lower(a) + Lower(b)
  {
  }

  /** How the Gemini client's own failures reach the caller: an unknown
      model is a 400, ... */
  lemma GeminiUnknownModel(model: string)
    ensures ChatFailure(RaisedValue(GeminiChat.ValueError("Model '" + model + "' not found. Available: "
                                                           + GeminiChat.AvailableModels).message)).status == 400
  {
  }

  /** ... and the exhaustion of every account is a 503 unless the last
      error was a rate limit. */
  lemma GeminiExhausted(lastError: string)
    ensures var m := "All Gemini accounts unavailable: " + lastError;
      ChatFailure(RaisedRuntime(m)).status == (if Contains(Lower(m), "rate_limit") || Contains(m, "429") then 429 else 503)
  {
    UnavailableIn("All Gemini accounts unavailable: " + lastError, lastError);
  }

  /** The exhaustion message says "unavailable", whatever the last error. */
  lemma UnavailableIn(m: string, lastError: string)
    requires m == "All Gemini accounts unavailable: " + lastError
    ensures Contains(Lower(m), "unavailable")
  {
    assert m == "All Gemini accounts " + "unavailable" + (": " + lastError);
    LowerOfLower("unavailable");
    ContainsLowered("All Gemini accounts ", "unavailable", ": " + lastError);
  }

  /** `Contains` survives suffixing. */
  lemma {:induction false} ContainsBefore(s: string, q: string, sub: string)
    requires Contains(s, sub)
    ensures Contains(s + q, sub)
    decreases |s|
  {
    if sub <= s {
      assert sub <= s + q;
    } else {
      assert (s + q)[1..] == s[1..] + q;
      ContainsBefore(s[1..], q, sub);
    }
  }

  // The route.

  /** The repr of a list of model ids, as in the 404 detail. */
  function ListRepr(ids: seq<string>): string {
    "[" + Join(Quoted(ids), ", ") + "]"
  }

  function Quoted(ids: seq<string>): (r: seq<string>)
    ensures |r| == |ids|
  {
    if ids == [] then [] else ["'" + ids[0] + "'"] + Quoted(ids[1..])
  }

  /** What the route answers: the stream, the JSON body, or an error. */
  datatype Reply = Streaming | Completion | Failure(error: HttpError)

  /** `chat_completions`: `backend` is what the router found for the model,
      `allModelIds` the ids of every backend's models, and `raised` what
      the backend's `chat` raised, if anything. */
  function ChatCompletions(model: string, backend: Option<string>, allModelIds: seq<string>, stream: bool,
                           raised: Option<Raised>): Reply {
    if backend.None? then Failure(HttpError(404, "Model '" + model + "' not found. Available: " + ListRepr(allModelIds)))
    else if raised.Some? then Failure(ChatFailure(raised.value))
    else if stream then Streaming
    else Completion
  }

  /** An unknown model is a 404 naming it, before the backend runs; the
      backend's failures are mapped; otherwise the reply is a stream
      exactly when one was asked for. */
  lemma ChatCompletionsMeaning(model: string, backend: Option<string>, allModelIds: seq<string>, stream: bool,
                               raised: Option<Raised>)
    ensures var r := ChatCompletions(model, backend, allModelIds, stream, raised);
      && (backend.None? ==> r.Failure? && r.error.status == 404 && ("Model '" + model + "'") <= r.error.detail)
      && (backend.Some? && raised.Some? ==> r.Failure? && r.error.status != 404 && r.error.detail == raised.value.message)
      && (backend.Some? && raised.None? ==> (r.Streaming? <==> stream) && !r.Failure?)
  {
    if backend.Some? && raised.Some? {
      ChatFailureMeaning(raised.value);
    }
    if backend.None? {
      var s := "Model '" + model + "'";
      assert "Model '" + model + "' not found. Available: " + ListRepr(allModelIds)
        == s + (" not found. Available: " + ListRepr(allModelIds));
    }
  }
}
