/** Conversation helpers of the Gemini backend
    (`app/backends/gemini/message.py`): the conversation fingerprint, the
    text of a message, the parse of the last message and the plain-text
    transcript used when a conversation moves to a new session. MD5 and the
    HTTP download are inputs. */
module Messages {
  import opened Wrappers
  import opened Strings

  /** One part of multimodal content, with the source's defaults already
      applied: `text` is `part.get("text", "")` and `url` is
      `part.get("image_url", {}).get("url", "")`. */
  datatype Part = Part(partType: Option<string>, text: string, url: string)

  /** Message content: a string, a list of parts, or any other JSON value,
      carried as its `str()` rendering. */
  datatype Content = Text(s: string) | Parts(parts: seq<Part>) | Other(rendered: string)

  /** A chat message; a missing role is `None`, a missing content is the
      empty string. */
  datatype Message = Message(role: Option<string>, content: Content)

  /** An attachment handed to Gemini: a MIME type and base64 data. */
  datatype Image = Image(mime: string, data: string)

  /** `msg.get("role", "")`. */
  function RoleText(role: Option<string>): string {
    if role.Some? then role.value else ""
  }

  /** The joined `text` of the parts whose type is "text", in order. */
  function PartsText(ps: seq<Part>): string {
    if ps == [] then []
    else
      var last := ps[|ps| - 1];
      PartsText(ps[..|ps| - 1]) + (if last.partType == Some("text") then last.text else [])
  }

  /** `extract_text_from_content`. */
  function ExtractText(c: Content): (text: string)
    ensures c.Text? ==> text == c.s
    ensures c.Parts? ==> text == PartsText(c.parts)
  {
    match c
    case Text(s) => s
    case Parts(ps) => PartsText(ps)
    case Other(r) => r
  }

  /** The parts' text is the text of the first parts followed by the text
      of the rest: extraction keeps the parts' order. */
  lemma {:induction false} PartsTextAppend(a: seq<Part>, b: seq<Part>)
    ensures PartsText(a + b) == PartsText(a) + PartsText(b)
    decreases |b|
  {
    if b == [] {
      assert a + b == a;
    } else {
      var b0 := b[..|b| - 1];
      assert (a + b)[..|a + b| - 1] == a + b0;
      PartsTextAppend(a, b0);
    }
  }

  /** Parts of any type other than "text" contribute nothing. */
  lemma {:induction false} PartsTextOfNonText(ps: seq<Part>)
    requires forall i :: 0 <= i < |ps| ==> ps[i].partType != Some("text")
    ensures PartsText(ps) == []
    decreases |ps|
  {
    if ps != [] {
      PartsTextOfNonText(ps[..|ps| - 1]);
    }
  }

  /** A single text part contributes exactly its text. */
  lemma PartsTextOfOne(p: Part)
    ensures PartsText([p]) == if p.partType == Some("text") then p.text else []
  {
    assert [p][..0] == [];
  }

  // The conversation key.

  /** One message's fingerprint: `role:text`, text stripped and lower-cased. */
  function Fingerprint(m: Message): string {
    RoleText(m.role) + ":" + Lower(Strip(ExtractText(m.content)))
  }

  function Fingerprints(ms: seq<Message>): (fs: seq<string>)
    ensures |fs| == |ms|
  {
    if ms == [] then [] else Fingerprints(ms[..|ms| - 1]) + [Fingerprint(ms[|ms| - 1])]
  }

  /** The first three messages, or all of them when there are fewer. */
  function FirstThree(ms: seq<Message>): (r: seq<Message>)
    ensures r <= ms && |r| == if |ms| < 3 then |ms| else 3
  {
    if |ms| < 3 then ms else ms[..3]
  }

  /** The text that is hashed: the fingerprints of the first three messages
      joined by `|`, after the client id and a `|` when there is one. */
  function PreImage(ms: seq<Message>, client: string): string {
    var prefix := Join(Fingerprints(FirstThree(ms)), "|");
    if client != [] then client + "|" + prefix else prefix
  }

  /** `get_conversation_key`: an empty list gives a fixed, unhashed key;
      otherwise the MD5 hex digest of the pre-image. */
  function ConversationKey(ms: seq<Message>, client: string, md5: string -> string): string {
    if ms == [] then (if client != [] then client + ":empty" else "empty")
    else md5(PreImage(ms, client))
  }

  /** The loop of `get_conversation_key`. */
  method GetConversationKey(ms: seq<Message>, client: string, md5: string -> string) returns (key: string)
    ensures key == ConversationKey(ms, client, md5)
  {
    if ms == [] {
      return if client != [] then client + ":empty" else "empty";
    }
    var n := if |ms| < 3 then |ms| else 3;
    var fingerprints: seq<string> := [];
    var k := 0;
    while k < n
      invariant 0 <= k <= n
      invariant fingerprints == Fingerprints(ms[..k])
    {
      FingerprintsStep(ms, k);
      var msg := ms[k];
      var text := Lower(Strip(ExtractText(msg.content)));
      fingerprints := fingerprints + [RoleText(msg.role) + ":" + text];
      k := k + 1;
    }
    assert ms[..n] == FirstThree(ms);
    var prefix := Join(fingerprints, "|");
    if client != [] {
      prefix := client + "|" + prefix;
    }
    key := md5(prefix);
  }

  lemma FingerprintsStep(ms: seq<Message>, k: nat)
    requires k < |ms|
    ensures Fingerprints(ms[..k + 1]) == Fingerprints(ms[..k]) + [Fingerprint(ms[k])]
  {
    assert ms[..k + 1][..k] == ms[..k];
  }

  /** Without messages the key is "empty", prefixed by the client id and
      `:` when there is one, and nothing is hashed; with messages it is the
      digest of a pre-image that begins with the client id and `|`. */
  lemma KeyShape(ms: seq<Message>, client: string, md5: string -> string)
    ensures ms == [] ==> ConversationKey(ms, client, md5) == if client == [] then "empty" else client + ":empty"
    ensures ms != [] ==> ConversationKey(ms, client, md5) == md5(PreImage(ms, client))
    ensures client != [] ==> client + "|" <= PreImage(ms, client)
  {
  }

  /** Only the first three messages matter: two non-empty lists that agree
      on them have the same key. */
  lemma KeyDependsOnFirstThree(a: seq<Message>, b: seq<Message>, client: string, md5: string -> string)
    requires |a| >= 3 && |b| >= 3 && a[..3] == b[..3]
    ensures ConversationKey(a, client, md5) == ConversationKey(b, client, md5)
  {
  }

  /** Messages after the third can be anything. */
  lemma KeyIgnoresLaterMessages(ms: seq<Message>, later: seq<Message>, client: string, md5: string -> string)
    requires |ms| >= 3
    ensures ConversationKey(ms + later, client, md5) == ConversationKey(ms, client, md5)
  {
    assert (ms + later)[..3] == ms[..3];
    KeyDependsOnFirstThree(ms + later, ms, client, md5);
  }

  /** Lower-casing never turns a non-space into a space or back. */
  lemma LowerKeepsSpace(c: char)
    ensures IsSpace(LowerChar(c)) <==> IsSpace(c)
  {
  }

  lemma {:induction false} LowerTrimLeft(s: string)
    ensures TrimLeft(Lower(s)) == Lower(TrimLeft(s))
    decreases |s|
  {
    if s != [] {
      LowerKeepsSpace(s[0]);
      assert Lower(s)[1..] == Lower(s[1..]);
      LowerTrimLeft(s[1..]);
    }
  }

  lemma {:induction false} LowerTrimRight(s: string)
    ensures TrimRight(Lower(s)) == Lower(TrimRight(s))
    decreases |s|
  {
    if s != [] {
      LowerKeepsSpace(s[|s| - 1]);
      assert Lower(s)[..|s| - 1] == Lower(s[..|s| - 1]);
      LowerTrimRight(s[..|s| - 1]);
    }
  }

  /** Stripping and lower-casing commute. */
  lemma LowerStrip(s: string)
    ensures Lower(Strip(s)) == Strip(Lower(s))
  {
    LowerTrimLeft(s);
    LowerTrimRight(TrimLeft(s));
  }

  /** Fingerprint text does not see letter case or surrounding whitespace. */
  lemma FingerprintTextInsensitive(t: string, p: string, s: string, q: string)
    requires AllSpace(p) && AllSpace(q) && Lower(s) == Lower(t)
    ensures Lower(Strip(p + s + q)) == Lower(Strip(t))
  {
    StripPadding(p, s, q);
    LowerStrip(s);
    LowerStrip(t);
  }

  lemma FingerprintsPointwise(ms: seq<Message>, i: nat)
    requires i < |ms|
    ensures Fingerprints(ms)[i] == Fingerprint(ms[i])
    decreases |ms|
  {
    if i < |ms| - 1 {
      FingerprintsPointwise(ms[..|ms| - 1], i);
    }
  }

  lemma {:induction false} FingerprintsAgree(a: seq<Message>, b: seq<Message>)
    requires |a| == |b| && forall i :: 0 <= i < |a| ==> Fingerprint(a[i]) == Fingerprint(b[i])
    ensures Fingerprints(a) == Fingerprints(b)
    decreases |a|
  {
    if a != [] {
      FingerprintsAgree(a[..|a| - 1], b[..|b| - 1]);
    }
  }

  /** Rewriting one message's text with other letter case and extra
      surrounding whitespace leaves the key unchanged. */
  lemma KeyIgnoresCaseAndPadding(ms: seq<Message>, i: nat, p: string, s: string, q: string,
                                 client: string, md5: string -> string)
    requires i < |ms| && AllSpace(p) && AllSpace(q) && Lower(s) == Lower(ExtractText(ms[i].content))
    ensures ConversationKey(ms[i := Message(ms[i].role, Text(p + s + q))], client, md5)
         == ConversationKey(ms, client, md5)
  {
    var ms' := ms[i := Message(ms[i].role, Text(p + s + q))];
    FingerprintTextInsensitive(ExtractText(ms[i].content), p, s, q);
    assert Fingerprint(ms'[i]) == Fingerprint(ms[i]);
    FingerprintsAgree(FirstThree(ms'), FirstThree(ms));
  }

  // The transcript.

  /** "User" for the user and system roles, "Assistant" for any other. */
  function RoleLabel(role: Option<string>): (name: string)
    ensures name == "User" <==> role == Some("user") || role == Some("system")
    ensures name == "User" || name == "Assistant"
  {
    if role == Some("user") || role == Some("system") then "User" else "Assistant"
  }

  /** The number of parts whose type is "image_url". */
  function ImageCount(ps: seq<Part>): (n: nat)
    ensures n <= |ps|
  {
    if ps == [] then 0
    else ImageCount(ps[..|ps| - 1]) + (if ps[|ps| - 1].partType == Some("image_url") then 1 else 0)
  }

  /** One message of the transcript: `Role: text`, then `[Image]` once per
      image part, then a blank line. */
  function Entry(m: Message): string {
    RoleLabel(m.role) + ": " + ContentStr(m.content) + "\n\n"
  }

  /** The text of the entry: the content's text, then the markers. */
  function ContentStr(c: Content): string {
    ExtractText(c) + Markers(c)
  }

  /** One `[Image]` per image part of list content. */
  function Markers(c: Content): string {
    if c.Parts? then Repeat("[Image]", ImageCount(c.parts)) else []
  }

  function ContextText(ms: seq<Message>): string {
    if ms == [] then [] else ContextText(ms[..|ms| - 1]) + Entry(ms[|ms| - 1])
  }

  /** `build_full_context_text`. */
  method BuildFullContextText(ms: seq<Message>) returns (prompt: string)
    ensures prompt == ContextText(ms)
  {
    prompt := "";
    var k := 0;
    while k < |ms|
      invariant 0 <= k <= |ms|
      invariant prompt == ContextText(ms[..k])
    {
      ContextTextStep(ms, k);
      var entry := EntryOf(ms[k]);
      prompt := prompt + entry;
      k := k + 1;
    }
    assert ms[..k] == ms;
  }

  /** The body of the loop of `build_full_context_text` for one message. */
  method EntryOf(msg: Message) returns (entry: string)
    ensures entry == Entry(msg)
  {
    var role := if msg.role == Some("user") || msg.role == Some("system") then "User" else "Assistant";
    var contentStr := ExtractText(msg.content);
    if msg.content.Parts? {
      var imageCount := ImageCount(msg.content.parts);
      if imageCount > 0 {
        contentStr := contentStr + Repeat("[Image]", imageCount);
      } else {
        assert contentStr == contentStr + Markers(msg.content);
      }
    } else {
      assert contentStr == contentStr + Markers(msg.content);
    }
    assert contentStr == ContentStr(msg.content);
    entry := role + ": " + contentStr + "\n\n";
  }

  lemma ContextTextStep(ms: seq<Message>, k: nat)
    requires k < |ms|
    ensures ContextText(ms[..k + 1]) == ContextText(ms[..k]) + Entry(ms[k])
  {
    assert ms[..k + 1] == ms[..k] + [ms[k]];
    ContextTextSnoc(ms[..k], ms[k]);
  }

  /** The transcript of a conversation is the transcript of its first
      messages followed by that of the rest: one entry per message, in
      order. */
  lemma {:induction false} ContextTextAppend(a: seq<Message>, b: seq<Message>)
    ensures ContextText(a + b) == ContextText(a) + ContextText(b)
    decreases |b|
  {
    if b == [] {
      assert a + b == a;
    } else {
      var b0, m := b[..|b| - 1], b[|b| - 1];
      assert b == b0 + [m] && a + b == (a + b0) + [m];
      ContextTextSnoc(a + b0, m);
      ContextTextSnoc(b0, m);
      ContextTextAppend(a, b0);
    }
  }

  /** One more message adds its entry at the end. */
  lemma ContextTextSnoc(ms: seq<Message>, m: Message)
    ensures ContextText(ms + [m]) == ContextText(ms) + Entry(m)
  {
    assert (ms + [m])[..|ms|] == ms;
  }

  /** Each entry starts with its role label and `: `, carries the message
      text, and ends with a blank line; a message with k image parts
      carries k `[Image]` markers after its text. */
  lemma EntryShape(m: Message)
    ensures ContextText([m]) == Entry(m)
    ensures RoleLabel(m.role) + ": " + ExtractText(m.content) <= Entry(m)
    ensures |Entry(m)| >= 2 && Entry(m)[|Entry(m)| - 2..] == "\n\n"
    ensures m.content.Parts? ==>
      Entry(m) == RoleLabel(m.role) + ": " + PartsText(m.content.parts)
                  + Repeat("[Image]", ImageCount(m.content.parts)) + "\n\n"
    ensures !m.content.Parts? ==> Entry(m) == RoleLabel(m.role) + ": " + ExtractText(m.content) + "\n\n"
  {
    assert [m][..0] == [];
  }

  // The last message.

  /** `s.startswith(prefix)`. */
  predicate StartsWith(s: string, prefix: string) {
    |prefix| <= |s| && s[..|prefix|] == prefix
  }

  /** The text before the first line break: what `.+` matches. */
  function LineHead(s: string): (r: string)
    ensures r <= s && '\n' !in r
    ensures '\n' !in s ==> r == s
  {
    if '\n' in s then s[..IndexOf(s, '\n')] else s
  }

  /** `re.match(r"data:([^;]+);base64,(.+)", url)`: the MIME type runs from
      after `data:` to the first `;`, which must open `;base64,`; the data is
      the rest of that line and must not be empty. */
  function MatchDataUrl(url: string): Option<Image> {
    if !StartsWith(url, "data:") then None
    else
      var rest := url[5..];
      if ';' !in rest then None
      else
        var i := IndexOf(rest, ';');
        var tail := rest[i..];
        if i == 0 || !StartsWith(tail, ";base64,") then None
        else
          var payload := LineHead(tail[8..]);
          if payload == [] then None else Some(Image(rest[..i], payload))
  }

  /** A well-formed data URL is recognised and yields its own MIME type and
      data. */
  lemma DataUrlMatches(mime: string, data: string)
    requires mime != [] && ';' !in mime && data != [] && '\n' !in data
    ensures MatchDataUrl("data:" + mime + ";base64," + data) == Some(Image(mime, data))
  {
    var tag := ";base64,";
    var url := "data:" + mime + tag + data;
    var rest := url[5..];
    assert url[..5] == "data:";
    assert rest == mime + [';'] + ("base64," + data);
    IndexOfFirst(mime, ';', "base64," + data);
    var tail := rest[|mime|..];
    assert tail == tag + data;
    assert tail[..8] == tag;
    assert tail[8..] == data;
    assert rest[..|mime|] == mime;
  }

  /** Conversely, a recognised URL is `data:`, the MIME type, `;base64,`
      and the data, followed by nothing or by a line break. */
  lemma DataUrlShape(url: string, img: Image)
    requires MatchDataUrl(url) == Some(img)
    ensures img.mime != [] && ';' !in img.mime && img.data != [] && '\n' !in img.data
    ensures var whole := "data:" + img.mime + ";base64," + img.data;
      whole <= url && (|whole| == |url| || url[|whole|] == '\n')
  {
    var rest := url[5..];
    var i := IndexOf(rest, ';');
    var tail := rest[i..];
    var after := tail[8..];
    var head := "data:" + img.mime + ";base64,";
    assert img.mime == rest[..i] && img.data == LineHead(after);
    Rejoin(url, 5);
    Rejoin(rest, i);
    Rejoin(tail, 8);
    Reassemble(url, "data:", img.mime, ";base64,", after);
    ShapeTail(head, after, img.data);
  }

  lemma Rejoin(s: string, i: nat)
    requires i <= |s|
    ensures s == s[..i] + s[i..]
  {
  }

  lemma Reassemble(url: string, a: string, m: string, b: string, after: string)
    requires url == a + (m + (b + after))
    ensures url == a + m + b + after
  {
  }

  lemma ShapeTail(head: string, after: string, payload: string)
    requires payload == LineHead(after)
    ensures head + payload <= head + after
    ensures |head + payload| == |head + after| || (head + after)[|head + payload|] == '\n'
  {
    if '\n' in after {
      assert after[|payload|] == '\n';
    }
  }

  /** What an image part's URL leads to. */
  datatype UrlKind = Inline(image: Image) | Remote(url: string) | Unsupported

  /** Data URLs are decoded in place, http(s) URLs are queued for download,
      anything else is dropped with a warning. */
  function ClassifyUrl(url: string): (k: UrlKind)
    ensures k.Inline? <==> MatchDataUrl(url).Some?
    ensures k.Remote? ==> k.url == url && (StartsWith(url, "http://") || StartsWith(url, "https://"))
    ensures k.Unsupported? <==>
      MatchDataUrl(url).None? && !StartsWith(url, "http://") && !StartsWith(url, "https://")
  {
    match MatchDataUrl(url)
    case Some(img) => Inline(img)
    case None =>
      if StartsWith(url, "http://") || StartsWith(url, "https://") then Remote(url) else Unsupported
  }

  /** The walk over the parts: joined text, inline images and URLs to
      download, each in part order. */
  datatype Scan = Scan(text: string, images: seq<Image>, urls: seq<string>)

  function ScanParts(ps: seq<Part>): Scan {
    if ps == [] then Scan([], [], [])
    else
      var s := ScanParts(ps[..|ps| - 1]);
      var p := ps[|ps| - 1];
      if p.partType == Some("text") then Scan(s.text + p.text, s.images, s.urls)
      else if p.partType == Some("image_url") then
        match ClassifyUrl(p.url)
        case Inline(img) => Scan(s.text, s.images + [img], s.urls)
        case Remote(u) => Scan(s.text, s.images, s.urls + [u])
        case Unsupported => s
      else s
  }

  /** The downloads that succeeded, in the order of the URLs. */
  function Downloaded(urls: seq<string>, download: string -> Option<Image>): seq<Image> {
    if urls == [] then []
    else
      var d := download(urls[|urls| - 1]);
      Downloaded(urls[..|urls| - 1], download) + (if d.Some? then [d.value] else [])
  }

  /** `parse_last_message`: the text and attachments of the last message;
      `download` stands for the HTTP fetch of one URL, `None` for a 404 or
      any failure. */
  function ParseLast(ms: seq<Message>, download: string -> Option<Image>): (string, seq<Image>) {
    if ms == [] then ("", [])
    else match ms[|ms| - 1].content
      case Text(s) => (s, [])
      case Other(_) => ("", [])
      case Parts(ps) =>
        var s := ScanParts(ps);
        (s.text, s.images + Downloaded(s.urls, download))
  }

  /** The loop of `parse_last_message` over the parts. */
  method ScanLastParts(ps: seq<Part>) returns (text: string, images: seq<Image>, urls: seq<string>)
    ensures Scan(text, images, urls) == ScanParts(ps)
  {
    text, images, urls := "", [], [];
    var k := 0;
    while k < |ps|
      invariant 0 <= k <= |ps|
      invariant Scan(text, images, urls) == ScanParts(ps[..k])
    {
      assert ps[..k + 1][..k] == ps[..k];
      var part := ps[k];
      if part.partType == Some("text") {
        text := text + part.text;
      } else if part.partType == Some("image_url") {
        var url := part.url;
        var m := MatchDataUrl(url);
        if m.Some? {
          images := images + [m.value];
        } else if StartsWith(url, "http://") || StartsWith(url, "https://") {
          urls := urls + [url];
        }
      }
      k := k + 1;
    }
    assert ps[..k] == ps;
  }

  /** `parse_last_message`, downloads collected after the inline images. */
  method ParseLastMessage(ms: seq<Message>, download: string -> Option<Image>)
    returns (text: string, images: seq<Image>)
    ensures (text, images) == ParseLast(ms, download)
  {
    if ms == [] {
      return "", [];
    }
    var content := ms[|ms| - 1].content;
    text, images := "", [];
    if content.Text? {
      text := content.s;
    } else if content.Parts? {
      var urls;
      text, images, urls := ScanLastParts(content.parts);
      var k := 0;
      while k < |urls|
        invariant 0 <= k <= |urls|
        invariant images == ScanParts(content.parts).images + Downloaded(urls[..k], download)
      {
        assert urls[..k + 1][..k] == urls[..k];
        var result := download(urls[k]);
        if result.Some? {
          images := images + [result.value];
        }
        k := k + 1;
      }
      assert urls[..k] == urls;
    }
  }

  /** Only the last message is read. */
  lemma ParseReadsLastOnly(earlier: seq<Message>, m: Message, download: string -> Option<Image>)
    ensures ParseLast(earlier + [m], download) == ParseLast([m], download)
  {
  }

  /** The parsed text is what `extract_text_from_content` gives for string
      and list content; other content gives no text. */
  lemma {:induction false} ScanTextIsExtracted(ps: seq<Part>)
    ensures ScanParts(ps).text == PartsText(ps)
    decreases |ps|
  {
    if ps != [] {
      ScanTextIsExtracted(ps[..|ps| - 1]);
    }
  }

  lemma ParseTextMeaning(ms: seq<Message>, download: string -> Option<Image>)
    requires ms != []
    ensures var c := ms[|ms| - 1].content;
      ParseLast(ms, download).0 == if c.Other? then "" else ExtractText(c)
  {
    var c := ms[|ms| - 1].content;
    if c.Parts? {
      ScanTextIsExtracted(c.parts);
    }
  }

  /** Every attachment comes from an image part: there are never more of
      them than image parts, whatever the downloads return. */
  lemma {:induction false} ScanCounts(ps: seq<Part>)
    ensures |ScanParts(ps).images| + |ScanParts(ps).urls| <= ImageCount(ps)
    decreases |ps|
  {
    if ps != [] {
      ScanCounts(ps[..|ps| - 1]);
    }
  }

  lemma {:induction false} DownloadedCount(urls: seq<string>, download: string -> Option<Image>)
    ensures |Downloaded(urls, download)| <= |urls|
    decreases |urls|
  {
    if urls != [] {
      DownloadedCount(urls[..|urls| - 1], download);
    }
  }

  lemma ParseImageBound(ms: seq<Message>, download: string -> Option<Image>)
    requires ms != [] && ms[|ms| - 1].content.Parts?
    ensures |ParseLast(ms, download).1| <= ImageCount(ms[|ms| - 1].content.parts)
  {
    var s := ScanParts(ms[|ms| - 1].content.parts);
    ScanCounts(ms[|ms| - 1].content.parts);
    DownloadedCount(s.urls, download);
  }

  /** An image part with a data URL contributes exactly its decoded image;
      with an http(s) URL, exactly the download's result when it succeeds. */
  lemma ScanOneImagePart(ps: seq<Part>, p: Part)
    requires p.partType == Some("image_url")
    ensures MatchDataUrl(p.url).Some? ==>
      ScanParts(ps + [p]) == Scan(ScanParts(ps).text, ScanParts(ps).images + [MatchDataUrl(p.url).value], ScanParts(ps).urls)
    ensures MatchDataUrl(p.url).None? && (StartsWith(p.url, "http://") || StartsWith(p.url, "https://")) ==>
      ScanParts(ps + [p]) == Scan(ScanParts(ps).text, ScanParts(ps).images, ScanParts(ps).urls + [p.url])
    ensures ClassifyUrl(p.url).Unsupported? ==> ScanParts(ps + [p]) == ScanParts(ps)
  {
    assert (ps + [p])[..|ps|] == ps;
  }
}
