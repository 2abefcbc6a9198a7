/** The model tables and the pure helpers of the Gemini backend client
    (`app/backends/gemini/client.py`): the tools each model asks for, the
    quota types each model needs, the generated files found in a streamed
    answer, and the prompt and result shaping of image generation. */
module GeminiClient {
  import opened Wrappers
  import opened Strings
  import Accounts

  /** `MODEL_MAPPING`: API model name to upstream model id, `None` for the
      automatic model. */
  const ModelMapping: map<string, Option<string>> := map[
    "gemini-auto" := None,
    "gemini-2.5-flash" := Some("gemini-2.5-flash"),
    "gemini-2.5-pro" := Some("gemini-2.5-pro"),
    "gemini-3-flash-preview" := Some("gemini-3-flash-preview"),
    "gemini-3.1-pro-preview" := Some("gemini-3.1-pro-preview")]

  /** The keys of `VIRTUAL_MODELS`. */
  const VirtualModels: set<string> := {"gemini-imagen", "gemini-veo"}

  /** `MODEL_TO_QUOTA_TYPE`. */
  const ModelToQuotaType: map<string, string> := map["gemini-imagen" := "images", "gemini-veo" := "videos"]

  /** `IMAGE_GENERATION_MODELS`: chat models that can also draw. */
  const ImageGenerationModels: set<string> :=
    {"gemini-2.5-flash", "gemini-2.5-pro", "gemini-3-flash-preview", "gemini-3.1-pro-preview"}

  /** A model the backend serves. */
  predicate KnownModel(model: string) {
    model in ModelMapping || model in VirtualModels
  }

  // Tools.

  /** The value of one tools-spec entry: an empty object, or the name of a
      tool registry. */
  datatype ToolValue = EmptySpec | Registry(name: string)

  /** `VIRTUAL_MODELS`. */
  const VirtualTools: map<string, map<string, ToolValue>> := map[
    "gemini-imagen" := map["imageGenerationSpec" := EmptySpec],
    "gemini-veo" := map["videoGenerationSpec" := EmptySpec]]

  /** `_get_tools_spec`. */
  function ToolsSpec(model: string): map<string, ToolValue> {
    if model in VirtualTools then VirtualTools[model]
    else
      var base := map["webGroundingSpec" := EmptySpec, "toolRegistry" := Registry("default_tool_registry")];
      if model in ImageGenerationModels then base["imageGenerationSpec" := EmptySpec] else base
  }

  /** A virtual model gets exactly its own generation spec; any other model
      gets web grounding and the default tool registry, plus image
      generation exactly when it is an image-capable chat model. */
  lemma ToolsSpecMeaning(model: string)
    ensures model == "gemini-imagen" ==> ToolsSpec(model) == map["imageGenerationSpec" := EmptySpec]
    ensures model == "gemini-veo" ==> ToolsSpec(model) == map["videoGenerationSpec" := EmptySpec]
    ensures model !in VirtualModels ==>
      && ToolsSpec(model).Keys == {"webGroundingSpec", "toolRegistry"}
                                  + (if model in ImageGenerationModels then {"imageGenerationSpec"} else {})
      && ToolsSpec(model)["webGroundingSpec"] == EmptySpec
      && ToolsSpec(model)["toolRegistry"] == Registry("default_tool_registry")
    ensures "imageGenerationSpec" in ToolsSpec(model) <==> model == "gemini-imagen" || model in ImageGenerationModels
    ensures "videoGenerationSpec" in ToolsSpec(model) <==> model == "gemini-veo"
  {
  }

  // Quota types.

  /** `_get_required_quota_types`. */
  function RequiredQuotaTypes(model: string): seq<string> {
    var qt := if model in ModelToQuotaType then ModelToQuotaType[model] else "";
    if qt != "" && qt != "text" then ["text", qt]
    else if model in ImageGenerationModels then ["text", "images"]
    else ["text"]
  }

  /** Text always comes first; images are needed by the image model and the
      image-capable chat models, videos by the video model, and nothing
      else is ever added. */
  lemma RequiredQuotaTypesMeaning(model: string)
    ensures var r := RequiredQuotaTypes(model);
      && 1 <= |r| <= 2 && r[0] == "text"
      && ("images" in r <==> model == "gemini-imagen" || model in ImageGenerationModels)
      && ("videos" in r <==> model == "gemini-veo")
      && (forall t :: t in r ==> t in Accounts.QuotaTypes)
      && (|r| == 2 ==> r[1] != "text")
    ensures model == "gemini-auto" ==> RequiredQuotaTypes(model) == ["text"]
  {
  }

  /** With the required types of a model, the pool's quota check passes
      exactly when text is free and, for a model that also needs images or
      videos, that type is free too. */
  lemma RequiredQuotasAvailable(stamps: map<string, int>, cd: Accounts.Cooldowns, model: string, now: int)
    ensures Accounts.QuotasCheck(stamps, cd, Some(RequiredQuotaTypes(model)), now).0 <==>
      && !Accounts.Blocked(stamps, cd, "text", now)
      && ((model == "gemini-imagen" || model in ImageGenerationModels) ==> !Accounts.Blocked(stamps, cd, "images", now))
      && (model == "gemini-veo" ==> !Accounts.Blocked(stamps, cd, "videos", now))
  {
    var r := RequiredQuotaTypes(model);
    RequiredQuotaTypesMeaning(model);
    Accounts.QuotasCheckMeaning(stamps, cd, Some(r), now);
  }

  // Files in a streamed answer.

  /** `content.file` of a reply; an absent or empty id is `""`. */
  datatype FileInfo = FileInfo(fileId: string, mimeType: Option<string>)

  /** A reply's `groundedContent.content.file`, when present and non-empty. */
  datatype Reply = Reply(file: Option<FileInfo>)

  /** `streamAssistResponse`: its `sessionInfo.session` (`""` when absent
      or empty) and its `answer.replies`. */
  datatype AssistResponse = AssistResponse(session: string, replies: seq<Reply>)

  /** One decoded stream object; `None` when `streamAssistResponse` is
      absent or empty. */
  datatype StreamObject = StreamObject(sar: Option<AssistResponse>)

  /** A generated file: its id and MIME type. */
  datatype FileRef = FileRef(fileId: string, mimeType: string)

  /** The file a reply names, if it names one; PNG when no type is given. */
  function ReplyRef(r: Reply): (ref: Option<FileRef>)
    ensures ref.Some? <==> r.file.Some? && r.file.value.fileId != ""
    ensures ref.Some? ==> (ref.value.fileId == r.file.value.fileId
      && ref.value.mimeType == (if r.file.value.mimeType.Some? then r.file.value.mimeType.value else "image/png"))
  {
    match r.file
    case None => None
    case Some(f) =>
      if f.fileId == "" then None
      else Some(FileRef(f.fileId, if f.mimeType.Some? then f.mimeType.value else "image/png"))
  }

  function AsSeq<T>(o: Option<T>): seq<T> {
    if o.Some? then [o.value] else []
  }

  /** Every file the replies name, in order, repeats included. */
  function ReplyRefs(rs: seq<Reply>): seq<FileRef> {
    if rs == [] then [] else ReplyRefs(rs[..|rs| - 1]) + AsSeq(ReplyRef(rs[|rs| - 1]))
  }

  function ObjectRefs(o: StreamObject): seq<FileRef> {
    if o.sar.Some? then ReplyRefs(o.sar.value.replies) else []
  }

  /** Every file the stream names, in order, repeats included. */
  function AllRefs(data: seq<StreamObject>): seq<FileRef> {
    if data == [] then [] else AllRefs(data[..|data| - 1]) + ObjectRefs(data[|data| - 1])
  }

  function Ids(refs: seq<FileRef>): set<string> {
    if refs == [] then {} else Ids(refs[..|refs| - 1]) + {refs[|refs| - 1].fileId}
  }

  /** The files with repeats of an id dropped, each kept where it first
      appears. */
  function Dedupe(refs: seq<FileRef>): seq<FileRef> {
    if refs == [] then []
    else
      var init := refs[..|refs| - 1];
      var last := refs[|refs| - 1];
      if last.fileId in Ids(init) then Dedupe(init) else Dedupe(init) + [last]
  }

  /** The last non-empty session name in the stream, or `""`. */
  function LastSession(data: seq<StreamObject>): string {
    if data == [] then ""
    else
      var last := data[|data| - 1];
      if last.sar.Some? && last.sar.value.session != "" then last.sar.value.session
      else LastSession(data[..|data| - 1])
  }

  /** `_parse_images_from_response`. */
  function ParseImages(data: seq<StreamObject>): (seq<FileRef>, string) {
    (Dedupe(AllRefs(data)), LastSession(data))
  }

  lemma IdsMeaning(refs: seq<FileRef>)
    ensures forall id :: id in Ids(refs) <==> exists k :: 0 <= k < |refs| && refs[k].fileId == id
    decreases |refs|
  {
    if refs != [] {
      IdsMeaning(refs[..|refs| - 1]);
      assert forall k :: 0 <= k < |refs| - 1 ==> refs[..|refs| - 1][k] == refs[k];
    }
  }

  /** The deduplicated list names every id of the input once and nothing
      else, and each element is the first file with its id. */
  lemma DedupeMeaning(refs: seq<FileRef>)
    ensures var d := Dedupe(refs);
      && (forall i, j :: 0 <= i < j < |d| ==> d[i].fileId != d[j].fileId)
      && Ids(d) == Ids(refs)
      && (forall i :: 0 <= i < |d| ==> FirstOccurrence(refs, d[i]))
  {
    DedupeDistinct(refs);
    DedupeFirst(refs);
  }

  lemma DedupeDistinct(refs: seq<FileRef>)
    ensures var d := Dedupe(refs);
      && (forall i, j :: 0 <= i < j < |d| ==> d[i].fileId != d[j].fileId)
      && Ids(d) == Ids(refs)
  {
    DedupeIds(refs);
    DedupeUnique(refs);
  }

  lemma {:induction false} DedupeIds(refs: seq<FileRef>)
    ensures Ids(Dedupe(refs)) == Ids(refs)
    decreases |refs|
  {
    if refs != [] {
      var init, last := refs[..|refs| - 1], refs[|refs| - 1];
      DedupeIds(init);
      assert refs == init + [last];
      DedupeSnoc(init, last);
      if last.fileId !in Ids(init) {
        DedupeSnoc(Dedupe(init), last);
        assert Ids(Dedupe(refs)) == Ids(Dedupe(init)) + {last.fileId};
      } else {
        assert Dedupe(refs) == Dedupe(init);
      }
    }
  }

  lemma {:induction false} DedupeUnique(refs: seq<FileRef>)
    ensures var d := Dedupe(refs); forall i, j :: 0 <= i < j < |d| ==> d[i].fileId != d[j].fileId
    decreases |refs|
  {
    if refs != [] {
      var init, last := refs[..|refs| - 1], refs[|refs| - 1];
      DedupeUnique(init);
      DedupeIds(init);
      if last.fileId !in Ids(init) {
        var d0 := Dedupe(init);
        UniqueSnoc(d0, last);
      }
    }
  }

  /** A file whose id is new keeps the ids of a list distinct. */
  lemma UniqueSnoc(d0: seq<FileRef>, last: FileRef)
    requires forall i, j :: 0 <= i < j < |d0| ==> d0[i].fileId != d0[j].fileId
    requires last.fileId !in Ids(d0)
    ensures var d := d0 + [last]; forall i, j :: 0 <= i < j < |d| ==> d[i].fileId != d[j].fileId
  {
    var d := d0 + [last];
    IdsMeaning(d0);
    forall i, j | 0 <= i < j < |d| ensures d[i].fileId != d[j].fileId {
      assert d[i] == d0[i];
      if j < |d| - 1 {
        assert d[j] == d0[j];
      }
    }
  }

  /** `r` is at some position of `refs` with no earlier file of its id. */
  predicate FirstOccurrence(refs: seq<FileRef>, r: FileRef) {
    exists k :: 0 <= k < |refs| && refs[k] == r && r.fileId !in Ids(refs[..k])
  }

  lemma {:induction false} DedupeFirst(refs: seq<FileRef>)
    ensures forall i :: 0 <= i < |Dedupe(refs)| ==> FirstOccurrence(refs, Dedupe(refs)[i])
    decreases |refs|
  {
    if refs != [] {
      var init, last := refs[..|refs| - 1], refs[|refs| - 1];
      DedupeFirst(init);
      var d0 := Dedupe(init);
      var d := Dedupe(refs);
      assert d == d0 || d == d0 + [last];
      forall i | 0 <= i < |d|
        ensures FirstOccurrence(refs, d[i])
      {
        if i < |d0| {
          assert d[i] == d0[i];
          assert FirstOccurrence(init, d0[i]);
          var k :| 0 <= k < |init| && init[k] == d0[i] && d0[i].fileId !in Ids(init[..k]);
          assert refs[..k] == init[..k];
        } else {
          assert refs[..|refs| - 1] == init;
        }
      }
    }
  }

  /** Files already listed keep their place when more of the stream
      arrives: the list is built in first-seen order. */
  lemma {:induction false} DedupePrefix(a: seq<FileRef>, b: seq<FileRef>)
    ensures Dedupe(a) <= Dedupe(a + b)
    decreases |b|
  {
    if b == [] {
      assert a + b == a;
    } else {
      var b0 := b[..|b| - 1];
      assert (a + b)[..|a + b| - 1] == a + b0;
      DedupePrefix(a, b0);
    }
  }

  /** The session is the last non-empty one: empty exactly when no object
      carries one, and otherwise carried by an object after which none
      does. */
  lemma {:induction false} LastSessionMeaning(data: seq<StreamObject>)
    ensures var s := LastSession(data);
      && (s == "" <==> forall k :: 0 <= k < |data| ==> data[k].sar.None? || data[k].sar.value.session == "")
      && (s != "" ==>
            exists k :: 0 <= k < |data| && data[k].sar.Some? && data[k].sar.value.session == s
              && forall j :: k < j < |data| ==> data[j].sar.None? || data[j].sar.value.session == "")
    decreases |data|
  {
    if data != [] {
      var init := data[..|data| - 1];
      LastSessionMeaning(init);
      assert forall k :: 0 <= k < |init| ==> init[k] == data[k];
      var last := data[|data| - 1];
      if !(last.sar.Some? && last.sar.value.session != "") && LastSession(init) != "" {
        var k :| 0 <= k < |init| && init[k].sar.Some? && init[k].sar.value.session == LastSession(init)
                 && forall j :: k < j < |init| ==> init[j].sar.None? || init[j].sar.value.session == "";
        assert data[k] == init[k];
      }
    }
  }

  /** The step of the inner loop: one more reply after the files seen so
      far. */
  lemma RefsStep(seen: seq<FileRef>, rs: seq<Reply>, j: nat)
    requires j < |rs|
    ensures seen + ReplyRefs(rs[..j + 1]) == (seen + ReplyRefs(rs[..j])) + AsSeq(ReplyRef(rs[j]))
  {
    assert rs[..j + 1][..j] == rs[..j];
  }

  lemma DedupeSnoc(refs: seq<FileRef>, r: FileRef)
    ensures Dedupe(refs + [r]) == if r.fileId in Ids(refs) then Dedupe(refs) else Dedupe(refs) + [r]
    ensures Ids(refs + [r]) == Ids(refs) + {r.fileId}
  {
    assert (refs + [r])[..|refs|] == refs;
  }

  /** The reply loop of `_parse_images_from_response` for one object. */
  method ScanReplies(rs: seq<Reply>, ghost before: seq<FileRef>, fileIds: seq<FileRef>, seen: set<string>)
    returns (fileIds': seq<FileRef>, seen': set<string>)
    requires fileIds == Dedupe(before) && seen == Ids(before)
    ensures fileIds' == Dedupe(before + ReplyRefs(rs)) && seen' == Ids(before + ReplyRefs(rs))
  {
    fileIds', seen' := fileIds, seen;
    var j := 0;
    assert before + ReplyRefs(rs[..0]) == before;
    while j < |rs|
      invariant 0 <= j <= |rs|
      invariant fileIds' == Dedupe(before + ReplyRefs(rs[..j])) && seen' == Ids(before + ReplyRefs(rs[..j]))
    {
      RefsStep(before, rs, j);
      fileIds', seen' := ScanReply(rs[j], before + ReplyRefs(rs[..j]), fileIds', seen');
      j := j + 1;
    }
    assert rs[..j] == rs;
  }

  /** One pass of that loop: the reply's file is kept unless its id was
      seen. */
  method ScanReply(r: Reply, ghost before: seq<FileRef>, fileIds: seq<FileRef>, seen: set<string>)
    returns (fileIds': seq<FileRef>, seen': set<string>)
    requires fileIds == Dedupe(before) && seen == Ids(before)
    ensures fileIds' == Dedupe(before + AsSeq(ReplyRef(r))) && seen' == Ids(before + AsSeq(ReplyRef(r)))
  {
    fileIds', seen' := fileIds, seen;
    var info := r.file;
    if info.Some? && info.value.fileId != "" {
      var fid := info.value.fileId;
      var ref := FileRef(fid, if info.value.mimeType.Some? then info.value.mimeType.value else "image/png");
      DedupeSnoc(before, ref);
      if fid !in seen' {
        seen' := seen' + {fid};
        fileIds' := fileIds' + [ref];
      }
    } else {
      assert before + AsSeq(ReplyRef(r)) == before;
    }
  }

  lemma AllRefsStep(data: seq<StreamObject>, k: nat)
    requires k < |data|
    ensures AllRefs(data[..k + 1]) == AllRefs(data[..k]) + ObjectRefs(data[k])
    ensures LastSession(data[..k + 1]) ==
      if data[k].sar.Some? && data[k].sar.value.session != "" then data[k].sar.value.session else LastSession(data[..k])
  {
    assert data[..k + 1][..k] == data[..k];
  }

  /** `_parse_images_from_response`. */
  method ParseImagesFromResponse(data: seq<StreamObject>) returns (fileIds: seq<FileRef>, sessionName: string)
    ensures (fileIds, sessionName) == ParseImages(data)
  {
    fileIds, sessionName := [], "";
    var seen: set<string> := {};
    var k := 0;
    while k < |data|
      invariant 0 <= k <= |data|
      invariant fileIds == Dedupe(AllRefs(data[..k])) && seen == Ids(AllRefs(data[..k]))
      invariant sessionName == LastSession(data[..k])
    {
      AllRefsStep(data, k);
      var sar := data[k].sar;
      if sar.None? {
        assert AllRefs(data[..k]) + [] == AllRefs(data[..k]);
      } else {
        if sar.value.session != "" {
          sessionName := sar.value.session;
        }
        fileIds, seen := ScanReplies(sar.value.replies, AllRefs(data[..k]), fileIds, seen);
      }
      k := k + 1;
    }
    assert data[..k] == data;
  }

  // Image generation.

  /** `ASPECT_LABELS`. */
  const AspectLabels: map<string, string> := map[
    "1:1" := "square (1:1)",
    "2:3" := "portrait (2:3)",
    "3:2" := "landscape (3:2)",
    "9:16" := "tall portrait (9:16)",
    "16:9" := "wide landscape (16:9)"]

  /** The prompt sent for an image: the ratio sentence is added only for a
      ratio with a label. */
  function EnhancedPrompt(prompt: string, aspectRatio: string): string {
    if aspectRatio in AspectLabels then
      prompt + ". Generate this image in " + AspectLabels[aspectRatio] + " aspect ratio."
    else prompt
  }

  /** Exactly the five ratios 1:1, 2:3, 3:2, 9:16 and 16:9 add a sentence
      after the prompt; any other ratio leaves the prompt as it is. */
  lemma EnhancedPromptMeaning(prompt: string, aspectRatio: string)
    ensures AspectLabels.Keys == {"1:1", "2:3", "3:2", "9:16", "16:9"}
    ensures prompt <= EnhancedPrompt(prompt, aspectRatio)
    ensures EnhancedPrompt(prompt, aspectRatio) == prompt <==> aspectRatio !in AspectLabels
  {
  }

  /** `s[:n]` for any integer `n`, negative counting from the end. */
  function SliceTo<T>(s: seq<T>, n: int): (r: seq<T>)
    ensures r <= s
    ensures n >= 0 ==> |r| == if n < |s| then n else |s|
    ensures n < 0 ==> |r| == if -n < |s| then |s| + n else 0
  {
    if n >= 0 then (if n < |s| then s[..n] else s)
    else if -n < |s| then s[..|s| + n] else []
  }

  /** One item of the `data` list. */
  datatype ImageItem = B64Item(b64: string, revisedPrompt: string) | UrlItem(url: string, revisedPrompt: string)

  /** A markdown image with inline data: its MIME type and base64 text. */
  datatype InlineMatch = InlineMatch(mime: string, data: string)

  /** The items that succeed, in order. */
  function Collect<T>(xs: seq<T>, f: T -> Option<ImageItem>): seq<ImageItem> {
    if xs == [] then [] else Collect(xs[..|xs| - 1], f) + AsSeq(f(xs[|xs| - 1]))
  }

  lemma {:induction false} CollectBound<T>(xs: seq<T>, f: T -> Option<ImageItem>)
    ensures |Collect(xs, f)| <= |xs|
    decreases |xs|
  {
    if xs != [] {
      CollectBound(xs[..|xs| - 1], f);
    }
  }

  /** The result list of `generate_image`, given the markdown images of the
      answer: for `b64_json`, the inline images and, if there are none, the
      linked images that download (`fetch`); otherwise the links and, if
      there are none, the inline images that save (`save`, which gives their
      public URL). At most `n` of either kind are used. */
  function ImageData(format: string, prompt: string, n: int, inline: seq<InlineMatch>, links: seq<string>,
                     fetch: string -> Option<string>, save: InlineMatch -> Option<string>): seq<ImageItem> {
    if format == "b64_json" then
      var items := Collect(SliceTo(inline, n), (m: InlineMatch) => Some(B64Item(m.data, prompt)));
      if items == [] && links != [] then
        Collect(SliceTo(links, n), (u: string) => if fetch(u).Some? then Some(B64Item(fetch(u).value, prompt)) else None)
      else items
    else
      var items := Collect(SliceTo(links, n), (u: string) => Some(UrlItem(u, prompt)));
      if items == [] && inline != [] then
        Collect(SliceTo(inline, n), (m: InlineMatch) => if save(m).Some? then Some(UrlItem(save(m).value, prompt)) else None)
      else items
  }

  /** One loop of `generate_image`: the items that succeed, in order. */
  method CollectEach<T>(xs: seq<T>, f: T -> Option<ImageItem>) returns (items: seq<ImageItem>)
    ensures items == Collect(xs, f)
  {
    items := [];
    var k := 0;
    while k < |xs|
      invariant 0 <= k <= |xs|
      invariant items == Collect(xs[..k], f)
    {
      assert xs[..k + 1][..k] == xs[..k];
      var item := f(xs[k]);
      if item.Some? {
        items := items + [item.value];
      }
      k := k + 1;
    }
    assert xs[..k] == xs;
  }

  /** The result list of `generate_image`. */
  method GenerateImageData(format: string, prompt: string, n: int, inline: seq<InlineMatch>, links: seq<string>,
                           fetch: string -> Option<string>, save: InlineMatch -> Option<string>)
    returns (data: seq<ImageItem>)
    ensures data == ImageData(format, prompt, n, inline, links, fetch, save)
  {
    if format == "b64_json" {
      data := CollectEach(SliceTo(inline, n), (m: InlineMatch) => Some(B64Item(m.data, prompt)));
      if data == [] && links != [] {
        data := CollectEach(SliceTo(links, n),
          (u: string) => if fetch(u).Some? then Some(B64Item(fetch(u).value, prompt)) else None);
      }
    } else {
      data := CollectEach(SliceTo(links, n), (u: string) => Some(UrlItem(u, prompt)));
      if data == [] && inline != [] {
        data := CollectEach(SliceTo(inline, n),
          (m: InlineMatch) => if save(m).Some? then Some(UrlItem(save(m).value, prompt)) else None);
      }
    }
  }

  /** Never more than `n` items for a non-negative `n`, each of the
      requested kind and carrying the caller's prompt. */
  lemma ImageDataMeaning(format: string, prompt: string, n: int, inline: seq<InlineMatch>, links: seq<string>,
                         fetch: string -> Option<string>, save: InlineMatch -> Option<string>)
    requires n >= 0
    ensures var d := ImageData(format, prompt, n, inline, links, fetch, save);
      && |d| <= n
      && (forall i :: 0 <= i < |d| ==> d[i].revisedPrompt == prompt)
      && (format == "b64_json" ==> forall i :: 0 <= i < |d| ==> d[i].B64Item?)
      && (format != "b64_json" ==> forall i :: 0 <= i < |d| ==> d[i].UrlItem?)
  {
    var f1 := (m: InlineMatch) => Some(B64Item(m.data, prompt));
    var f2 := (u: string) => if fetch(u).Some? then Some(B64Item(fetch(u).value, prompt)) else None;
    var f3 := (u: string) => Some(UrlItem(u, prompt));
    var f4 := (m: InlineMatch) => if save(m).Some? then Some(UrlItem(save(m).value, prompt)) else None;
    CollectBound(SliceTo(inline, n), f1);
    CollectBound(SliceTo(links, n), f2);
    CollectBound(SliceTo(links, n), f3);
    CollectBound(SliceTo(inline, n), f4);
    CollectKinds(SliceTo(inline, n), f1, prompt, true);
    CollectKinds(SliceTo(links, n), f2, prompt, true);
    CollectKinds(SliceTo(links, n), f3, prompt, false);
    CollectKinds(SliceTo(inline, n), f4, prompt, false);
  }

  lemma {:induction false} CollectKinds<T>(xs: seq<T>, f: T -> Option<ImageItem>, prompt: string, b64: bool)
    requires forall x :: f(x).Some? ==> f(x).value.revisedPrompt == prompt && f(x).value.B64Item? == b64
    ensures forall i :: 0 <= i < |Collect(xs, f)| ==>
      Collect(xs, f)[i].revisedPrompt == prompt && Collect(xs, f)[i].B64Item? == b64
    decreases |xs|
  {
    if xs != [] {
      CollectKinds(xs[..|xs| - 1], f, prompt, b64);
    }
  }

  /** The fallbacks: with inline images present, `b64_json` never
      downloads, and with links present the URL format never saves
      anything; with `n >= 1`, an answer with an image of the preferred
      kind never comes back empty. */
  lemma ImageDataPreference(format: string, prompt: string, n: int, inline: seq<InlineMatch>, links: seq<string>,
                            fetch: string -> Option<string>, save: InlineMatch -> Option<string>)
    requires n >= 1
    ensures format == "b64_json" && inline != [] ==>
      ImageData(format, prompt, n, inline, links, fetch, save)
        == Collect(SliceTo(inline, n), (m: InlineMatch) => Some(B64Item(m.data, prompt)))
        && |ImageData(format, prompt, n, inline, links, fetch, save)| >= 1
    ensures format != "b64_json" && links != [] ==>
      ImageData(format, prompt, n, inline, links, fetch, save)
        == Collect(SliceTo(links, n), (u: string) => Some(UrlItem(u, prompt)))
        && |ImageData(format, prompt, n, inline, links, fetch, save)| >= 1
  {
    var f1 := (m: InlineMatch) => Some(B64Item(m.data, prompt));
    var f3 := (u: string) => Some(UrlItem(u, prompt));
    if inline != [] {
      CollectNonEmpty(SliceTo(inline, n), f1);
    }
    if links != [] {
      CollectNonEmpty(SliceTo(links, n), f3);
    }
  }

  lemma CollectNonEmpty<T>(xs: seq<T>, f: T -> Option<ImageItem>)
    requires xs != [] && f(xs[|xs| - 1]).Some?
    ensures Collect(xs, f) != []
  {
  }
}
