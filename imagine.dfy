/** The image and video generation routes (`app/api/imagine.py`): request
    validation, aspect ratio resolution, the conversion of a backend's
    result into the OpenAI response shape, and the mapping of backend
    failures to HTTP statuses. The backend lookup, the backend's answer
    and the clock are inputs. */
module Imagine {
  import opened Wrappers
  import opened Strings

  /** `ALLOWED_ASPECT_RATIOS`. */
  const AllowedAspectRatios: set<string> := {"1:1", "2:3", "3:2", "9:16", "16:9"}

  /** `size_map` of `size_to_aspect_ratio`. */
  const SizeMap: map<string, string> := map[
    "1024x1024" := "1:1",
    "1024x1536" := "2:3",
    "1536x1024" := "3:2",
    "1024x1792" := "9:16",
    "1792x1024" := "16:9",
    "512x512" := "1:1",
    "256x256" := "1:1"]

  /** An HTTP error raised by a route: its status and detail. */
  datatype HttpError = HttpError(status: int, detail: string)

  /** `size_to_aspect_ratio`: the ratio of a known size, "2:3" for any other
      size or none. */
  function SizeToAspectRatio(size: Option<string>): (r: string)
    ensures r in AllowedAspectRatios
    ensures size.None? || size.value !in SizeMap ==> r == "2:3"
  {
    assert forall k :: k in SizeMap ==> SizeMap[k] in AllowedAspectRatios;
    if size.Some? && size.value in SizeMap then SizeMap[size.value] else "2:3"
  }

  /** The three square sizes give "1:1"; wide sizes give a wide ratio and
      tall sizes a tall one. */
  lemma SizeToAspectRatioMeaning()
    ensures forall s :: s in {"1024x1024", "512x512", "256x256"} ==> SizeToAspectRatio(Some(s)) == "1:1"
    ensures SizeToAspectRatio(Some("1536x1024")) == "3:2" && SizeToAspectRatio(Some("1792x1024")) == "16:9"
    ensures SizeToAspectRatio(Some("1024x1536")) == "2:3" && SizeToAspectRatio(Some("1024x1792")) == "9:16"
    ensures forall s :: SizeToAspectRatio(Some(s)) == "1:1" <==> s in {"1024x1024", "512x512", "256x256"}
  {
    forall s ensures SizeToAspectRatio(Some(s)) == "1:1" <==> s in {"1024x1024", "512x512", "256x256"} {
      if s in SizeMap {
        assert s in {"1024x1024", "1024x1536", "1536x1024", "1024x1792", "1792x1024", "512x512", "256x256"};
      }
    }
  }

  const InvalidAspectRatio := "Invalid aspect_ratio. Gunakan salah satu: 1:1, 2:3, 3:2, 9:16, 16:9"

  /** `resolve_aspect_ratio` and `resolve_video_aspect_ratio`, which are the
      same rule: an explicit non-empty ratio must be allowed and is kept;
      otherwise the size decides. */
  function ResolveAspectRatio(aspectRatio: Option<string>, size: Option<string>): Result<string, HttpError> {
    if aspectRatio.Some? && aspectRatio.value != "" then
      if aspectRatio.value !in AllowedAspectRatios then Err(HttpError(400, InvalidAspectRatio))
      else Ok(aspectRatio.value)
    else Ok(SizeToAspectRatio(size))
  }

  /** The resolved ratio is always allowed; an explicit allowed ratio wins
      over the size, an explicit disallowed one is a 400, and an absent or
      empty one falls back to the size. */
  lemma ResolveAspectRatioMeaning(aspectRatio: Option<string>, size: Option<string>)
    ensures var r := ResolveAspectRatio(aspectRatio, size);
      && (r.Ok? ==> r.value in AllowedAspectRatios)
      && (r.Err? <==> aspectRatio.Some? && aspectRatio.value != "" && aspectRatio.value !in AllowedAspectRatios)
      && (r.Err? ==> r.error.status == 400)
      && (aspectRatio.Some? && aspectRatio.value in AllowedAspectRatios ==> r == Ok(aspectRatio.value))
      && (aspectRatio.None? || aspectRatio.value == "" ==> r == Ok(SizeToAspectRatio(size)))
  {
  }

  /** `validate_video_options`: the duration, the resolution and the preset
      are checked in that order; the first bad one is a 400. */
  function ValidateVideoOptions(duration: Option<int>, resolution: Option<string>, preset: Option<string>)
    : Option<HttpError>
  {
    if duration.None? || duration.value !in [6, 10] then
      Some(HttpError(400, "Invalid duration_seconds. Gunakan 6 atau 10"))
    else if resolution.None? || resolution.value !in ["480p", "720p"] then
      Some(HttpError(400, "Invalid resolution. Gunakan 480p atau 720p"))
    else if preset.None? || preset.value !in ["fun", "normal", "spicy", "custom"] then
      Some(HttpError(400, "Invalid preset. Gunakan fun, normal, spicy, atau custom"))
    else None
  }

  /** The options pass exactly when all three are among the offered ones;
      a failure is always a 400. */
  lemma ValidateVideoOptionsMeaning(duration: Option<int>, resolution: Option<string>, preset: Option<string>)
    ensures var e := ValidateVideoOptions(duration, resolution, preset);
      && (e.None? <==>
            && duration.Some? && (duration.value == 6 || duration.value == 10)
            && resolution.Some? && resolution.value in {"480p", "720p"}
            && preset.Some? && preset.value in {"fun", "normal", "spicy", "custom"})
      && (e.Some? ==> e.value.status == 400)
  {
  }

  /** The field constraints of an image request: a non-empty prompt and,
      when given, between one and four images. */
  predicate ValidImageRequest(prompt: string, n: Option<int>) {
    |prompt| >= 1 && (n.None? || 1 <= n.value <= 4)
  }

  /** A video request needs a non-empty prompt. */
  predicate ValidVideoRequest(prompt: string) {
    |prompt| >= 1
  }

  // Result conversion.

  /** One item of the backend's `data`. */
  datatype ResultItem = ResultItem(b64Json: Option<string>, url: Option<string>)

  /** One item of the response: inline data or a link. */
  datatype MediaData = B64Data(b64Json: string) | UrlData(url: string)

  predicate Truthy(s: Option<string>) {
    s.Some? && s.value != ""
  }

  /** An item becomes inline data when it has some, a link when it has only
      that, and nothing otherwise. */
  function ConvertItem(item: ResultItem): seq<MediaData> {
    if Truthy(item.b64Json) then [B64Data(item.b64Json.value)]
    else if Truthy(item.url) then [UrlData(item.url.value)]
    else []
  }

  function ConvertItems(items: seq<ResultItem>): seq<MediaData> {
    if items == [] then [] else ConvertItems(items[..|items| - 1]) + ConvertItem(items[|items| - 1])
  }

  /** The loop over `result_data`, then the empty check with the route's
      message. */
  method ConvertResult(items: seq<ResultItem>, emptyDetail: string) returns (r: Result<seq<MediaData>, HttpError>)
    ensures ConvertItems(items) == [] ==> r == Err(HttpError(500, emptyDetail))
    ensures ConvertItems(items) != [] ==> r == Ok(ConvertItems(items))
  {
    var data: seq<MediaData> := [];
    for k := 0 to |items|
      invariant data == ConvertItems(items[..k])
    {
      assert items[..k + 1][..k] == items[..k];
      var item := items[k];
      if item.b64Json.Some? && item.b64Json.value != "" {
        data := data + [B64Data(item.b64Json.value)];
      } else if item.url.Some? && item.url.value != "" {
        data := data + [UrlData(item.url.value)];
      }
    }
    assert items[..|items|] == items;
    if data == [] {
      return Err(HttpError(500, emptyDetail));
    }
    return Ok(data);
  }

  function Usable(items: seq<ResultItem>): (n: nat)
    ensures n <= |items|
  {
    if items == [] then 0
    else Usable(items[..|items| - 1]) + (if Truthy(items[|items| - 1].b64Json) || Truthy(items[|items| - 1].url) then 1 else 0)
  }

  lemma {:induction false} ConvertItemsAppend(a: seq<ResultItem>, b: seq<ResultItem>)
    ensures ConvertItems(a + b) == ConvertItems(a) + ConvertItems(b)
    decreases |b|
  {
    if b == [] {
      assert a + b == a;
    } else {
      assert (a + b)[..|a + b| - 1] == a + b[..|b| - 1];
      ConvertItemsAppend(a, b[..|b| - 1]);
    }
  }

  /** One output per usable item. */
  lemma {:induction false} ConvertItemsCount(items: seq<ResultItem>)
    ensures |ConvertItems(items)| == Usable(items)
  {
    if items != [] {
      ConvertItemsCount(items[..|items| - 1]);
    }
  }

  /** Nothing comes out exactly when no item has inline data or a link. */
  lemma {:induction false} ConvertItemsEmpty(items: seq<ResultItem>)
    ensures ConvertItems(items) == [] <==> forall i :: 0 <= i < |items| ==> !Truthy(items[i].b64Json) && !Truthy(items[i].url)
  {
    if items != [] {
      var n := |items| - 1;
      ConvertItemsEmpty(items[..n]);
      if ConvertItems(items) == [] {
        forall i | 0 <= i < |items| ensures !Truthy(items[i].b64Json) && !Truthy(items[i].url) {
          if i < n {
            assert items[..n][i] == items[i];
          }
        }
      } else if ConvertItems(items[..n]) != [] {
        var i :| 0 <= i < n && (Truthy(items[..n][i].b64Json) || Truthy(items[..n][i].url));
        assert items[i] == items[..n][i];
      }
    }
  }

  /** The outputs keep the order of the items: each item's output sits
      between those of the items before and after it. */
  lemma {:induction false} ConvertItemsOrder(items: seq<ResultItem>, i: nat)
    requires i < |items|
    ensures ConvertItems(items) == ConvertItems(items[..i]) + ConvertItem(items[i]) + ConvertItems(items[i + 1..])
  {
    var before, x, after := items[..i], items[i], items[i + 1..];
    assert items == before + ([x] + after);
    ConvertItemsAppend(before, [x] + after);
    ConvertItemsAppend([x], after);
    ConvertItemsSingle(x);
  }

  lemma ConvertItemsSingle(x: ResultItem)
    ensures ConvertItems([x]) == ConvertItem(x)
  {
    assert [x][..0] == [];
  }

  /** `ConvertItem` keeps the inline data of an item that has both. */
  lemma ConvertItemPrefersInline(b64: string, url: string)
    requires b64 != ""
    ensures ConvertItem(ResultItem(Some(b64), Some(url))) == [B64Data(b64)]
  {
  }

  // Failure mapping.

  /** The status of a backend `RuntimeError` in the image route: 429 for a
      rate limit, 500 otherwise. */
  function ImageErrorStatus(err: string): int {
    if Contains(Lower(err), "rate_limit") || Contains(err, "429") then 429 else 500
  }

  /** The video route adds 501 for an unsupported model, after the rate
      limit check. */
  function VideoErrorStatus(err: string): int {
    if Contains(Lower(err), "rate_limit") || Contains(err, "429") then 429
    else if Contains(Lower(err), "video_not_supported") then 501
    else 500
  }

  /** The two mappings agree except that the video route answers 501 for
      an unsupported model that is not also rate limited. */
  lemma ErrorStatusMeaning(err: string)
    ensures ImageErrorStatus(err) in {429, 500} && VideoErrorStatus(err) in {429, 500, 501}
    ensures ImageErrorStatus(err) == 429 <==> VideoErrorStatus(err) == 429
    ensures VideoErrorStatus(err) == 501 <==> ImageErrorStatus(err) == 500 && Contains(Lower(err), "video_not_supported")
    ensures VideoErrorStatus(err) != 501 ==> VideoErrorStatus(err) == ImageErrorStatus(err)
  {
  }

  // The routes.

  /** What the backend did: returned a result (with its `created`, if any),
      raised an `HTTPException`, a `RuntimeError`, or anything else. */
  datatype BackendOutcome =
    | Generated(created: Option<int>, items: seq<ResultItem>)
    | RaisedHttp(error: HttpError)
    | RaisedRuntime(message: string)
    | RaisedOther(message: string)

  /** What a route answers. */
  datatype Reply = Streamed(aspectRatio: string) | Media(created: int, data: seq<MediaData>) | Failure(error: HttpError)

  /** The part of a route after the backend call: conversion, then the
      error mapping. */
  function Finish(outcome: BackendOutcome, now: int, emptyDetail: string, status: string -> int): Reply {
    match outcome
    case Generated(created, items) =>
      var data := ConvertItems(items);
      if data == [] then Failure(HttpError(500, emptyDetail))
      else Media(if created.Some? then created.value else now, data)
    case RaisedHttp(e) => Failure(e)
    case RaisedRuntime(m) => Failure(HttpError(status(m), m))
    case RaisedOther(m) => Failure(HttpError(500, m))
  }

  /** `generate_image`: `backend` is the name of the backend the router
      found for the model, if any. A request breaking the field constraints
      is a 422 before the route runs. */
  function GenerateImage(prompt: string, model: Option<string>, n: Option<int>, size: Option<string>,
                         aspectRatio: Option<string>, stream: bool, backend: Option<string>,
                         outcome: BackendOutcome, now: int): Reply {
    if !ValidImageRequest(prompt, n) then Failure(HttpError(422, "Unprocessable Entity"))
    else
      var name := if model.Some? && model.value != "" then model.value else "grok-2-image";
      match ResolveAspectRatio(aspectRatio, size)
      case Err(e) => Failure(e)
      case Ok(ratio) =>
        if backend.None? then Failure(HttpError(404, "Model '" + name + "' not found for image generation."))
        else if stream && backend.value == "grok" then Streamed(ratio)
        else Finish(outcome, now, "No images generated", ImageErrorStatus)
  }

  /** `generate_video`. */
  function GenerateVideo(prompt: string, model: Option<string>, size: Option<string>, aspectRatio: Option<string>,
                         duration: Option<int>, resolution: Option<string>, preset: Option<string>,
                         backend: Option<string>, outcome: BackendOutcome, now: int): Reply {
    if !ValidVideoRequest(prompt) then Failure(HttpError(422, "Unprocessable Entity"))
    else
      var name := if model.Some? && model.value != "" then model.value else "grok-2-video";
      match ValidateVideoOptions(duration, resolution, preset)
      case Some(e) => Failure(e)
      case None =>
        match ResolveAspectRatio(aspectRatio, size)
        case Err(e) => Failure(e)
        case Ok(_) =>
          if backend.None? then Failure(HttpError(404, "Model '" + name + "' not found for video generation."))
          else Finish(outcome, now, "No video generated", VideoErrorStatus)
  }

  /** A successful image reply holds one item per usable backend item, never
      none; the checks run in order (fields, ratio, backend) and the backend
      is not consulted before they pass; streaming is for the Grok backend
      only. */
  lemma GenerateImageMeaning(prompt: string, model: Option<string>, n: Option<int>, size: Option<string>,
                             aspectRatio: Option<string>, stream: bool, backend: Option<string>,
                             outcome: BackendOutcome, now: int)
    ensures var r := GenerateImage(prompt, model, n, size, aspectRatio, stream, backend, outcome, now);
      && (r.Media? ==> outcome.Generated? && r.data != [] && |r.data| == Usable(outcome.items))
      && (r.Streamed? <==> ValidImageRequest(prompt, n) && ResolveAspectRatio(aspectRatio, size).Ok?
                           && backend == Some("grok") && stream)
      && (r.Streamed? ==> r.aspectRatio in AllowedAspectRatios)
      && (!ValidImageRequest(prompt, n) ==> r.Failure? && r.error.status == 422)
      && (ValidImageRequest(prompt, n) && ResolveAspectRatio(aspectRatio, size).Err? ==> r.Failure? && r.error.status == 400)
      && (ValidImageRequest(prompt, n) && ResolveAspectRatio(aspectRatio, size).Ok? && backend.None? ==>
            r.Failure? && r.error.status == 404)
      && (outcome.RaisedRuntime? && ValidImageRequest(prompt, n) && ResolveAspectRatio(aspectRatio, size).Ok?
            && backend.Some? && !(stream && backend.value == "grok") ==>
            r == Failure(HttpError(ImageErrorStatus(outcome.message), outcome.message)))
  {
    ResolveAspectRatioMeaning(aspectRatio, size);
    if outcome.Generated? {
      ConvertItemsCount(outcome.items);
    }
  }

  /** The video route checks the fields, then the options, then the ratio,
      then the backend; a successful reply holds one item per usable backend
      item, and a backend runtime error maps through the video statuses. */
  lemma GenerateVideoMeaning(prompt: string, model: Option<string>, size: Option<string>, aspectRatio: Option<string>,
                             duration: Option<int>, resolution: Option<string>, preset: Option<string>,
                             backend: Option<string>, outcome: BackendOutcome, now: int)
    ensures var r := GenerateVideo(prompt, model, size, aspectRatio, duration, resolution, preset, backend, outcome, now);
      var checked := ValidVideoRequest(prompt) && ValidateVideoOptions(duration, resolution, preset).None?
                     && ResolveAspectRatio(aspectRatio, size).Ok?;
      && !r.Streamed?
      && (r.Media? ==> checked && backend.Some? && outcome.Generated? && r.data != []
                       && |r.data| == Usable(outcome.items))
      && (!ValidVideoRequest(prompt) ==> r.Failure? && r.error.status == 422)
      && (ValidVideoRequest(prompt) && ValidateVideoOptions(duration, resolution, preset).Some? ==>
            r.Failure? && r.error.status == 400)
      && (ValidVideoRequest(prompt) && ValidateVideoOptions(duration, resolution, preset).None?
            && ResolveAspectRatio(aspectRatio, size).Err?
          ==> r.Failure? && r.error.status == 400)
      && (checked && backend.None? ==> r.Failure? && r.error.status == 404)
      && (checked && backend.Some? && outcome.RaisedRuntime? ==>
            r == Failure(HttpError(VideoErrorStatus(outcome.message), outcome.message)))
  {
    if ValidVideoRequest(prompt) {
      var v := ValidateVideoOptions(duration, resolution, preset);
      if v.Some? {
        ValidateVideoOptionsMeaning(duration, resolution, preset);
      } else if ResolveAspectRatio(aspectRatio, size).Err? {
        ResolveAspectRatioMeaning(aspectRatio, size);
      } else if backend.Some? && outcome.Generated? {
        ConvertItemsCount(outcome.items);
      }
    }
  }

  // The model list.

  /** The filter of `list_imagine_models`: ids naming images or video. */
  predicate IsMediaModel(id: string) {
    Contains(id, "image") || Contains(id, "imagine") || Contains(id, "video") || Contains(id, "imagen")
      || Contains(id, "veo")
  }

  function MediaModels(ids: seq<string>): (r: seq<string>)
    ensures forall i :: 0 <= i < |r| ==> IsMediaModel(r[i]) && r[i] in ids
    ensures forall id :: id in ids && IsMediaModel(id) ==> id in r
  {
    if ids == [] then []
    else
      var rest := MediaModels(ids[..|ids| - 1]);
      assert forall id :: id in ids[..|ids| - 1] ==> id in ids;
      assert forall id :: id in ids ==> id in ids[..|ids| - 1] || id == ids[|ids| - 1];
      rest + (if IsMediaModel(ids[|ids| - 1]) then [ids[|ids| - 1]] else [])
  }

  /** The filter keeps order and duplicates: it works id by id and
      composes over concatenation. */
  lemma {:induction false} MediaModelsAppend(a: seq<string>, b: seq<string>)
    ensures MediaModels(a + b) == MediaModels(a) + MediaModels(b)
    decreases |b|
  {
    if b == [] {
      assert a + b == a;
    } else {
      var b' := b[..|b| - 1];
      assert (a + b)[..|a + b| - 1] == a + b';
      MediaModelsAppend(a, b');
    }
  }

  lemma MediaModelsSingle(id: string)
    ensures MediaModels([id]) == (if IsMediaModel(id) then [id] else [])
  {
    assert [id][..0] == [];
  }
}
