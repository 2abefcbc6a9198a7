/** The streaming decoder of the upstream's pretty-printed JSON array
    (`app/backends/gemini/streaming_parser.py`). A character-level state
    machine cuts each top-level object's text out of the stream as soon as
    its braces balance; `json.loads` on that text is an input. */
module StreamingParser {
  import opened Wrappers
  import opened Strings

  /** `(brace_level, in_string, escape_next, buffer)`. */
  datatype PState = PState(level: int, inString: bool, escapeNext: bool, buffer: string)

  const Init := PState(0, false, false, [])

  datatype StreamError =
    | NoOpenBracket      // "JSON stream did not start with '['"
    | JsonParseError(content: string)

  /** One character of the scan; the second component is the text of the
      object that this character closes, if any. */
  function Step(s: PState, c: char): (PState, Option<string>) {
    if s.escapeNext then
      (s.(buffer := if s.level > 0 then s.buffer + [c] else s.buffer, escapeNext := false), None)
    else if c == '\\' then
      (s.(buffer := if s.level > 0 then s.buffer + [c] else s.buffer, escapeNext := true), None)
    else if c == '"' && s.level > 0 then
      (s.(inString := !s.inString, buffer := s.buffer + [c]), None)
    else if !s.inString then
      var b0 := if c == '{' && s.level == 0 then [] else s.buffer;
      var l1 := if c == '{' then s.level + 1 else s.level;
      var b1 := if l1 > 0 then b0 + [c] else b0;
      if c == '}' && l1 - 1 == 0 && b1 != [] then (PState(0, false, false, []), Some(b1))
      else if c == '}' then (PState(l1 - 1, false, false, b1), None)
      else (PState(l1, false, false, b1), None)
    else
      (s.(buffer := if s.level > 0 then s.buffer + [c] else s.buffer), None)
  }

  function Emitted(e: Option<string>): seq<string> {
    if e.Some? then [e.value] else []
  }

  /** The state after scanning `cs` from `s`, and the object texts closed on
      the way, in order. */
  function Feed(s: PState, cs: string): (PState, seq<string>) {
    if cs == [] then (s, [])
    else
      var (s1, texts) := Feed(s, cs[..|cs| - 1]);
      var (s2, e) := Step(s1, cs[|cs| - 1]);
      (s2, texts + Emitted(e))
  }

  /** Decoding the texts in order; the first failure stops the stream with
      `JSON parse error` after the objects before it. */
  function DecodeAll<Obj>(texts: seq<string>, decode: string -> Option<Obj>): (seq<Obj>, Option<StreamError>) {
    if texts == [] then ([], None)
    else match decode(texts[0])
      case None => ([], Some(JsonParseError(texts[0])))
      case Some(o) =>
        var (rest, err) := DecodeAll(texts[1..], decode);
        ([o] + rest, err)
  }

  /** A line that opens the array: its stripped text begins with `[`. */
  predicate Opens(line: string) {
    var t := Strip(line);
    t != [] && t[0] == '['
  }

  /** The index of the first opening line. */
  function OpenIndex(lines: seq<string>): (r: Option<nat>)
    ensures r.Some? ==> r.value < |lines|
  {
    if lines == [] then None
    else if Opens(lines[0]) then Some(0)
    else match OpenIndex(lines[1..])
      case None => None
      case Some(i) => Some(i + 1)
  }

  function Flatten(lines: seq<string>): string {
    if lines == [] then [] else Flatten(lines[..|lines| - 1]) + lines[|lines| - 1]
  }

  /** Every character the scan sees: the opening line's stripped text after
      `[`, then every later line in full. */
  function Stream(lines: seq<string>, i: nat): string
    requires i < |lines| && Opens(lines[i])
  {
    Strip(lines[i])[1..] + Flatten(lines[i + 1..])
  }

  /** What `parse_json_array_stream_async` yields and how it ends. */
  function Parse<Obj>(lines: seq<string>, decode: string -> Option<Obj>): (seq<Obj>, Option<StreamError>) {
    match OpenIndex(lines)
    case None => ([], Some(NoOpenBracket))
    case Some(i) =>
      OpenIndexSound(lines);
      DecodeAll(Feed(Init, Stream(lines, i)).1, decode)
  }

  /** The decoder over a whole stream of lines: the two phases of the
      source, each feeding characters through the same step. */
  method ParseStream<Obj>(lines: seq<string>, decode: string -> Option<Obj>)
    returns (objects: seq<Obj>, err: Option<StreamError>)
    ensures (objects, err) == Parse(lines, decode)
  {
    var i := FindOpen(lines);
    if i == |lines| {
      return [], Some(NoOpenBracket);
    }
    ParseFrom(lines, i, decode);
    var first := Strip(lines[i])[1..];
    var st;
    st, objects, err := ScanLine(Init, first, decode);
    if err.Some? {
      FeedFailStops(Init, first, Flatten(lines[i + 1..]), decode);
      return;
    }
    objects, err := ScanRest(lines, i, first, st, objects, decode);
  }

  /** The second phase: every line after the opening one is fed whole. */
  method ScanRest<Obj>(lines: seq<string>, i: nat, first: string, st0: PState, objects0: seq<Obj>,
                       decode: string -> Option<Obj>)
    returns (objects: seq<Obj>, err: Option<StreamError>)
    requires i < |lines|
    requires st0 == Feed(Init, first).0
    requires DecodeAll(Feed(Init, first).1, decode) == (objects0, None)
    ensures DecodeAll(Feed(Init, first + Flatten(lines[i + 1..])).1, decode) == (objects, err)
  {
    var st := st0;
    objects := objects0;
    var j := i + 1;
    NothingAfter(first, lines, i);
    while j < |lines|
      invariant i + 1 <= j <= |lines|
      invariant st == Feed(Init, first + Flatten(lines[i + 1..j])).0
      invariant DecodeAll(Feed(Init, first + Flatten(lines[i + 1..j])).1, decode) == (objects, None)
    {
      ghost var done := first + Flatten(lines[i + 1..j]);
      var more, lineErr;
      st, more, lineErr := ScanLine(st, lines[j], decode);
      RestAt(lines, first, i, j);
      AfterLine(Init, done, lines[j], Flatten(lines[j + 1..]), objects, more, lineErr, decode);
      if lineErr.Some? {
        return objects + more, lineErr;
      }
      objects := objects + more;
      j := j + 1;
    }
    assert lines[i + 1..j] == lines[i + 1..];
    err := None;
  }

  /** Where the scan starts once the opening line is known. */
  lemma ParseFrom<Obj>(lines: seq<string>, i: nat, decode: string -> Option<Obj>)
    requires OpenIndex(lines) == Some(i)
    ensures i < |lines| && Opens(lines[i])
    ensures Parse(lines, decode) == DecodeAll(Feed(Init, Strip(lines[i])[1..] + Flatten(lines[i + 1..])).1, decode)
  {
    OpenIndexSound(lines);
  }

  /** The first phase: lines are skipped until one whose stripped text
      begins with `[`. */
  method FindOpen(lines: seq<string>) returns (i: nat)
    ensures i <= |lines|
    ensures i == |lines| <==> OpenIndex(lines).None?
    ensures i < |lines| ==> OpenIndex(lines) == Some(i)
  {
    i := 0;
    while i < |lines|
      invariant 0 <= i <= |lines|
      invariant forall k :: 0 <= k < i ==> !Opens(lines[k])
    {
      var stripped := Strip(lines[i]);
      if stripped != [] && stripped[0] == '[' {
        OpenIndexIs(lines, i);
        return;
      }
      i := i + 1;
    }
    OpenIndexNone(lines);
  }

  /** The per-character loop over one line; it stops at the first object
      text that does not decode. */
  method ScanLine<Obj>(st: PState, chars: string, decode: string -> Option<Obj>)
    returns (st': PState, objs: seq<Obj>, failed: Option<StreamError>)
    ensures failed.None? ==> st' == Feed(st, chars).0
    ensures DecodeAll(Feed(st, chars).1, decode) == (objs, failed)
  {
    st' := st;
    objs := [];
    ghost var texts: seq<string> := [];
    var k := 0;
    while k < |chars|
      invariant 0 <= k <= |chars|
      invariant Feed(st, chars[..k]) == (st', texts)
      invariant DecodeAll(texts, decode) == (objs, None)
    {
      FeedSnoc(st, chars, k);
      var (next, e) := Step(st', chars[k]);
      if e.Some? {
        var o := decode(e.value);
        DecodeMore(texts, e.value, decode);
        if o.None? {
          ScanFails(st, chars, k, decode);
          return st', objs, Some(JsonParseError(e.value));
        }
        objs := objs + [o.value];
        texts := texts + [e.value];
      } else {
        assert texts + Emitted(e) == texts;
      }
      st' := next;
      k := k + 1;
    }
    failed := None;
    assert chars[..k] == chars;
  }

  /** One more object text after texts that all decoded. */
  lemma DecodeMore<Obj>(texts: seq<string>, t: string, decode: string -> Option<Obj>)
    requires DecodeAll(texts, decode).1.None?
    ensures decode(t).Some? ==> DecodeAll(texts + [t], decode) == (DecodeAll(texts, decode).0 + [decode(t).value], None)
    ensures decode(t).None? ==> DecodeAll(texts + [t], decode) == (DecodeAll(texts, decode).0, Some(JsonParseError(t)))
  {
    DecodeAllAppend(texts, [t], decode);
    DecodeOne(t, decode);
    assert DecodeAll(texts, decode).0 + [] == DecodeAll(texts, decode).0;
  }

  /** A text closed at character `k` that does not decode ends the scan of
      the whole line there. */
  lemma ScanFails<Obj>(st: PState, chars: string, k: nat, decode: string -> Option<Obj>)
    requires k < |chars|
    requires DecodeAll(Feed(st, chars[..k]).1, decode).1.None?
    requires Step(Feed(st, chars[..k]).0, chars[k]).1.Some?
    requires decode(Step(Feed(st, chars[..k]).0, chars[k]).1.value).None?
    ensures DecodeAll(Feed(st, chars).1, decode)
      == (DecodeAll(Feed(st, chars[..k]).1, decode).0,
          Some(JsonParseError(Step(Feed(st, chars[..k]).0, chars[k]).1.value)))
  {
    var texts := Feed(st, chars[..k]).1;
    var t := Step(Feed(st, chars[..k]).0, chars[k]).1.value;
    FailAt(st, chars, k, decode);
    DecodeMore(texts, t, decode);
    DecodeAllStops(texts + [t], Feed(Feed(st, chars[..k + 1]).0, chars[k + 1..]).1, decode);
  }

  lemma {:induction false} OpenIndexIs(lines: seq<string>, i: nat)
    requires i < |lines| && Opens(lines[i]) && forall k :: 0 <= k < i ==> !Opens(lines[k])
    ensures OpenIndex(lines) == Some(i)
    decreases i
  {
    if i > 0 {
      assert !Opens(lines[0]);
      assert forall k :: 0 <= k < i - 1 ==> lines[1..][k] == lines[k + 1];
      OpenIndexIs(lines[1..], i - 1);
    }
  }

  /** No line opens the array exactly when there is no opening index. */
  lemma {:induction false} OpenIndexNone(lines: seq<string>)
    ensures OpenIndex(lines).None? <==> forall k :: 0 <= k < |lines| ==> !Opens(lines[k])
    decreases |lines|
  {
    if lines != [] {
      OpenIndexNone(lines[1..]);
      assert forall k :: 1 <= k < |lines| ==> lines[k] == lines[1..][k - 1];
    }
  }

  /** The opening index is the first line that opens the array. */
  lemma {:induction false} OpenIndexSound(lines: seq<string>)
    ensures OpenIndex(lines).Some? ==>
      var i := OpenIndex(lines).value;
      Opens(lines[i]) && forall k :: 0 <= k < i ==> !Opens(lines[k])
    decreases |lines|
  {
    if lines != [] && !Opens(lines[0]) {
      OpenIndexSound(lines[1..]);
      assert forall k :: 1 <= k < |lines| ==> lines[k] == lines[1..][k - 1];
    }
  }

  lemma DecodeOne<Obj>(t: string, decode: string -> Option<Obj>)
    ensures decode(t).Some? ==> DecodeAll([t], decode) == ([decode(t).value], None)
    ensures decode(t).None? ==> DecodeAll([t], decode) == ([], Some(JsonParseError(t)))
  {
    var ts := [t];
    assert ts[0] == t && ts[1..] == [];
    var r := DecodeAll(ts, decode);
    match decode(t)
    case None =>
      assert r == ([], Some(JsonParseError(t)));
    case Some(o) =>
      assert DecodeAll(ts[1..], decode) == ([], None);
      assert r == ([o] + [], None);
      assert [o] + [] == [o];
      assert decode(t).value == o;
  }

  lemma FeedSnoc(st: PState, chars: string, k: nat)
    requires k < |chars|
    ensures var (s1, texts) := Feed(st, chars[..k]);
      var (s2, e) := Step(s1, chars[k]);
      Feed(st, chars[..k + 1]) == (s2, texts + Emitted(e))
  {
    assert chars[..k + 1][..k] == chars[..k];
    assert chars[..k + 1][k] == chars[k];
  }

  lemma NothingAfter(first: string, lines: seq<string>, i: nat)
    requires i < |lines|
    ensures first + Flatten(lines[i + 1..i + 1]) == first
  {
    assert lines[i + 1..i + 1] == [];
  }

  lemma FlattenStep(lines: seq<string>, a: nat, j: nat)
    requires a <= j < |lines|
    ensures Flatten(lines[a..j + 1]) == Flatten(lines[a..j]) + lines[j]
  {
    assert lines[a..j + 1][..j - a] == lines[a..j];
  }

  /** The lines up to `j` and the lines after it make up the whole. */
  lemma FlattenSplit(lines: seq<string>, a: nat, j: nat)
    requires a <= j < |lines|
    ensures Flatten(lines[a..]) == Flatten(lines[a..j + 1]) + Flatten(lines[j + 1..])
  {
    FlattenAppend(lines[a..j + 1], lines[j + 1..]);
    assert lines[a..j + 1] + lines[j + 1..] == lines[a..];
  }

  lemma {:induction false} FlattenAppend(a: seq<string>, b: seq<string>)
    ensures Flatten(a + b) == Flatten(a) + Flatten(b)
    decreases |b|
  {
    if b == [] {
      assert a + b == a;
    } else {
      var b0 := b[..|b| - 1];
      assert (a + b)[..|a + b| - 1] == a + b0;
      FlattenAppend(a, b0);
      ConcatAssoc(Flatten(a), Flatten(b0), b[|b| - 1]);
    }
  }

  /** Scanning `a` then `b` is scanning `a + b`: the texts of a prefix are a
      prefix of the texts, so a stream cut short still yields every object
      completed before the cut. */
  lemma {:induction false} FeedAppend(s: PState, a: string, b: string)
    ensures Feed(s, a + b).0 == Feed(Feed(s, a).0, b).0
    ensures Feed(s, a + b).1 == Feed(s, a).1 + Feed(Feed(s, a).0, b).1
    decreases |b|
  {
    if b == [] {
      assert a + b == a;
    } else {
      var b0, c := b[..|b| - 1], b[|b| - 1];
      var sa := Feed(s, a).0;
      assert (a + b)[..|a + b| - 1] == a + b0;
      assert (a + b)[|a + b| - 1] == c;
      FeedAppend(s, a, b0);
      var (m, t) := Feed(sa, b0);
      var (m2, e) := Step(m, c);
      assert Feed(sa, b) == (m2, t + Emitted(e));
      assert Feed(s, a + b) == (m2, Feed(s, a).1 + t + Emitted(e));
      ConcatAssoc(Feed(s, a).1, t, Emitted(e));
    }
  }

  lemma {:induction false} DecodeAllAppend<Obj>(a: seq<string>, b: seq<string>, decode: string -> Option<Obj>)
    requires DecodeAll(a, decode).1.None?
    ensures DecodeAll(a + b, decode) == (DecodeAll(a, decode).0 + DecodeAll(b, decode).0, DecodeAll(b, decode).1)
    decreases |a|
  {
    if a == [] {
      assert a + b == b;
      assert [] + DecodeAll(b, decode).0 == DecodeAll(b, decode).0;
    } else {
      assert (a + b)[1..] == a[1..] + b;
      assert (a + b)[0] == a[0];
      DecodeAllAppend(a[1..], b, decode);
      var o := decode(a[0]).value;
      ConcatAssoc([o], DecodeAll(a[1..], decode).0, DecodeAll(b, decode).0);
    }
  }

  /** Once a text fails to decode, nothing after it matters. */
  lemma {:induction false} DecodeAllStops<Obj>(a: seq<string>, b: seq<string>, decode: string -> Option<Obj>)
    requires DecodeAll(a, decode).1.Some?
    ensures DecodeAll(a + b, decode) == DecodeAll(a, decode)
    decreases |a|
  {
    assert a != [];
    assert (a + b)[1..] == a[1..] + b;
    if decode(a[0]).Some? {
      DecodeAllStops(a[1..], b, decode);
    }
  }

  /** The scan of `chars` fails at character `k` exactly as `ScanLine`
      reports it. */
  lemma FailAt<Obj>(st: PState, chars: string, k: nat, decode: string -> Option<Obj>)
    requires k < |chars|
    requires DecodeAll(Feed(st, chars[..k]).1, decode).1.None?
    requires Step(Feed(st, chars[..k]).0, chars[k]).1.Some?
    ensures var texts := Feed(st, chars[..k]).1;
      var e := Step(Feed(st, chars[..k]).0, chars[k]).1.value;
      Feed(st, chars).1 == texts + [e] + Feed(Feed(st, chars[..k + 1]).0, chars[k + 1..]).1
  {
    assert chars[..k + 1][..k] == chars[..k];
    assert chars == chars[..k + 1] + chars[k + 1..];
    FeedAppend(st, chars[..k + 1], chars[k + 1..]);
  }

  /** A decoding failure while scanning `a` ends the stream there, whatever
      `b` holds. */
  lemma FeedFailStops<Obj>(s: PState, a: string, b: string, decode: string -> Option<Obj>)
    requires DecodeAll(Feed(s, a).1, decode).1.Some?
    ensures DecodeAll(Feed(s, a + b).1, decode) == DecodeAll(Feed(s, a).1, decode)
  {
    FeedAppend(s, a, b);
    DecodeAllStops(Feed(s, a).1, Feed(Feed(s, a).0, b).1, decode);
  }

  /** Where the second phase stands before line `j`. */
  lemma RestAt(lines: seq<string>, first: string, i: nat, j: nat)
    requires i < j < |lines|
    ensures first + Flatten(lines[i + 1..j]) + lines[j] == first + Flatten(lines[i + 1..j + 1])
    ensures first + Flatten(lines[i + 1..]) == first + Flatten(lines[i + 1..j]) + lines[j] + Flatten(lines[j + 1..])
  {
    FlattenStep(lines, i + 1, j);
    FlattenSplit(lines, i + 1, j);
    ConcatAssoc(first, Flatten(lines[i + 1..j]), lines[j]);
    ConcatAssoc(first, Flatten(lines[i + 1..j + 1]), Flatten(lines[j + 1..]));
  }

  /** One more line scanned after `done`: the objects add up, and a failure
      in it ends the whole stream. */
  lemma AfterLine<Obj>(s: PState, done: string, line: string, rest: string,
                       objects: seq<Obj>, more: seq<Obj>, failed: Option<StreamError>,
                       decode: string -> Option<Obj>)
    requires DecodeAll(Feed(s, done).1, decode) == (objects, None)
    requires DecodeAll(Feed(Feed(s, done).0, line).1, decode) == (more, failed)
    ensures DecodeAll(Feed(s, done + line).1, decode) == (objects + more, failed)
    ensures Feed(s, done + line).0 == Feed(Feed(s, done).0, line).0
    ensures failed.Some? ==> DecodeAll(Feed(s, done + line + rest).1, decode) == (objects + more, failed)
  {
    FeedAppend(s, done, line);
    DecodeAllAppend(Feed(s, done).1, Feed(Feed(s, done).0, line).1, decode);
    if failed.Some? {
      FeedFailStops(s, done + line, rest, decode);
    }
  }

  /** The scan's invariant: outside every object no string is open and the
      buffer is empty; inside one the buffer holds the object's text so
      far, beginning with its `{`. */
  predicate Inv(s: PState) {
    && (s.level <= 0 ==> !s.inString && s.buffer == [])
    && (s.level > 0 ==> s.buffer != [] && s.buffer[0] == '{')
  }

  /** An object's text: from its opening `{` through its closing `}`. */
  predicate Framed(t: string) {
    |t| >= 2 && t[0] == '{' && t[|t| - 1] == '}'
  }

  /** Each step keeps the invariant; a closed object's text is framed by
      its braces, and right after it the scan is back outside every object
      with an empty buffer and no open string. */
  lemma StepKeepsInv(s: PState, c: char)
    requires Inv(s)
    ensures Inv(Step(s, c).0)
    ensures Step(s, c).1.Some? ==> Framed(Step(s, c).1.value) && Step(s, c).0 == Init
  {
  }

  /** Over any run of characters from a state satisfying the invariant,
      every emitted text is framed by braces. */
  lemma {:induction false} FeedKeepsInv(s: PState, cs: string)
    requires Inv(s)
    ensures Inv(Feed(s, cs).0)
    ensures forall t :: t in Feed(s, cs).1 ==> Framed(t)
    decreases |cs|
  {
    if cs != [] {
      var init := cs[..|cs| - 1];
      FeedKeepsInv(s, init);
      StepKeepsInv(Feed(s, init).0, cs[|cs| - 1]);
    }
  }

  /** A character the scan counts as part of an object: any character
      met at depth > 0, and the `{` that opens a top-level object. */
  predicate Inside(s: PState, c: char) {
    s.level > 0 || (c == '{' && s.level == 0 && !s.escapeNext && !s.inString)
  }

  /** The characters of `cs` that lie inside objects, in order. */
  function Kept(s: PState, cs: string): string {
    if cs == [] then []
    else
      var init, c := cs[..|cs| - 1], cs[|cs| - 1];
      Kept(s, init) + (if Inside(Feed(s, init).0, c) then [c] else [])
  }

  /** One step neither loses nor invents a character: what it emits and
      what it leaves buffered is the old buffer plus the character, when
      that character is inside an object. */
  lemma StepConserves(s: PState, c: char)
    requires Inv(s)
    ensures Flatten(Emitted(Step(s, c).1)) + Step(s, c).0.buffer
         == s.buffer + (if Inside(s, c) then [c] else [])
  {
    var (s2, e) := Step(s, c);
    if e.Some? {
      assert Emitted(e) == [e.value];
      assert Flatten([e.value]) == Flatten([]) + e.value;
      assert s2.buffer == [];
    } else {
      assert Flatten(Emitted(e)) == [];
    }
  }

  /** Over any run of characters the emitted texts, joined in order and
      followed by what is still buffered, are exactly the starting buffer
      followed by the characters scanned inside objects: every object text
      is cut from the input as it stands. */
  lemma {:induction false} FeedConserves(s: PState, cs: string)
    requires Inv(s)
    ensures Flatten(Feed(s, cs).1) + Feed(s, cs).0.buffer == s.buffer + Kept(s, cs)
    decreases |cs|
  {
    if cs == [] {
      assert Feed(s, cs) == (s, []);
    } else {
      var init, c := cs[..|cs| - 1], cs[|cs| - 1];
      FeedConserves(s, init);
      FeedKeepsInv(s, init);
      var (s1, texts) := Feed(s, init);
      var (s2, e) := Step(s1, c);
      StepConserves(s1, c);
      var k := if Inside(s1, c) then [c] else [];
      assert Feed(s, cs) == (s2, texts + Emitted(e));
      FlattenAppend(texts, Emitted(e));
      calc {
        Flatten(texts + Emitted(e)) + s2.buffer;
        Flatten(texts) + Flatten(Emitted(e)) + s2.buffer;
        { ConcatAssoc(Flatten(texts), Flatten(Emitted(e)), s2.buffer); }
        Flatten(texts) + (Flatten(Emitted(e)) + s2.buffer);
        Flatten(texts) + (s1.buffer + k);
        { ConcatAssoc(Flatten(texts), s1.buffer, k); }
        s.buffer + Kept(s, init) + k;
        { ConcatAssoc(s.buffer, Kept(s, init), k); }
        s.buffer + Kept(s, cs);
      }
    }
  }

  /** The texts handed to `json.loads`, joined, are the in-object
      characters of the stream up to the last closed object; when the
      stream ends outside every object they are all of them. */
  lemma ParsedTextsSpans(lines: seq<string>, i: nat)
    requires OpenIndex(lines) == Some(i)
    ensures Opens(lines[i])
    ensures Flatten(Feed(Init, Stream(lines, i)).1) <= Kept(Init, Stream(lines, i))
    ensures Feed(Init, Stream(lines, i)).0.level <= 0 ==>
      Flatten(Feed(Init, Stream(lines, i)).1) == Kept(Init, Stream(lines, i))
  {
    OpenIndexSound(lines);
    var cs := Stream(lines, i);
    FeedConserves(Init, cs);
    FeedKeepsInv(Init, cs);
    assert Init.buffer + Kept(Init, cs) == Kept(Init, cs);
  }

  /** Every object text the decoder hands to `json.loads` starts with `{`
      and ends with `}`. */
  lemma ParsedTextsFramed(lines: seq<string>, i: nat)
    requires OpenIndex(lines) == Some(i)
    ensures Opens(lines[i]) && forall t :: t in Feed(Init, Stream(lines, i)).1 ==> Framed(t)
  {
    OpenIndexSound(lines);
    FeedKeepsInv(Init, Stream(lines, i));
  }

  /** Inside a string at depth > 0 every character other than a backslash
      or a quote, `{` and `}` included, is buffered and changes nothing
      else. */
  lemma InsideString(s: PState, c: char)
    requires s.inString && !s.escapeNext && s.level > 0 && c != '\\' && c != '"'
    ensures Step(s, c) == (s.(buffer := s.buffer + [c]), None)
  {
  }

  /** The character after a backslash is buffered at depth > 0 and changes
      neither the depth nor the string flag. */
  lemma AfterBackslash(s: PState, c: char)
    requires s.escapeNext
    ensures Step(s, c).1 == None
    ensures Step(s, c).0 == s.(escapeNext := false,
                               buffer := if s.level > 0 then s.buffer + [c] else s.buffer)
  {
  }

  /** Outside every object, a character other than `{` (a comma, `]`,
      whitespace, a stray quote) is never buffered and closes nothing. */
  lemma OutsideObjects(s: PState, c: char)
    requires Inv(s) && s.level <= 0 && c != '{'
    ensures Step(s, c).0.buffer == [] && !Step(s, c).0.inString
    ensures Step(s, c).1 == None
  {
  }

  /** Objects come out as soon as they close: the texts of a prefix of the
      stream are a prefix of the texts of the whole. */
  lemma FeedPrefix(s: PState, a: string, b: string)
    requires a <= b
    ensures Feed(s, a).1 <= Feed(s, b).1
  {
    assert a + b[|a|..] == b;
    FeedAppend(s, a, b[|a|..]);
  }

  /** What `DecodeAll` returns: the decoded texts in order up to the first
      that does not decode, which is the one the error carries. */
  lemma {:induction false} DecodeAllShape<Obj>(texts: seq<string>, decode: string -> Option<Obj>)
    ensures var (objs, err) := DecodeAll(texts, decode);
      && |objs| <= |texts|
      && (forall k :: 0 <= k < |objs| ==> decode(texts[k]) == Some(objs[k]))
      && (err.None? ==> |objs| == |texts|)
      && (err.Some? ==> |objs| < |texts| && err == Some(JsonParseError(texts[|objs|]))
                        && decode(texts[|objs|]).None?)
    decreases |texts|
  {
    if texts != [] && decode(texts[0]).Some? {
      DecodeAllShape(texts[1..], decode);
      var (rest, err) := DecodeAll(texts[1..], decode);
      var o := decode(texts[0]).value;
      assert DecodeAll(texts, decode) == ([o] + rest, err);
      forall k | 0 <= k < |[o] + rest|
        ensures decode(texts[k]) == Some(([o] + rest)[k])
      {
        if k > 0 {
          assert texts[k] == texts[1..][k - 1];
        }
      }
    }
  }

  /** A line that does not open the array, put in front, changes nothing. */
  lemma SkipLine<Obj>(l: string, lines: seq<string>, decode: string -> Option<Obj>)
    requires !Opens(l)
    ensures Parse([l] + lines, decode) == Parse(lines, decode)
  {
    var all := [l] + lines;
    assert all[1..] == lines;
    assert all[0] == l;
    match OpenIndex(lines)
    case None =>
    case Some(i) =>
      OpenIndexSound(lines);
      assert OpenIndex(all) == Some(i + 1);
      assert all[i + 1] == lines[i] && all[i + 2..] == lines[i + 1..];
      assert Stream(all, i + 1) == Stream(lines, i);
  }

  /** Lines before the opening line, blank or not, contribute nothing. */
  lemma {:induction false} PreambleIgnored<Obj>(pre: seq<string>, lines: seq<string>, decode: string -> Option<Obj>)
    requires forall k :: 0 <= k < |pre| ==> !Opens(pre[k])
    ensures Parse(pre + lines, decode) == Parse(lines, decode)
    decreases |pre|
  {
    if pre == [] {
      assert pre + lines == lines;
    } else {
      assert pre + lines == [pre[0]] + (pre[1..] + lines);
      assert forall k :: 0 <= k < |pre| - 1 ==> pre[1..][k] == pre[k + 1];
      PreambleIgnored(pre[1..], lines, decode);
      SkipLine(pre[0], pre[1..] + lines, decode);
    }
  }

  /** Without an opening line the decoder yields nothing and reports the
      missing `[`. */
  lemma NoOpenLine<Obj>(lines: seq<string>, decode: string -> Option<Obj>)
    requires forall k :: 0 <= k < |lines| ==> !Opens(lines[k])
    ensures Parse(lines, decode) == ([], Some(NoOpenBracket))
  {
    OpenIndexNone(lines);
  }
}
