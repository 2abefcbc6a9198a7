/** Bot settings (`bot/config.py`): the admin-id list parsed out of
    `BOT_ADMIN_IDS` and the gateway key chosen between two variables. */
module Config {
  import opened Wrappers
  import opened Strings

  /** The settings the rest of the model reads; values come from the
      environment, which is outside the model. */
  datatype BotSettings = BotSettings(
    botAdminIds: string,
    gatewayApiKey: string,
    apiKey: string,
    userDailyImageLimit: int,
    userDailyVideoLimit: int,
    qrisWebhookSecret: string)

  /** Defaults declared on the settings class. */
  function DefaultSettings(): (s: BotSettings)
    ensures s.userDailyImageLimit == 20 && s.userDailyVideoLimit == 10
    ensures s.botAdminIds == [] && s.qrisWebhookSecret == []
  {
    BotSettings([], [], [], 20, 10, [])
  }

  predicate IsDigit(c: char) { '0' <= c <= '9' }

  /** Digits with single `_` separators between them, as Python's `int()`
      accepts for base 10 (ASCII digits only). */
  predicate WellFormedDigits(s: string) {
    |s| >= 1 && IsDigit(s[0]) && IsDigit(s[|s| - 1])
    && (forall i :: 0 <= i < |s| ==> IsDigit(s[i]) || s[i] == '_')
    && (forall i :: 0 <= i < |s| - 1 ==> s[i] == '_' ==> s[i + 1] != '_')
  }

  /** The value of a digit string, underscores ignored. */
  function DigitsValue(s: string): (v: nat)
    requires forall i :: 0 <= i < |s| ==> IsDigit(s[i]) || s[i] == '_'
  {
    if s == [] then 0
    else
      var last := s[|s| - 1];
      if last == '_' then DigitsValue(s[..|s| - 1])
      else
        assert IsDigit(last);
        DigitsValue(s[..|s| - 1]) * 10 + (last as int - '0' as int)
  }

  /** `int(chunk)` on an already stripped chunk: an optional sign followed by
      well-formed digits, or nothing (the `ValueError` case). */
  function ParseInt(s: string): (r: Option<int>)
    ensures r.Some? ==> |s| >= 1
    ensures r.Some? && s[0] != '-' ==> r.value >= 0
    ensures s == [] ==> r.None?
  {
    if |s| >= 1 && (s[0] == '-' || s[0] == '+') then
      var body := s[1..];
      if WellFormedDigits(body) then
        Some(if s[0] == '-' then -(DigitsValue(body) as int) else DigitsValue(body))
      else None
    else if WellFormedDigits(s) then Some(DigitsValue(s))
    else None
  }

  /** The separators `;` and space become `,`. */
  function Normalize(raw: string): (r: string)
    ensures |r| == |raw|
    ensures forall i :: 0 <= i < |raw| ==>
      r[i] == (if raw[i] == ';' || raw[i] == ' ' then ',' else raw[i])
  {
    ReplaceChar(ReplaceChar(raw, ';', ','), ' ', ',')
  }

  /** What one comma-separated chunk contributes to the list. */
  function ChunkIds(chunk: string): seq<int> {
    var c := Strip(chunk);
    if c == [] then []
    else match ParseInt(c)
      case Some(v) => [v]
      case None => []
  }

  function ChunksIds(chunks: seq<string>): seq<int> {
    if chunks == [] then [] else ChunkIds(chunks[0]) + ChunksIds(chunks[1..])
  }

  /** The admin ids, as a specification: every chunk's id in chunk order. */
  function AdminIds(raw: string): seq<int> {
    ChunksIds(Split(Normalize(raw), ','))
  }

  /** The loop of the `admin_ids` property. */
  method ParseAdminIds(raw: string) returns (values: seq<int>)
    ensures values == AdminIds(raw)
  {
    var chunks := Split(Normalize(raw), ',');
    values := [];
    var k := 0;
    while k < |chunks|
      invariant 0 <= k <= |chunks|
      invariant values == ChunksIds(chunks[..k])
    {
      ChunksIdsStep(chunks, k);
      var piece := ChunkValue(chunks[k]);
      values := values + piece;
      k := k + 1;
    }
    assert chunks[..k] == chunks;
  }

  /** The body of that loop: a blank chunk is skipped, and so is one that
      `int()` refuses. */
  method ChunkValue(raw: string) returns (piece: seq<int>)
    ensures piece == ChunkIds(raw)
  {
    var chunk := Strip(raw);
    piece := [];
    if chunk != [] {
      var parsed := ParseInt(chunk);
      if parsed.Some? {
        piece := [parsed.value];
      }
    }
  }

  lemma ChunksIdsStep(chunks: seq<string>, k: nat)
    requires k < |chunks|
    ensures ChunksIds(chunks[..k + 1]) == ChunksIds(chunks[..k]) + ChunkIds(chunks[k])
  {
    assert chunks[..k + 1] == chunks[..k] + [chunks[k]];
    ChunksIdsAppend(chunks[..k], [chunks[k]]);
    assert ChunksIds([chunks[k]]) == ChunkIds(chunks[k]) + ChunksIds([]);
  }

  lemma {:induction false} ChunksIdsAppend(a: seq<string>, b: seq<string>)
    ensures ChunksIds(a + b) == ChunksIds(a) + ChunksIds(b)
    decreases |a|
  {
    if a == [] {
      assert a + b == b;
    } else {
      assert (a + b)[1..] == a[1..] + b;
      ChunksIdsAppend(a[1..], b);
    }
  }

  lemma NormalizeAppend(a: string, c: char, b: string)
    requires c == ',' || c == ';' || c == ' '
    ensures Normalize(a + [c] + b) == Normalize(a) + [','] + Normalize(b)
  {
    ReplaceCharAppend(a + [c], b, ';', ',');
    ReplaceCharAppend(a, [c], ';', ',');
    var m := ReplaceChar([c], ';', ',');
    assert m == [if c == ';' then ',' else c];
    ReplaceCharAppend(ReplaceChar(a, ';', ',') + m, ReplaceChar(b, ';', ','), ' ', ',');
    ReplaceCharAppend(ReplaceChar(a, ';', ','), m, ' ', ',');
    assert ReplaceChar(m, ' ', ',') == [','];
  }

  /** A separator splits the setting into two independently parsed halves,
      whichever of `,`, `;` or space it is; order and duplicates are kept. */
  lemma AdminIdsAppend(a: string, c: char, b: string)
    requires c == ',' || c == ';' || c == ' '
    ensures AdminIds(a + [c] + b) == AdminIds(a) + AdminIds(b)
  {
    NormalizeAppend(a, c, b);
    SplitAppend(Normalize(a), ',', Normalize(b));
    ChunksIdsAppend(Split(Normalize(a), ','), Split(Normalize(b), ','));
  }

  /** A chunk without separators yields its integer, or nothing when it is
      blank or not an integer. */
  lemma AdminIdsChunk(chunk: string)
    requires ',' !in chunk && ';' !in chunk && ' ' !in chunk
    ensures AdminIds(chunk) == ChunkIds(chunk)
    ensures ParseInt(Strip(chunk)) == None ==> AdminIds(chunk) == []
    ensures ParseInt(Strip(chunk)).Some? ==> AdminIds(chunk) == [ParseInt(Strip(chunk)).value]
  {
    var n := Normalize(chunk);
    assert n == chunk by {
      forall i | 0 <= i < |chunk| ensures n[i] == chunk[i] {
        assert chunk[i] != ',' && chunk[i] != ';' && chunk[i] != ' ';
      }
    }
    assert Split(n, ',') == [chunk];
    assert [chunk][1..] == [];
    assert ChunksIds([chunk]) == ChunkIds(chunk) + ChunksIds([]);
    if Strip(chunk) == [] {
      assert ParseInt(Strip(chunk)) == None;
    }
  }

  lemma {:induction false} DigitsValueOfNat(n: nat)
    ensures var s := NatToString(n);
      WellFormedDigits(s) && DigitsValue(s) == n
    decreases n
  {
    var s := NatToString(n);
    if n >= 10 {
      DigitsValueOfNat(n / 10);
      var p := NatToString(n / 10);
      assert s[..|s| - 1] == p;
    }
  }

  /** Rendering an id with `str()` and parsing it back gives the id. */
  lemma ParseIntOfRendering(i: int)
    ensures ParseInt(IntToString(i)) == Some(i)
  {
    if i < 0 {
      ParseIntOfNegative(i);
    } else {
      ParseIntOfNat(i);
    }
  }

  lemma ParseIntOfNat(i: int)
    requires i >= 0
    ensures ParseInt(IntToString(i)) == Some(i)
  {
    DigitsValueOfNat(i);
    var s := NatToString(i);
    assert s[0] != '-' && s[0] != '+';
  }

  lemma ParseIntOfNegative(i: int)
    requires i < 0
    ensures ParseInt(IntToString(i)) == Some(i)
  {
    var n: nat := -i;
    var body := NatToString(n);
    assert IntToString(i) == "-" + body;
    ParseIntNegated(body, n);
  }

  lemma ParseIntNegated(body: string, n: nat)
    requires body == NatToString(n)
    ensures ParseInt("-" + body) == Some(-(n as int))
  {
    DigitsValueOfNat(n);
    assert ("-" + body)[0] == '-';
    assert ("-" + body)[1..] == body;
  }

  function Render(ids: seq<int>): seq<string> {
    if ids == [] then [] else [IntToString(ids[0])] + Render(ids[1..])
  }

  /** The rendering of one id is a chunk that yields exactly that id. */
  lemma ChunkOfRendering(i: int)
    ensures var head := IntToString(i);
      ',' !in head && ';' !in head && ' ' !in head && AdminIds(head) == [i]
  {
    var head := IntToString(i);
    ParseIntOfRendering(i);
    assert ',' !in head && ';' !in head && ' ' !in head by {
      if i < 0 { assert head == "-" + NatToString(-i); }
    }
    assert Strip(head) == head by {
      assert head[0] == '-' || '0' <= head[0] <= '9';
      assert !IsSpace(head[0]) && !IsSpace(head[|head| - 1]);
      StripOfTrimmed(head);
    }
    AdminIdsChunk(head);
  }

  /** A comma-joined rendering of any id list parses back to that list. */
  lemma {:induction false} AdminIdsOfRendering(ids: seq<int>)
    ensures AdminIds(Join(Render(ids), [','])) == ids
    decreases |ids|
  {
    if ids == [] {
      assert Split(Normalize([]), ',') == [[]];
      assert ChunksIds([[]]) == ChunkIds([]) + ChunksIds([]);
    } else {
      var head := IntToString(ids[0]);
      ChunkOfRendering(ids[0]);
      if |ids| == 1 {
        assert Join(Render(ids), [',']) == head;
      } else {
        var rest := Join(Render(ids[1..]), [',']);
        assert Render(ids)[1..] == Render(ids[1..]);
        assert Join(Render(ids), [',']) == head + [','] + rest;
        AdminIdsAppend(head, ',', rest);
        AdminIdsOfRendering(ids[1..]);
      }
    }
  }

  /** `gateway_api_key`: `GATEWAY_API_KEY` when non-empty, else `API_KEY`,
      then stripped. */
  function GatewayApiKey(s: BotSettings): (key: string)
    ensures s.gatewayApiKey != [] ==> key == Strip(s.gatewayApiKey)
    ensures s.gatewayApiKey == [] ==> key == Strip(s.apiKey)
    ensures s.gatewayApiKey != [] && AllSpace(s.gatewayApiKey) ==> key == []
    ensures key == [] || (!IsSpace(key[0]) && !IsSpace(key[|key| - 1]))
  {
    var raw := if s.gatewayApiKey != [] then s.gatewayApiKey else s.apiKey;
    StripShape(raw);
    Strip(raw)
  }
}
