/** The bot's local key list (`bot/sso_manager.py`): one key per line of a
    text file. The file's text is the state; a missing file is `None`. */
module SsoKeys {
  import opened Wrappers
  import opened Strings

  /** The characters at which Python's `str.splitlines` breaks a line. */
  predicate LineBreak(c: char) {
    c == '\n' || c == '\r' || c == '\U{000B}' || c == '\U{000C}'
    || ('\U{001C}' <= c <= '\U{001E}') || c == '\U{0085}' || c == '\U{2028}' || c == '\U{2029}'
  }

  lemma LineBreakIsSpace(c: char)
    requires LineBreak(c)
    ensures IsSpace(c)
  {
  }

  predicate NoBreak(s: string) {
    forall i :: 0 <= i < |s| ==> !LineBreak(s[i])
  }

  function FirstBreak(s: string): (i: nat)
    requires !NoBreak(s)
    ensures i < |s| && LineBreak(s[i]) && NoBreak(s[..i])
  {
    if LineBreak(s[0]) then 0
    else
      var j := FirstBreak(s[1..]);
      assert s[..j + 1] == [s[0]] + s[1..][..j];
      j + 1
  }

  /** The text cut at every line break. It differs from `splitlines` only in
      blank pieces (a `\r\n` pair and a final break give an extra empty
      piece), which `list_keys` drops anyway. */
  function Lines(s: string): (parts: seq<string>)
    ensures |parts| >= 1
    decreases |s|
  {
    if NoBreak(s) then [s]
    else
      var i := FirstBreak(s);
      [s[..i]] + Lines(s[i + 1..])
  }

  lemma FirstBreakAt(a: string, c: char, b: string)
    requires NoBreak(a) && LineBreak(c)
    ensures !NoBreak(a + [c] + b) && FirstBreak(a + [c] + b) == |a|
    decreases |a|
  {
    var s := a + [c] + b;
    assert s[|a|] == c;
    if a != [] {
      assert s[1..] == a[1..] + [c] + b;
      FirstBreakAt(a[1..], c, b);
    }
  }

  lemma LinesFirst(a: string, c: char, b: string)
    requires NoBreak(a) && LineBreak(c)
    ensures Lines(a + [c] + b) == [a] + Lines(b)
  {
    var s := a + [c] + b;
    FirstBreakAt(a, c, b);
    assert s[..|a|] == a;
    assert s[|a| + 1..] == b;
  }

  /** A line break in the text is a boundary between pieces. */
  lemma {:induction false} LinesAppend(a: string, c: char, b: string)
    requires LineBreak(c)
    ensures Lines(a + [c] + b) == Lines(a) + Lines(b)
    decreases |a|
  {
    if NoBreak(a) {
      LinesFirst(a, c, b);
    } else {
      var i := FirstBreak(a);
      var a1, a2 := a[..i], a[i + 1..];
      assert a == a1 + [a[i]] + a2;
      assert a + [c] + b == a1 + [a[i]] + (a2 + [c] + b);
      LinesFirst(a1, a[i], a2 + [c] + b);
      LinesFirst(a1, a[i], a2);
      LinesAppend(a2, c, b);
      ConcatAssoc([a1], Lines(a2), Lines(b));
    }
  }

  /** The stripped, non-blank pieces, in order. */
  function KeepKeys(lines: seq<string>): seq<string> {
    if lines == [] then []
    else (if Strip(lines[0]) != [] then [Strip(lines[0])] else []) + KeepKeys(lines[1..])
  }

  /** A key as `list_keys` can return it. */
  predicate CleanKey(k: string) {
    k != [] && Strip(k) == k && NoBreak(k)
  }

  lemma {:induction false} KeepKeysAppend(a: seq<string>, b: seq<string>)
    ensures KeepKeys(a + b) == KeepKeys(a) + KeepKeys(b)
    decreases |a|
  {
    if a == [] {
      assert a + b == b;
    } else {
      assert (a + b)[1..] == a[1..] + b;
      KeepKeysAppend(a[1..], b);
    }
  }

  lemma StripClean(line: string)
    requires NoBreak(line) && Strip(line) != []
    ensures CleanKey(Strip(line))
  {
    var s := Strip(line);
    StripIdempotent(line);
    StripShape(line);
    forall i | 0 <= i < |s| ensures !LineBreak(s[i]) {
      assert s[i] in line;
    }
  }

  lemma {:induction false} KeepKeysClean(lines: seq<string>)
    requires forall i :: 0 <= i < |lines| ==> NoBreak(lines[i])
    ensures forall i :: 0 <= i < |KeepKeys(lines)| ==> CleanKey(KeepKeys(lines)[i])
    decreases |lines|
  {
    if lines != [] {
      var rest := KeepKeys(lines[1..]);
      KeepKeysClean(lines[1..]);
      if Strip(lines[0]) != [] {
        StripClean(lines[0]);
        var ks := KeepKeys(lines);
        assert ks == [Strip(lines[0])] + rest;
        forall i | 0 <= i < |ks| ensures CleanKey(ks[i]) {
          if i > 0 { assert ks[i] == rest[i - 1]; }
        }
      } else {
        assert KeepKeys(lines) == rest;
      }
    }
  }

  /** `list_keys` on the file's text. */
  function Keys(text: string): seq<string> {
    KeepKeys(Lines(text))
  }

  /** Every listed key is stripped, non-blank and a single line. */
  lemma KeysAreClean(text: string)
    ensures forall i :: 0 <= i < |Keys(text)| ==> CleanKey(Keys(text)[i])
  {
    LinesHaveNoBreak(text);
    KeepKeysClean(Lines(text));
  }

  /** No piece of the text contains a line break. */
  lemma {:induction false} LinesHaveNoBreak(s: string)
    ensures forall i :: 0 <= i < |Lines(s)| ==> NoBreak(Lines(s)[i])
    decreases |s|
  {
    if !NoBreak(s) {
      var i := FirstBreak(s);
      var rest := Lines(s[i + 1..]);
      LinesHaveNoBreak(s[i + 1..]);
      assert Lines(s) == [s[..i]] + rest;
      forall k | 0 <= k < |Lines(s)| ensures NoBreak(Lines(s)[k]) {
        if k > 0 { assert Lines(s)[k] == rest[k - 1]; }
      }
    }
  }

  /** The text `remove_last_key` writes for a key list: the keys joined by
      newlines, with a final newline unless there are none. */
  function Content(keys: seq<string>): (text: string)
    ensures keys == [] <==> text == []
    ensures text != [] ==> text[|text| - 1] == '\n'
  {
    if keys == [] then [] else Join(keys, "\n") + "\n"
  }

  lemma ContentCons(k: string, rest: seq<string>)
    ensures Content([k] + rest) == k + "\n" + Content(rest)
  {
    var ks := [k] + rest;
    if rest != [] {
      assert ks[1..] == rest;
      assert Join(ks, "\n") == k + "\n" + Join(rest, "\n");
    }
  }

  /** Writing a list of clean keys and listing them again gives the list
      back. */
  lemma {:induction false} KeysOfContent(keys: seq<string>)
    requires forall i :: 0 <= i < |keys| ==> CleanKey(keys[i])
    ensures Keys(Content(keys)) == keys
    decreases |keys|
  {
    if keys == [] {
      KeysEmpty();
    } else {
      var k, rest := keys[0], keys[1..];
      assert keys == [k] + rest;
      ContentCons(k, rest);
      assert k + "\n" + Content(rest) == k + ['\n'] + Content(rest);
      LinesAppend(k, '\n', Content(rest));
      assert Lines(k) == [k];
      KeepKeysAppend([k], Lines(Content(rest)));
      assert KeepKeys([k]) == [k] + KeepKeys([]);
      KeysOfContent(rest);
    }
  }

  lemma KeysEmpty()
    ensures Keys([]) == []
  {
    var e: string := [];
    assert NoBreak(e);
    assert Lines(e) == [e];
    assert AllSpace(e);
    assert Strip(e) == [];
    assert [e][1..] == [];
  }

  /** A line break in the text separates the keys before it from those after. */
  lemma KeysAppend(x: string, a: string, c: char, b: string)
    requires LineBreak(c) && x == a + [c] + b
    ensures Keys(x) == Keys(a) + Keys(b)
  {
    LinesAppend(a, c, b);
    KeepKeysAppend(Lines(a), Lines(b));
  }

  lemma KeysOfLine(line: string)
    requires NoBreak(line)
    ensures Keys(line) == if Strip(line) == [] then [] else [Strip(line)]
  {
    assert Lines(line) == [line];
    assert KeepKeys([line]) == (if Strip(line) != [] then [Strip(line)] else []) + KeepKeys([]);
  }

  lemma KeysOfKeyLine(key: string)
    requires CleanKey(key)
    ensures Keys(key + "\n") == [key]
  {
    var line := key + "\n";
    assert line == key + ['\n'] + [];
    KeysAppend(line, key, '\n', []);
    KeysOfLine(key);
    KeysEmpty();
  }

  /** Appending a clean key and a newline to a text that is empty or ends
      in a line break lists exactly one more key, at the end. */
  lemma KeysAfterAppend(text: string, key: string)
    requires text == [] || LineBreak(text[|text| - 1])
    requires CleanKey(key)
    ensures Keys(text + key + "\n") == Keys(text) + [key]
  {
    if text == [] {
      KeysOfKeyLine(key);
      EmptyPrefix(text, key);
      KeysEmpty();
    } else {
      KeysAfterBreakAppend(text, key);
    }
  }

  lemma KeysAfterBreakAppend(text: string, key: string)
    requires text != [] && LineBreak(text[|text| - 1])
    requires CleanKey(key)
    ensures Keys(text + key + "\n") == Keys(text) + [key]
  {
    var t0, c := text[..|text| - 1], text[|text| - 1];
    SplitLast(text, key + "\n");
    KeysAppend(text + key + "\n", t0, c, key + "\n");
    KeysDropBreak(text, t0, c);
    KeysOfKeyLine(key);
  }

  lemma EmptyPrefix(text: string, key: string)
    requires text == []
    ensures text + key + "\n" == key + "\n"
  {
  }

  lemma SplitLast(text: string, tail: string)
    requires text != []
    ensures text == text[..|text| - 1] + [text[|text| - 1]]
    ensures text + tail == text[..|text| - 1] + [text[|text| - 1]] + tail
  {
  }

  lemma KeysDropBreak(x: string, t0: string, c: char)
    requires LineBreak(c) && x == t0 + [c]
    ensures Keys(x) == Keys(t0)
  {
    assert x == t0 + [c] + [];
    KeysAppend(x, t0, c, []);
    KeysEmpty();
  }

  /** When the file does not end in a line break, the appended key is glued
      to the last one: listing then shows neither key on its own. */
  lemma AppendWithoutBreakMerges(last: string, key: string)
    requires CleanKey(last) && CleanKey(key)
    ensures Keys(last + key + "\n") == [last + key]
  {
    var merged := last + key;
    StripShape(last);
    StripShape(key);
    assert merged[0] == last[0] && merged[|merged| - 1] == key[|key| - 1];
    StripOfTrimmed(merged);
    assert NoBreak(merged) by {
      forall i | 0 <= i < |merged| ensures !LineBreak(merged[i]) {
        if i >= |last| { assert merged[i] == key[i - |last|]; }
      }
    }
    assert last + key + "\n" == merged + "\n";
    KeysOfKeyLine(merged);
  }

  /** The masked form of a secret: the first 3 characters and `***` for up
      to 12 characters, else the first 6, `...`, and the last 4. */
  function Mask(value: string): string {
    if |value| <= 12 then Take(value, 3) + "***"
    else value[..6] + "..." + value[|value| - 4..]
  }

  /** A mask shows at most 3 characters of a secret of up to 12, and only the
      first 6 and last 4 of a longer one, so never more than 10. */
  lemma MaskShape(value: string)
    ensures var m := Mask(value);
      && (|value| <= 12 ==> |m| == |Take(value, 3)| + 3 && m[..|Take(value, 3)|] <= value && m[|m| - 3..] == "***")
      && (|value| > 12 ==> |m| == 13 && m[..6] == value[..6] && m[6..9] == "..." && m[9..] == value[|value| - 4..])
  {
  }

  /** One line of `get_masked_summary`: `"{idx}. {masked}"`. */
  function SummaryLine(idx: nat, key: string): string {
    NatToString(idx) + ". " + Mask(key)
  }

  /** The summary lines of `keys`, numbered from `first`. */
  function SummaryFrom(keys: seq<string>, first: nat): (lines: seq<string>)
    ensures |lines| == |keys|
  {
    if keys == [] then [] else [SummaryLine(first, keys[0])] + SummaryFrom(keys[1..], first + 1)
  }

  datatype Reply = Reply(ok: bool, message: string)

  class Manager {
    /** The file's text, `None` while the file does not exist. */
    var file: Option<string>

    constructor (initial: Option<string>)
      ensures file == initial
    {
      file := initial;
    }

    /** The text `_ensure_file` leaves: an empty file is created if missing. */
    function Text(): string
      reads this
    {
      file.GetOr([])
    }

    /** `list_keys`: the stripped non-blank lines, in file order. */
    method ListKeys() returns (keys: seq<string>)
      modifies this
      ensures file == Some(old(Text()))
      ensures keys == Keys(old(Text()))
    {
      if file.None? {
        file := Some([]);
      }
      keys := Keys(file.value);
    }

    /** `add_key`. */
    method AddKey(rawKey: string) returns (reply: Reply)
      modifies this
      ensures var key := Strip(rawKey);
        && (key == [] ==> reply == Reply(false, "Key kosong") && file == old(file))
        && (key != [] && key in Keys(old(Text())) ==>
              reply == Reply(true, "Key sudah ada") && file == Some(old(Text())))
        && (key != [] && key !in Keys(old(Text())) ==>
              reply == Reply(true, "Key ditambahkan") && file == Some(old(Text()) + key + "\n"))
    {
      var key := Strip(rawKey);
      if key == [] {
        return Reply(false, "Key kosong");
      }
      var keys := ListKeys();
      if key in keys {
        return Reply(true, "Key sudah ada");
      }
      file := Some(file.value + key + "\n");
      reply := Reply(true, "Key ditambahkan");
    }

    /** `remove_last_key`. */
    method RemoveLastKey() returns (reply: Reply)
      modifies this
      ensures var keys := Keys(old(Text()));
        && (keys == [] ==> reply == Reply(false, "Tidak ada key untuk dihapus") && file == Some(old(Text())))
        && (keys != [] ==>
              reply.ok && file == Some(Content(keys[..|keys| - 1]))
              && reply.message == "Key terakhir dihapus (" + Mask(keys[|keys| - 1]) + ")")
    {
      ghost var text := Text();
      var keys := ListKeys();
      if keys == [] {
        reply := Reply(false, "Tidak ada key untuk dihapus");
      } else {
        var removed := keys[|keys| - 1];
        var rest := keys[..|keys| - 1];
        var content := Join(rest, "\n");
        if content != [] {
          content := content + "\n";
        }
        WrittenContent(text);
        file := Some(content);
        reply := Reply(true, "Key terakhir dihapus (" + Mask(removed) + ")");
      }
    }

    /** `get_masked_summary`. */
    method GetMaskedSummary() returns (result: seq<string>)
      modifies this
      ensures file == Some(old(Text()))
      ensures result == SummaryFrom(Keys(old(Text())), 1)
    {
      var keys := ListKeys();
      result := Summarize(keys);
    }
  }

  /** The numbering loop of `get_masked_summary`. */
  method Summarize(keys: seq<string>) returns (result: seq<string>)
    ensures result == SummaryFrom(keys, 1)
  {
    result := [];
    var idx := 0;
    while idx < |keys|
      invariant 0 <= idx <= |keys|
      invariant result == SummaryFrom(keys[..idx], 1)
    {
      assert keys[..idx + 1] == keys[..idx] + [keys[idx]];
      SummaryFromAppend(keys[..idx], [keys[idx]], 1);
      result := result + [SummaryLine(idx + 1, keys[idx])];
      idx := idx + 1;
    }
    assert keys[..idx] == keys;
  }

  /** What `remove_last_key` writes is the content of the remaining keys. */
  lemma WrittenContent(text: string)
    requires Keys(text) != []
    ensures var keys := Keys(text); var rest := keys[..|keys| - 1];
      (if Join(rest, "\n") != [] then Join(rest, "\n") + "\n" else Join(rest, "\n")) == Content(rest)
  {
    var keys := Keys(text);
    var rest := keys[..|keys| - 1];
    if rest != [] {
      KeysAreClean(text);
      assert CleanKey(rest[0]);
      CleanJoinNonEmpty(rest);
    }
  }

  lemma CleanJoinNonEmpty(keys: seq<string>)
    requires keys != [] && CleanKey(keys[0])
    ensures Join(keys, "\n") != []
  {
    if |keys| > 1 {
      assert |Join(keys, "\n")| >= |keys[0]|;
    }
  }

  lemma {:induction false} SummaryFromAppend(a: seq<string>, b: seq<string>, first: nat)
    ensures SummaryFrom(a + b, first) == SummaryFrom(a, first) + SummaryFrom(b, first + |a|)
    decreases |a|
  {
    if a == [] {
      assert a + b == b;
    } else {
      assert (a + b)[1..] == a[1..] + b;
      SummaryFromAppend(a[1..], b, first + 1);
    }
  }

  /** The summary has one line per key, the i-th numbered i + 1. */
  lemma {:induction false} SummaryFromAt(keys: seq<string>, first: nat, i: nat)
    requires i < |keys|
    ensures SummaryFrom(keys, first)[i] == SummaryLine(first + i, keys[i])
    decreases i
  {
    if i > 0 {
      SummaryFromAt(keys[1..], first + 1, i - 1);
    }
  }

  /** After a successful add, the list gains exactly the stripped key at the
      end (when the file was empty or ended in a line break). */
  lemma AddKeyAppends(text: string, rawKey: string)
    requires text == [] || LineBreak(text[|text| - 1])
    requires NoBreak(Strip(rawKey)) && Strip(rawKey) != []
    ensures Keys(text + Strip(rawKey) + "\n") == Keys(text) + [Strip(rawKey)]
  {
    StripIdempotent(rawKey);
    KeysAfterAppend(text, Strip(rawKey));
  }

  /** Removing the last key lists exactly the other keys, in order. */
  lemma RemoveLastKeyDropsLast(text: string)
    requires Keys(text) != []
    ensures var keys := Keys(text);
      Keys(Content(keys[..|keys| - 1])) == keys[..|keys| - 1]
  {
    KeysAreClean(text);
    KeysOfContent(Keys(text)[..|Keys(text)| - 1]);
  }
}
