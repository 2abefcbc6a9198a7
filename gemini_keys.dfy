/** The Gemini account list kept as a JSON array in a file
    (`bot/gemini_manager.py`). The file's text is the state; JSON decoding
    and encoding and the fresh UUID are inputs. */
module GeminiKeys {
  import opened Wrappers
  import opened Strings
  import SsoKeys

  /** One account object; only its string fields are modelled. */
  type Account = map<string, string>

  /** `acc.get(field, default)`. */
  function Field(acc: Account, field: string, default: string): string {
    if field in acc then acc[field] else default
  }

  /** `json.loads` (a list of objects, or `None` for a parse failure or a
      non-list) and `json.dumps`, supplied by the caller. */
  datatype Json = Json(decode: string -> Option<seq<Account>>, encode: seq<Account> -> string)

  /** Encoding a list and decoding the text gives the list back. */
  ghost predicate RoundTrips(j: Json) {
    forall accounts :: j.decode(j.encode(accounts)) == Some(accounts)
  }

  /** What `list_accounts` returns for a text. */
  function Listed(j: Json, text: string): seq<Account> {
    j.decode(text).GetOr([])
  }

  /** The duplicate test: the first 30 characters of `secure_c_ses` agree. */
  predicate SamePrefix(acc: Account, ses: string) {
    Take(Field(acc, "secure_c_ses", ""), 30) == Take(ses, 30)
  }

  predicate HasDuplicate(accounts: seq<Account>, ses: string) {
    exists i :: 0 <= i < |accounts| && SamePrefix(accounts[i], ses)
  }

  /** No two accounts share a `secure_c_ses` prefix. */
  predicate DistinctPrefixes(accounts: seq<Account>) {
    forall i, j :: 0 <= i < j < |accounts| ==>
      Take(Field(accounts[i], "secure_c_ses", ""), 30) != Take(Field(accounts[j], "secure_c_ses", ""), 30)
  }

  /** The account `add_account` appends; an empty `config_id` takes the fresh
      UUID. */
  function NewAccount(ses: string, host: string, idx: string, configId: string, uuid: string): (acc: Account)
    ensures Field(acc, "secure_c_ses", "") == ses && Field(acc, "host_c_oses", "") == host
    ensures Field(acc, "csesidx", "") == idx
    ensures Field(acc, "config_id", "") == if configId != [] then configId else uuid
  {
    map["secure_c_ses" := ses, "host_c_oses" := host, "csesidx" := idx,
        "config_id" := if configId != [] then configId else uuid]
  }

  datatype AddOutcome =
    | Error(message: string)
    | Exists(message: string, beforeCount: int, afterCount: int)
    | Added(message: string, beforeCount: int, afterCount: int)

  /** `config_id` as the summary shows it: 8 characters and an ellipsis when
      longer. */
  function ShortConfig(cfg: string): (r: string)
    ensures |cfg| <= 8 ==> r == cfg
    ensures |cfg| > 8 ==> |r| == 9 && r[..8] == cfg[..8] && r[8] == '\U{2026}'
  {
    if |cfg| > 8 then cfg[..8] + "\U{2026}" else cfg
  }

  /** One summary line for the account numbered `idx`. */
  function SummaryLine(idx: nat, acc: Account): string {
    NatToString(idx) + ". " + SsoKeys.Mask(Field(acc, "secure_c_ses", "???"))
      + " (idx: " + Field(acc, "csesidx", "?") + ", cfg: " + ShortConfig(Field(acc, "config_id", "?")) + ")"
  }

  function SummaryFrom(accounts: seq<Account>, first: nat): (lines: seq<string>)
    ensures |lines| == |accounts|
  {
    Numbered(accounts, first, SummaryLine)
  }

  /** One line per element, made by `line` from its number (counting from
      `first`) and the element. */
  function Numbered<T>(xs: seq<T>, first: nat, line: (nat, T) -> string): (lines: seq<string>)
    ensures |lines| == |xs|
  {
    if xs == [] then []
    else
      var k := |xs| - 1;
      Numbered(xs[..k], first, line) + [line(first + k, xs[k])]
  }

  class Manager {
    /** The file's text, `None` while the file does not exist. */
    var file: Option<string>

    constructor (initial: Option<string>)
      ensures file == initial
    {
      file := initial;
    }

    /** The text `_ensure_file` leaves: `[]` is written if the file is missing. */
    function Text(): string
      reads this
    {
      file.GetOr("[]")
    }

    /** `list_accounts`: the decoded list, or empty when it does not decode
        to a list. */
    method ListAccounts(j: Json) returns (accounts: seq<Account>)
      modifies this
      ensures file == Some(old(Text()))
      ensures accounts == Listed(j, old(Text()))
      ensures j.decode(old(Text())).None? ==> accounts == []
    {
      if file.None? {
        file := Some("[]");
      }
      var decoded := j.decode(file.value);
      accounts := if decoded.Some? then decoded.value else [];
    }

    /** `add_account`. */
    method AddAccount(j: Json, ses: string, host: string, idx: string, configId: string, uuid: string)
      returns (outcome: AddOutcome)
      modifies this
      ensures ses == [] ==> outcome == Error("secure_c_ses kosong") && file == old(file)
      ensures ses != [] ==>
        var accounts := Listed(j, old(Text()));
        && (HasDuplicate(accounts, ses) ==>
              outcome == Exists("Account dengan secure_c_ses yang sama sudah ada", |accounts|, |accounts|)
              && file == Some(old(Text())))
        && (!HasDuplicate(accounts, ses) ==>
              outcome == Added("Gemini account ditambahkan", |accounts|, |accounts| + 1)
              && file == Some(j.encode(accounts + [NewAccount(ses, host, idx, configId, uuid)])))
    {
      if ses == [] {
        return Error("secure_c_ses kosong");
      }
      var accounts := ListAccounts(j);
      var before := |accounts|;
      var found := FindDuplicate(accounts, ses);
      if found {
        return Exists("Account dengan secure_c_ses yang sama sudah ada", before, before);
      }
      accounts := accounts + [NewAccount(ses, host, idx, configId, uuid)];
      file := Some(j.encode(accounts));
      outcome := Added("Gemini account ditambahkan", before, before + 1);
    }

    /** `remove_last_account`. */
    method RemoveLastAccount(j: Json) returns (reply: SsoKeys.Reply)
      modifies this
      ensures var accounts := Listed(j, old(Text()));
        && (accounts == [] ==>
              reply == SsoKeys.Reply(false, "Tidak ada account untuk dihapus") && file == Some(old(Text())))
        && (accounts != [] ==>
              var removed := accounts[|accounts| - 1];
              reply == SsoKeys.Reply(true, "Account terakhir dihapus ("
                                       + SsoKeys.Mask(Field(removed, "secure_c_ses", "")) + ")")
              && file == Some(j.encode(accounts[..|accounts| - 1])))
    {
      var accounts := ListAccounts(j);
      if accounts == [] {
        reply := SsoKeys.Reply(false, "Tidak ada account untuk dihapus");
      } else {
        var removed := accounts[|accounts| - 1];
        accounts := accounts[..|accounts| - 1];
        file := Some(j.encode(accounts));
        var preview := SsoKeys.Mask(Field(removed, "secure_c_ses", ""));
        reply := SsoKeys.Reply(true, "Account terakhir dihapus (" + preview + ")");
      }
    }

    /** `get_masked_summary`. */
    method GetMaskedSummary(j: Json) returns (result: seq<string>)
      modifies this
      ensures file == Some(old(Text()))
      ensures result == SummaryFrom(Listed(j, old(Text())), 1)
    {
      var accounts := ListAccounts(j);
      result := Summarize(accounts);
    }

    /** `get_config_json`: the text as stored, `[]` for a missing file. */
    function ConfigJson(): (text: string)
      reads this
      ensures file.None? ==> text == "[]"
      ensures file.Some? ==> text == file.value
    {
      Text()
    }
  }

  /** The duplicate scan of `add_account`. */
  method FindDuplicate(accounts: seq<Account>, ses: string) returns (found: bool)
    ensures found <==> HasDuplicate(accounts, ses)
  {
    var i := 0;
    while i < |accounts|
      invariant 0 <= i <= |accounts|
      invariant forall k :: 0 <= k < i ==> !SamePrefix(accounts[k], ses)
    {
      if SamePrefix(accounts[i], ses) {
        return true;
      }
      i := i + 1;
    }
    return false;
  }

  /** The numbering loop of `get_masked_summary`. */
  method Summarize(accounts: seq<Account>) returns (result: seq<string>)
    ensures result == SummaryFrom(accounts, 1)
  {
    result := [];
    var idx := 0;
    while idx < |accounts|
      invariant 0 <= idx <= |accounts|
      invariant result == SummaryFrom(accounts[..idx], 1)
    {
      assert accounts[..idx + 1][..idx] == accounts[..idx];
      result := result + [SummaryLine(idx + 1, accounts[idx])];
      idx := idx + 1;
    }
    assert accounts[..idx] == accounts;
  }

  /** The summary has one line per account, the i-th numbered i + 1. */
  lemma SummaryFromAt(accounts: seq<Account>, first: nat, i: nat)
    requires i < |accounts|
    ensures SummaryFrom(accounts, first)[i] == SummaryLine(first + i, accounts[i])
  {
    NumberedAt(accounts, first, SummaryLine, i);
  }

  lemma {:induction false} NumberedAt<T>(xs: seq<T>, first: nat, line: (nat, T) -> string, i: nat)
    requires i < |xs|
    ensures Numbered(xs, first, line)[i] == line(first + i, xs[i])
    decreases |xs|
  {
    var k := |xs| - 1;
    if i < k {
      assert xs[..k][i] == xs[i];
      NumberedAt(xs[..k], first, line, i);
    }
  }

  /** Adding only when no prefix matches keeps the prefixes distinct. */
  lemma AddKeepsPrefixesDistinct(accounts: seq<Account>, acc: Account, ses: string)
    requires DistinctPrefixes(accounts) && !HasDuplicate(accounts, ses)
    requires Field(acc, "secure_c_ses", "") == ses
    ensures DistinctPrefixes(accounts + [acc])
  {
    var all := accounts + [acc];
    forall i, k | 0 <= i < k < |all|
      ensures Take(Field(all[i], "secure_c_ses", ""), 30) != Take(Field(all[k], "secure_c_ses", ""), 30)
    {
      if k == |accounts| {
        assert all[i] == accounts[i];
        assert !SamePrefix(accounts[i], ses);
      } else {
        assert all[i] == accounts[i] && all[k] == accounts[k];
      }
    }
  }

  /** With a faithful codec, the text a successful add writes lists the
      new account: adding the same `secure_c_ses` again is refused as a
      duplicate, and removing the last account gives the old list back. */
  lemma AddThenListed(j: Json, accounts: seq<Account>, ses: string, host: string, idx: string,
                      configId: string, uuid: string)
    requires RoundTrips(j)
    ensures var listed := Listed(j, j.encode(accounts + [NewAccount(ses, host, idx, configId, uuid)]));
      && listed != []
      && HasDuplicate(listed, ses)
      && listed[..|listed| - 1] == accounts
  {
    var all := accounts + [NewAccount(ses, host, idx, configId, uuid)];
    assert j.decode(j.encode(all)) == Some(all);
    assert SamePrefix(all[|accounts|], ses);
    assert all[..|all| - 1] == accounts;
  }
}
