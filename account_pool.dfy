/** The account pool (`MultiAccountManager` and `load_gemini_accounts` in
    `app/backends/gemini/account.py`): eligibility filtering, round-robin
    selection, the conversation-to-session cache with its size eviction and
    its TTL sweep, and loading the pool from its JSON configuration. Time,
    the random reseed and JSON decoding are inputs. */
module AccountPool {
  import opened Wrappers
  import opened Strings
  import opened AccountConfigs
  import opened Accounts

  /** What the pool needs to know of one account at one moment. */
  datatype AccountState = AccountState(disabled: bool, expiresAt: Option<string>, cooldowns: Cooldowns,
                                       stamps: map<string, int>)

  ghost function StateOf(a: AccountManager): AccountState
    reads a
  {
    AccountState(a.config.disabled, a.config.expiresAt, a.cooldowns, a.quotaCooldowns)
  }

  /** Not disabled and not expired: the checks made before the quotas. */
  predicate Usable(s: AccountState, parseExpiry: string -> Option<int>, now: int) {
    !s.disabled && !IsExpired(s.expiresAt, parseExpiry, now)
  }

  /** Whether `get_available_accounts` keeps an account. */
  predicate Passes(s: AccountState, types: Option<seq<string>>, now: int, parseExpiry: string -> Option<int>) {
    Usable(s, parseExpiry, now) && QuotasCheck(s.stamps, s.cooldowns, types, now).0
  }

  /** The positions, in pool order, of the accounts `get_available_accounts`
      returns. */
  function Chosen(states: seq<AccountState>, types: Option<seq<string>>, now: int,
                  parseExpiry: string -> Option<int>): (idx: seq<int>)
    ensures forall i :: 0 <= i < |idx| ==> 0 <= idx[i]
    ensures forall i :: 0 <= i < |idx| ==> idx[i] < |states|
  {
    if states == [] then []
    else
      var init := Chosen(states[..|states| - 1], types, now, parseExpiry);
      if Passes(states[|states| - 1], types, now, parseExpiry) then init + [|states| - 1] else init
  }

  lemma ChosenSnoc(states: seq<AccountState>, k: nat, types: Option<seq<string>>, now: int,
                   parseExpiry: string -> Option<int>)
    requires k < |states|
    ensures Chosen(states[..k + 1], types, now, parseExpiry) ==
      Chosen(states[..k], types, now, parseExpiry) + if Passes(states[k], types, now, parseExpiry) then [k] else []
  {
    assert states[..k + 1][..k] == states[..k];
  }

  /** The elements of `ms` at the positions `idx`. */
  function Pick<T>(ms: seq<T>, idx: seq<int>): (picked: seq<T>)
    requires forall i :: 0 <= i < |idx| ==> 0 <= idx[i] < |ms|
    ensures |picked| == |idx| && forall i :: 0 <= i < |idx| ==> picked[i] == ms[idx[i]]
  {
    seq(|idx|, i requires 0 <= i < |idx| => ms[idx[i]])
  }

  /** An account's stamps after `get_available_accounts`: only usable
      accounts are checked, and only their stale stamps are cleared. */
  function StampsAfterScan(s: AccountState, types: Option<seq<string>>, now: int,
                           parseExpiry: string -> Option<int>): map<string, int> {
    if Usable(s, parseExpiry, now) then QuotasCheck(s.stamps, s.cooldowns, types, now).1 else s.stamps
  }

  /** `get_available_accounts` never returns a disabled, expired or blocked
      account, returns every other one, and keeps the pool order. */
  lemma {:induction false} ChosenMeaning(states: seq<AccountState>, types: Option<seq<string>>, now: int,
                                         parseExpiry: string -> Option<int>)
    ensures var idx := Chosen(states, types, now, parseExpiry);
      && (forall j :: j in idx <==> 0 <= j < |states| && Passes(states[j], types, now, parseExpiry))
      && (forall i1, i2 :: 0 <= i1 < i2 < |idx| ==> idx[i1] < idx[i2])
    decreases |states|
  {
    if states != [] {
      var init := states[..|states| - 1];
      ChosenMeaning(init, types, now, parseExpiry);
      assert forall j :: 0 <= j < |init| ==> init[j] == states[j];
    }
  }

  /** In particular an available account has no blocking stamp for text
      (when any type is requested) nor for any requested type. */
  lemma AvailableIsUnblocked(states: seq<AccountState>, types: Option<seq<string>>, now: int,
                             parseExpiry: string -> Option<int>, j: nat)
    requires j in Chosen(states, types, now, parseExpiry)
    ensures j < |states| && !states[j].disabled && !IsExpired(states[j].expiresAt, parseExpiry, now)
    ensures types.Some? && types.value != [] ==>
      !Blocked(states[j].stamps, states[j].cooldowns, "text", now)
      && forall k :: 0 <= k < |types.value| ==> !Blocked(states[j].stamps, states[j].cooldowns, types.value[k], now)
  {
    ChosenMeaning(states, types, now, parseExpiry);
    QuotasCheckMeaning(states[j].stamps, states[j].cooldowns, types, now);
  }

  /** One account of the `get_available_accounts` scan: disabled and
      expired accounts are skipped before their quotas are checked. */
  method ScanAccount(acc: AccountManager, ghost s: AccountState, types: Option<seq<string>>, now: int,
                     parseExpiry: string -> Option<int>) returns (ok: bool)
    requires StateOf(acc) == s
    modifies acc`quotaCooldowns
    ensures ok == Passes(s, types, now, parseExpiry)
    ensures acc.quotaCooldowns == StampsAfterScan(s, types, now, parseExpiry)
  {
    if acc.config.disabled || IsExpired(acc.config.expiresAt, parseExpiry, now) {
      return false;
    }
    ok := acc.AreQuotasAvailable(types, now);
  }

  /** The accounts as values, in pool order. */
  ghost function States(ms: seq<AccountManager>): (states: seq<AccountState>)
    reads ms
    ensures |states| == |ms| && forall j :: 0 <= j < |ms| ==> states[j] == StateOf(ms[j])
  {
    if ms == [] then [] else States(ms[..|ms| - 1]) + [StateOf(ms[|ms| - 1])]
  }

  /** After a scan, each manager holds the quota stamps the scan leaves
      for its state. */
  ghost predicate Stamped(ms: seq<AccountManager>, states: seq<AccountState>, types: Option<seq<string>>,
                          now: int, parseExpiry: string -> Option<int>)
    reads (set m | m in ms)`quotaCooldowns
  {
    |states| == |ms| && forall j :: 0 <= j < |ms| ==> ms[j].quotaCooldowns == StampsAfterScan(states[j], types, now, parseExpiry)
  }

  /** The loop of `get_available_accounts` over the managers in pool
      order. */
  method ScanAll(accs: seq<AccountManager>, ghost states: seq<AccountState>, types: Option<seq<string>>,
                 now: int, parseExpiry: string -> Option<int>) returns (available: seq<AccountManager>)
    requires forall i, j :: 0 <= i < j < |accs| ==> accs[i] != accs[j]
    requires |states| == |accs| && forall j :: 0 <= j < |accs| ==> StateOf(accs[j]) == states[j]
    modifies (set a | a in accs)`quotaCooldowns
    ensures available == Pick(accs, Chosen(states, types, now, parseExpiry))
    ensures forall i :: 0 <= i < |accs| ==> accs[i].quotaCooldowns == StampsAfterScan(states[i], types, now, parseExpiry)
    ensures forall a :: a in available ==> a in accs
  {
    available := [];
    ghost var idx: seq<int> := [];
    var k := 0;
    while k < |accs|
      invariant 0 <= k <= |accs|
      invariant idx == Chosen(states[..k], types, now, parseExpiry)
      invariant available == Pick(accs, idx)
      invariant forall j :: 0 <= j < k ==> accs[j].quotaCooldowns == StampsAfterScan(states[j], types, now, parseExpiry)
      invariant forall j :: k <= j < |accs| ==> StateOf(accs[j]) == states[j]
    {
      ChosenSnoc(states, k, types, now, parseExpiry);
      var ok := ScanAccount(accs[k], states[k], types, now, parseExpiry);
      if ok {
        PickSnoc(accs, idx, k);
        available := available + [accs[k]];
        idx := idx + [k];
      }
      k := k + 1;
    }
    assert states[..k] == states;
  }

  lemma PickSnoc<T>(ms: seq<T>, idx: seq<int>, k: int)
    requires 0 <= k < |ms| && forall i :: 0 <= i < |idx| ==> 0 <= idx[i] < |ms|
    ensures Pick(ms, idx + [k]) == Pick(ms, idx) + [ms[k]]
  {
  }

  /** The index the round robin picks with counter `c + k` among `n`
      accounts. */
  function Slot(c: int, k: int, n: int): int
    requires n > 0
  {
    (c + k) % n
  }

  /** The counter step of `get_account` (the part under the counter lock)
      among `n` eligible accounts: the counter is reseeded with `seed` when
      `n` is not the last count; the result is the index picked, the
      counter after it and the new count. */
  function CounterStep(n: int, last: int, counter: int, seed: int): (r: (int, int, int))
    requires n > 0
    ensures 0 <= r.0 < n && r.2 == n
    ensures var c := if n != last then seed else counter; r.0 == Slot(c, 0, n) && r.1 == c + 1
  {
    var c := if n != last then seed else counter;
    (Slot(c, 0, n), c + 1, n)
  }

  /** One round-robin selection among the eligible accounts `e`: an error
      when there are none (the counters untouched), otherwise the account
      at the counter's index, with the counter and count after it. */
  function RoundRobinStep<T>(e: seq<T>, last: int, counter: int, seed: int): (Result<T, string>, int, int)
  {
    if e == [] then (Err("No available Gemini accounts"), counter, last)
    else
      var step := CounterStep(|e|, last, counter, seed);
      (Ok(e[step.0]), step.1, step.2)
  }

  /** The indices picked by `n` consecutive selections from counter `c`. */
  function Picks(c: int, n: int): set<int>
    requires n > 0
  {
    set k | 0 <= k < n :: Slot(c, k, n)
  }

  /** The round robin: from any counter, `n` consecutive selections over an
      unchanged list of `n` accounts pick every index exactly once. */
  lemma RoundRobin(c: nat, n: nat)
    requires n > 0
    ensures forall k1, k2 :: 0 <= k1 < k2 < n ==> Slot(c, k1, n) != Slot(c, k2, n)
    ensures forall i :: 0 <= i < n ==> i in Picks(c, n)
  {
    forall k1, k2 | 0 <= k1 < k2 < n
      ensures Slot(c, k1, n) != Slot(c, k2, n)
    {
      ModStep(c + k1, k2 - k1, n);
      assert c + k2 == c + k1 + (k2 - k1);
    }
    forall i | 0 <= i < n
      ensures i in Picks(c, n)
    {
      var r := c % n;
      var k := if i >= r then i - r else i - r + n;
      ModStep(c, k, n);
      assert Slot(c, k, n) == i;
    }
  }

  /** Moving `d` (less than `n`) steps from `x` moves the index by `d`,
      wrapping round once at most. */
  lemma ModStep(x: int, d: int, n: int)
    requires n > 0 && 0 <= d < n
    ensures (x + d) % n == if x % n + d < n then x % n + d else x % n + d - n
  {
    var q, r := x / n, x % n;
    assert x == q * n + r;
    if r + d < n {
      ModUnique(x + d, q, r + d, n);
    } else {
      assert x + d == (q + 1) * n + (r + d - n);
      ModUnique(x + d, q + 1, r + d - n, n);
    }
  }

  /** Euclidean division is unique. */
  lemma ModUnique(x: int, q: int, i: int, n: int)
    requires n > 0 && 0 <= i < n && x == q * n + i
    ensures x % n == i
  {
    var p, r := x / n, x % n;
    assert x == p * n + r;
    Distribute(q, p, n);
    if q > p {
      AtLeastOnce(q - p, n);
    } else if q < p {
      AtLeastOnce(p - q, n);
      Distribute(p, q, n);
    }
  }

  lemma Distribute(a: int, b: int, n: int)
    ensures (a - b) * n == a * n - b * n
  {
  }

  lemma {:induction false} AtLeastOnce(a: int, n: int)
    requires a >= 1 && n >= 0
    ensures a * n >= n
    decreases a
  {
    if a > 1 {
      AtLeastOnce(a - 1, n);
      assert a * n == (a - 1) * n + n;
    }
  }

  /** One entry of the conversation cache. */
  datatype CacheEntry = CacheEntry(accountId: string, sessionId: string, updatedAt: int)

  /** The size the eviction shrinks the cache to, `int(cache_max_size * 0.8)`. */
  function EvictTarget(max: nat): (target: nat)
    ensures 10 * target <= 8 * max < 10 * target + 10
    ensures max > 0 ==> target < max
  {
    max * 8 / 10
  }

  /** Every entry dropped from `before` is at least as old as every entry
      kept in `after`. */
  predicate DroppedOldest(before: map<string, CacheEntry>, after: map<string, CacheEntry>) {
    forall g, k :: g in before && g !in after && k in after ==> before[g].updatedAt <= after[k].updatedAt
  }

  /** Every non-empty cache has an oldest entry. */
  lemma OldestExists(m: map<string, CacheEntry>)
    requires m != map[]
    ensures exists k :: k in m && forall j :: j in m ==> m[k].updatedAt <= m[j].updatedAt
  {
    var k0 :| k0 in m;
    var k := OldestAmong(m, m.Keys);
  }

  /** An oldest entry among the keys `s`, by induction on `s`. */
  lemma {:induction false} OldestAmong(m: map<string, CacheEntry>, s: set<string>) returns (k: string)
    requires s != {} && s <= m.Keys
    ensures k in s && forall j :: j in s ==> m[k].updatedAt <= m[j].updatedAt
    decreases s
  {
    var k0 :| k0 in s;
    if s == {k0} {
      k := k0;
    } else {
      var k1 := OldestAmong(m, s - {k0});
      k := if m[k0].updatedAt < m[k1].updatedAt then k0 else k1;
    }
  }

  lemma RemoveOne(m: map<string, CacheEntry>, k: string)
    requires k in m
    ensures |m - {k}| == |m| - 1
  {
    assert (m - {k}).Keys == m.Keys - {k};
  }

  /** `load_gemini_accounts` reads each list element's string fields and
      its `disabled` flag (false when absent). */
  datatype Entry = Entry(fields: map<string, string>, disabled: bool)

  predicate Complete(e: Entry) {
    "secure_c_ses" in e.fields && "csesidx" in e.fields && "config_id" in e.fields
  }

  function Opt(fields: map<string, string>, key: string): Option<string> {
    if key in fields then Some(fields[key]) else None
  }

  /** The configuration built for the `i`-th element (counting from 1). */
  function ConfigOf(e: Entry, i: nat): (v: ConfigValue)
    requires Complete(e)
  {
    ConfigValue(
      if "id" in e.fields then e.fields["id"] else "gemini_" + NatToString(i),
      e.fields["secure_c_ses"], Opt(e.fields, "host_c_oses"), e.fields["csesidx"],
      e.fields["config_id"], Opt(e.fields, "expires_at"), e.disabled, 0)
  }

  /** The configurations added, in order: incomplete elements are skipped,
      but still count for the numbering; expired ones are kept. */
  function Loaded(entries: seq<Entry>): (configs: seq<ConfigValue>)
    ensures |configs| <= |entries|
  {
    if entries == [] then []
    else
      var init := Loaded(entries[..|entries| - 1]);
      var e := entries[|entries| - 1];
      if Complete(e) then init + [ConfigOf(e, |entries|)] else init
  }

  function Ids(configs: seq<ConfigValue>): (ids: seq<string>)
    ensures |ids| == |configs| && forall i :: 0 <= i < |configs| ==> ids[i] == configs[i].accountId
  {
    if configs == [] then [] else Ids(configs[..|configs| - 1]) + [configs[|configs| - 1].accountId]
  }

  /** The configuration the pool keeps under `id`: the last one added with
      that id replaces the earlier ones. */
  function LastWith(configs: seq<ConfigValue>, id: string): ConfigValue
    requires id in Ids(configs)
  {
    var last := configs[|configs| - 1];
    if last.accountId == id then last
    else
      assert Ids(configs) == Ids(configs[..|configs| - 1]) + [last.accountId];
      LastWith(configs[..|configs| - 1], id)
  }

  /** Every complete element becomes an account, numbered by its place in
      the list when it has no `id`. */
  lemma LoadedMeaning(entries: seq<Entry>)
    ensures forall i :: 0 <= i < |entries| && Complete(entries[i]) ==> ConfigOf(entries[i], i + 1) in Loaded(entries)
    ensures forall c :: c in Loaded(entries) ==> LoadedFrom(entries, c)
  {
    LoadedComplete(entries);
    LoadedSound(entries);
  }

  /** `c` is the account made of some complete element. */
  predicate LoadedFrom(entries: seq<Entry>, c: ConfigValue) {
    exists i :: 0 <= i < |entries| && Complete(entries[i]) && c == ConfigOf(entries[i], i + 1)
  }

  lemma LoadedComplete(entries: seq<Entry>)
    ensures forall i :: 0 <= i < |entries| && Complete(entries[i]) ==> ConfigOf(entries[i], i + 1) in Loaded(entries)
  {
    forall i | 0 <= i < |entries| && Complete(entries[i])
      ensures ConfigOf(entries[i], i + 1) in Loaded(entries)
    {
      LoadedHas(entries, i);
    }
  }

  /** The `i`-th element's account is among those loaded from any list
      that extends past it. */
  lemma {:induction false} LoadedHas(entries: seq<Entry>, i: nat)
    requires i < |entries| && Complete(entries[i])
    ensures ConfigOf(entries[i], i + 1) in Loaded(entries)
    decreases |entries|, 1
  {
    if i < |entries| - 1 {
      LoadedHasEarlier(entries, i);
    } else {
      LoadedSnoc(entries, i);
      assert entries[..i + 1] == entries;
      InTail(ConfigOf(entries[i], i + 1), Loaded(entries[..i]));
    }
  }

  /** An element before the last one: the last one only adds at the end. */
  lemma {:induction false} LoadedHasEarlier(entries: seq<Entry>, i: nat)
    requires i < |entries| - 1 && Complete(entries[i])
    ensures ConfigOf(entries[i], i + 1) in Loaded(entries)
    decreases |entries|, 0
  {
    var k := |entries| - 1;
    var init := entries[..k];
    LoadedSnoc(entries, k);
    assert entries[..k + 1] == entries;
    assert init[i] == entries[i];
    LoadedHas(init, i);
    InAppend(ConfigOf(entries[i], i + 1), Loaded(init),
             if Complete(entries[k]) then [ConfigOf(entries[k], k + 1)] else []);
  }

  lemma InTail<T>(x: T, a: seq<T>)
    ensures x in a + [x]
  {
    assert (a + [x])[|a|] == x;
  }

  lemma InAppend<T>(x: T, a: seq<T>, b: seq<T>)
    requires x in a
    ensures x in a + b
  {
  }

  lemma {:induction false} LoadedSound(entries: seq<Entry>)
    ensures forall c :: c in Loaded(entries) ==> LoadedFrom(entries, c)
    decreases |entries|
  {
    if entries != [] {
      var init := entries[..|entries| - 1];
      LoadedSound(init);
      forall c | c in Loaded(entries)
        ensures LoadedFrom(entries, c)
      {
        if c in Loaded(init) {
          var i :| 0 <= i < |init| && Complete(init[i]) && c == ConfigOf(init[i], i + 1);
          assert init[i] == entries[i];
        } else {
          assert c == ConfigOf(entries[|entries| - 1], |entries|);
        }
      }
    }
  }

  class MultiAccountManager {
    var accounts: map<string, AccountManager>
    /** The dictionary's key order: first-insertion order of the ids. */
    var order: seq<string>
    var accountList: seq<string>
    var requestCounter: int
    var lastAccountCount: int
    var cache: map<string, CacheEntry>
    const cacheMaxSize: nat
    const cacheTtl: int

    /** The key order lists every account once, distinct keys hold
        distinct managers, and the counter is never negative. */
    ghost predicate Valid()
      reads this
    {
      && (forall id :: id in order <==> id in accounts)
      && (forall i, j :: 0 <= i < j < |order| ==> order[i] != order[j] && accounts[order[i]] != accounts[order[j]])
      && requestCounter >= 0
    }

    /** The managers in pool order. */
    function Managers(ids: seq<string>): (ms: seq<AccountManager>)
      requires forall id :: id in ids ==> id in accounts
      reads this`accounts
      ensures |ms| == |ids| && forall j :: 0 <= j < |ids| ==> ms[j] == accounts[ids[j]]
      ensures forall m :: m in ms ==> m in accounts.Values
    {
      if ids == [] then [] else Managers(ids[..|ids| - 1]) + [accounts[ids[|ids| - 1]]]
    }

    /** The managers `get_available_accounts` would return now, in pool
        order. */
    ghost function Eligible(types: Option<seq<string>>, now: int, parseExpiry: string -> Option<int>): seq<AccountManager>
      requires Valid()
      reads this, accounts.Values
    {
      var ms := Managers(order);
      Pick(ms, Chosen(States(ms), types, now, parseExpiry))
    }

    constructor (ttl: int)
      ensures Valid() && accounts == map[] && order == [] && accountList == []
      ensures requestCounter == 0 && lastAccountCount == 0 && cache == map[]
      ensures cacheMaxSize == 1000 && cacheTtl == ttl
    {
      accounts, order, accountList := map[], [], [];
      requestCounter, lastAccountCount := 0, 0;
      cache := map[];
      cacheMaxSize := 1000;
      cacheTtl := ttl;
    }

    /** `add_account`: a new manager under the config's id (replacing any
        earlier one there); the id list grows even for a repeated id. */
    method AddAccount(config: AccountConfig, cooldowns: Cooldowns)
      requires Valid()
      modifies this
      ensures Valid()
      ensures config.accountId in accounts && fresh(accounts[config.accountId])
      ensures accounts[config.accountId].config == config && accounts[config.accountId].cooldowns == cooldowns
      ensures accounts[config.accountId].quotaCooldowns == map[]
      ensures accounts == old(accounts)[config.accountId := accounts[config.accountId]]
      ensures order == if config.accountId in old(order) then old(order) else old(order) + [config.accountId]
      ensures accountList == old(accountList) + [config.accountId]
      ensures requestCounter == old(requestCounter) && lastAccountCount == old(lastAccountCount)
      ensures cache == old(cache)
    {
      var m := new AccountManager(config, cooldowns);
      accounts := accounts[config.accountId := m];
      if config.accountId !in order {
        order := order + [config.accountId];
      }
      accountList := accountList + [config.accountId];
    }

    /** `get_available_accounts`. */
    method GetAvailableAccounts(types: Option<seq<string>>, now: int, parseExpiry: string -> Option<int>)
      returns (available: seq<AccountManager>, ghost ms: seq<AccountManager>, ghost states: seq<AccountState>)
      requires Valid()
      modifies accounts.Values`quotaCooldowns
      ensures Valid()
      ensures available == old(Eligible(types, now, parseExpiry))
      ensures ms == old(Managers(order)) && states == old(States(Managers(order)))
      ensures Stamped(ms, states, types, now, parseExpiry)
      ensures forall a :: a in available ==> a in accounts.Values
    {
      var accs := Managers(order);
      ms, states := accs, States(accs);
      available := ScanAll(accs, states, types, now, parseExpiry);
    }

    /** `get_account` with a non-empty id: that account if it exists and
        its quotas are available; it is not checked for being disabled or
        expired. */
    method NamedAccount(id: string, types: Option<seq<string>>, now: int)
      returns (r: Result<AccountManager, string>)
      requires id in accounts
      modifies {accounts[id]}`quotaCooldowns
      ensures var acc := accounts[id];
        && (acc.quotaCooldowns, r.Ok?) == (QuotasCheck(old(acc.quotaCooldowns), acc.cooldowns, types, now).1,
                                           QuotasCheck(old(acc.quotaCooldowns), acc.cooldowns, types, now).0)
        && (r.Ok? ==> r.value == acc)
        && (r.Err? ==> r == Err("Account " + id + " quota unavailable"))
    {
      var account := accounts[id];
      var ok := account.AreQuotasAvailable(types, now);
      if !ok {
        return Err("Account " + id + " quota unavailable");
      }
      return Ok(account);
    }

    /** The counter step of `get_account` on the manager's counters. */
    method NextIndex(n: int, seed: int) returns (index: int)
      requires n > 0 && 0 <= seed <= 999999 && Valid()
      modifies this`requestCounter, this`lastAccountCount
      ensures Valid()
      ensures (index, requestCounter, lastAccountCount) == CounterStep(n, old(lastAccountCount), old(requestCounter), seed)
    {
      if n != lastAccountCount {
        requestCounter := seed;
        lastAccountCount := n;
      }
      index := requestCounter % n;
      requestCounter := requestCounter + 1;
    }

    /** The selection half of `get_account` without an id: the scan, then
        the round-robin step over the eligible accounts. */
    method SelectPooled(types: Option<seq<string>>, now: int, parseExpiry: string -> Option<int>, seed: int)
      returns (r: Result<AccountManager, string>, ghost ms: seq<AccountManager>, ghost states: seq<AccountState>)
      requires Valid() && 0 <= seed <= 999999
      modifies this`requestCounter, this`lastAccountCount, accounts.Values`quotaCooldowns
      ensures Valid()
      ensures (r, requestCounter, lastAccountCount)
           == RoundRobinStep(old(Eligible(types, now, parseExpiry)), old(lastAccountCount), old(requestCounter), seed)
      ensures ms == old(Managers(order)) && states == old(States(Managers(order)))
      ensures Stamped(ms, states, types, now, parseExpiry)
    {
      ghost var e, last, counter := Eligible(types, now, parseExpiry), lastAccountCount, requestCounter;
      var available;
      available, ms, states := GetAvailableAccounts(types, now, parseExpiry);
      assert available == e;
      if |available| == 0 {
        return Err("No available Gemini accounts"), ms, states;
      }
      var index := NextIndex(|available|, seed);
      r := Ok(available[index]);
      assert (r, requestCounter, lastAccountCount) == RoundRobinStep(e, last, counter, seed);
    }

    /** `get_account` without an id: the next eligible account in
        round-robin order; the counter is reseeded with `seed`
        (`random.randint(0, 999999)`) whenever the number of eligible
        accounts changed. The scan stamps every account's quotas, and the
        chosen account's usage count goes up. */
    method PooledAccount(types: Option<seq<string>>, now: int, parseExpiry: string -> Option<int>, seed: int)
      returns (r: Result<AccountManager, string>)
      requires Valid() && 0 <= seed <= 999999
      modifies this`requestCounter, this`lastAccountCount, accounts.Values`quotaCooldowns,
               accounts.Values`sessionUsageCount
      ensures Valid()
      ensures (r, requestCounter, lastAccountCount)
           == RoundRobinStep(old(Eligible(types, now, parseExpiry)), old(lastAccountCount), old(requestCounter), seed)
      ensures Stamped(old(Managers(order)), old(States(Managers(order))), types, now, parseExpiry)
      ensures r.Ok? ==> r.value.sessionUsageCount == old(r.value.sessionUsageCount) + 1
    {
      ghost var ms, states;
      r, ms, states := SelectPooled(types, now, parseExpiry, seed);
      if r.Ok? {
        UseAccount(r.value);
      }
    }

    /** The `session_usage_count += 1` of the chosen account. */
    static method UseAccount(m: AccountManager)
      modifies m`sessionUsageCount
      ensures m.sessionUsageCount == old(m.sessionUsageCount) + 1
    {
      m.sessionUsageCount := m.sessionUsageCount + 1;
    }

    /** `get_account`: `NamedAccount` for a non-empty id that exists,
        `PooledAccount` without one. */
    method GetAccount(accountId: Option<string>, types: Option<seq<string>>, now: int,
                      parseExpiry: string -> Option<int>, seed: int)
      returns (r: Result<AccountManager, string>)
      requires Valid() && 0 <= seed <= 999999
      modifies this`requestCounter, this`lastAccountCount, accounts.Values`quotaCooldowns,
               accounts.Values`sessionUsageCount
      ensures Valid()
      ensures accountId.Some? && accountId.value != [] ==>
        var id := accountId.value;
        && (id !in accounts ==> r == Err("Account " + id + " not found"))
        && (id in accounts ==>
              && (r.Ok? <==> QuotasCheck(old(accounts[id].quotaCooldowns), accounts[id].cooldowns, types, now).0)
              && (r.Ok? ==> r.value == accounts[id])
              && (r.Err? ==> r == Err("Account " + id + " quota unavailable")))
        && requestCounter == old(requestCounter) && lastAccountCount == old(lastAccountCount)
      ensures accountId.Some? && accountId.value != [] ==>
        var id := accountId.value;
        && (forall m :: m in accounts.Values && (id !in accounts || m != accounts[id]) ==> unchanged(m))
        && (id in accounts ==> accounts[id].sessionUsageCount == old(accounts[id].sessionUsageCount))
      ensures !(accountId.Some? && accountId.value != []) ==>
        (r, requestCounter, lastAccountCount)
          == RoundRobinStep(old(Eligible(types, now, parseExpiry)), old(lastAccountCount), old(requestCounter), seed)
      ensures !(accountId.Some? && accountId.value != []) ==>
        Stamped(old(Managers(order)), old(States(Managers(order))), types, now, parseExpiry)
      ensures !(accountId.Some? && accountId.value != []) ==>
        var ms := old(Managers(order));
        forall j :: 0 <= j < |ms| && r == Ok(ms[j]) ==> ms[j].sessionUsageCount == old(ms[j].sessionUsageCount) + 1
    {
      if accountId.Some? && accountId.value != [] {
        var id := accountId.value;
        if id !in accounts {
          return Err("Account " + id + " not found");
        }
        r := NamedAccount(id, types, now);
        return;
      }
      r := PooledAccount(types, now, parseExpiry, seed);
    }

    /** `set_session_cache`: the key maps to the account, the session and
        `now`; past `cacheMaxSize` entries, the oldest are dropped until
        `int(0.8 * cacheMaxSize)` remain. */
    method SetSessionCache(key: string, accountId: string, sessionId: string, now: int)
      modifies this`cache
      ensures var added := old(cache)[key := CacheEntry(accountId, sessionId, now)];
        && (|added| <= cacheMaxSize ==> cache == added)
        && (|added| > cacheMaxSize ==>
              && |cache| == EvictTarget(cacheMaxSize)
              && (forall k :: k in cache ==> k in added && cache[k] == added[k])
              && DroppedOldest(added, cache))
    {
      cache := cache[key := CacheEntry(accountId, sessionId, now)];
      if |cache| > cacheMaxSize {
        cache := Evict(cache, EvictTarget(cacheMaxSize));
      }
    }

    /** `update_session_time`: only a key already cached is touched. */
    method UpdateSessionTime(key: string, now: int)
      modifies this`cache
      ensures key in old(cache) ==> cache == old(cache)[key := old(cache)[key].(updatedAt := now)]
      ensures key !in old(cache) ==> cache == old(cache)
    {
      if key in cache {
        cache := cache[key := cache[key].(updatedAt := now)];
      }
    }

    /** The body of the background cleanup: exactly the entries older than
        the TTL are removed. */
    method Sweep(now: int) returns (removed: nat)
      modifies this`cache
      ensures cache == map k | k in old(cache) && now - old(cache)[k].updatedAt <= cacheTtl :: old(cache)[k]
      ensures removed == |old(cache)| - |cache|
    {
      var expired := set k | k in cache && now - cache[k].updatedAt > cacheTtl;
      ghost var before := cache;
      removed := 0;
      while expired != {}
        invariant expired <= cache.Keys
        invariant forall k :: k in cache ==> k in before && cache[k] == before[k]
        invariant forall k :: k in before ==> (k in cache <==> (k in expired || now - before[k].updatedAt <= cacheTtl))
        invariant forall k :: k in expired ==> now - before[k].updatedAt > cacheTtl
        invariant removed == |before| - |cache|
        decreases expired
      {
        var k :| k in expired;
        RemoveOne(cache, k);
        cache := cache - {k};
        expired := expired - {k};
        removed := removed + 1;
      }
    }
  }

  /** The eviction loop: the oldest entry goes first, until `target`
      remain. */
  method Evict(m: map<string, CacheEntry>, target: nat) returns (r: map<string, CacheEntry>)
    requires target <= |m|
    ensures |r| == target
    ensures forall k :: k in r ==> k in m && r[k] == m[k]
    ensures DroppedOldest(m, r)
  {
    r := m;
    while |r| > target
      invariant target <= |r|
      invariant forall k :: k in r ==> k in m && r[k] == m[k]
      invariant DroppedOldest(m, r)
      decreases |r|
    {
      OldestExists(r);
      var oldest :| oldest in r && forall j :: j in r ==> r[oldest].updatedAt <= r[j].updatedAt;
      RemoveOne(r, oldest);
      r := r - {oldest};
    }
  }

  /** Adding one more element to the configuration list. */
  lemma LoadedSnoc(entries: seq<Entry>, k: nat)
    requires k < |entries|
    ensures Loaded(entries[..k + 1]) ==
      Loaded(entries[..k]) + if Complete(entries[k]) then [ConfigOf(entries[k], k + 1)] else []
  {
    assert entries[..k + 1][..k] == entries[..k];
  }

  /** The id list and the kept configuration after adding `v`. */
  lemma LastWithSnoc(configs: seq<ConfigValue>, v: ConfigValue)
    ensures Ids(configs + [v]) == Ids(configs) + [v.accountId]
    ensures forall id :: id in Ids(configs + [v]) <==> id in Ids(configs) || id == v.accountId
    ensures forall id :: id in Ids(configs + [v]) ==>
      LastWith(configs + [v], id) == if id == v.accountId then v else LastWith(configs, id)
  {
    assert (configs + [v])[..|configs|] == configs;
  }

  /** One step of `load_gemini_accounts`: a new config object holding `v`
      is added to the pool; the other accounts' configurations stay as they
      were. */
  method AddConfig(pool: MultiAccountManager, v: ConfigValue, cooldowns: Cooldowns)
    requires pool.Valid()
    modifies pool
    ensures pool.Valid() && pool.cache == old(pool.cache)
    ensures pool.accountList == old(pool.accountList) + [v.accountId]
    ensures pool.accounts.Keys == old(pool.accounts.Keys) + {v.accountId}
    ensures pool.accounts[v.accountId].config.Value() == v
    ensures forall id :: id in old(pool.accounts) && id != v.accountId ==>
      pool.accounts[id] == old(pool.accounts[id]) && pool.accounts[id].config.Value() == old(pool.accounts[id].config.Value())
  {
    var config := new AccountConfig(v);
    pool.AddAccount(config, cooldowns);
  }

  /** The loop body of `load_gemini_accounts` for the `k`-th element: a
      complete one is added to the pool, an incomplete one is skipped. */
  method LoadEntry(pool: MultiAccountManager, entries: seq<Entry>, k: nat, cooldowns: Cooldowns)
    requires k < |entries| && pool.Valid()
    requires pool.accountList == Ids(Loaded(entries[..k]))
    requires forall id :: id in pool.accounts <==> id in Ids(Loaded(entries[..k]))
    requires forall id :: id in pool.accounts ==> pool.accounts[id].config.Value() == LastWith(Loaded(entries[..k]), id)
    modifies pool
    ensures pool.Valid() && pool.cache == old(pool.cache)
    ensures pool.accountList == Ids(Loaded(entries[..k + 1]))
    ensures forall id :: id in pool.accounts <==> id in Ids(Loaded(entries[..k + 1]))
    ensures forall id :: id in pool.accounts ==> pool.accounts[id].config.Value() == LastWith(Loaded(entries[..k + 1]), id)
  {
    LoadedSnoc(entries, k);
    ghost var loaded := Loaded(entries[..k]);
    var e := entries[k];
    if "secure_c_ses" in e.fields && "csesidx" in e.fields && "config_id" in e.fields {
      var v := ConfigOf(e, k + 1);
      assert Loaded(entries[..k + 1]) == loaded + [v];
      LoadConfig(pool, v, loaded, cooldowns);
    } else {
      assert Loaded(entries[..k + 1]) == loaded;
    }
  }

  /** Adding a complete element's configuration: the pool that held
      `loaded` now holds `loaded + [v]`. */
  method LoadConfig(pool: MultiAccountManager, v: ConfigValue, ghost loaded: seq<ConfigValue>, cooldowns: Cooldowns)
    requires pool.Valid()
    requires pool.accountList == Ids(loaded)
    requires forall id :: id in pool.accounts <==> id in Ids(loaded)
    requires forall id :: id in pool.accounts ==> pool.accounts[id].config.Value() == LastWith(loaded, id)
    modifies pool
    ensures pool.Valid() && pool.cache == old(pool.cache)
    ensures pool.accountList == Ids(loaded + [v])
    ensures forall id :: id in pool.accounts <==> id in Ids(loaded + [v])
    ensures forall id :: id in pool.accounts ==> pool.accounts[id].config.Value() == LastWith(loaded + [v], id)
  {
    LastWithSnoc(loaded, v);
    AddConfig(pool, v, cooldowns);
  }

  /** `load_gemini_accounts`: an empty or undecodable configuration gives
      an empty pool; otherwise every complete element is added in order. */
  method LoadGeminiAccounts(text: string, decode: string -> Option<seq<Entry>>, cooldowns: Cooldowns, ttl: int)
    returns (pool: MultiAccountManager)
    ensures fresh(pool) && pool.Valid() && pool.cache == map[] && pool.cacheTtl == ttl
    ensures text == [] || decode(text).None? ==> pool.accounts == map[] && pool.accountList == []
    ensures text != [] && decode(text).Some? ==>
      var configs := Loaded(decode(text).value);
      && pool.accountList == Ids(configs)
      && (forall id :: id in pool.accounts <==> id in Ids(configs))
      && (forall id :: id in pool.accounts ==> pool.accounts[id].config.Value() == LastWith(configs, id))
  {
    pool := new MultiAccountManager(ttl);
    if text == [] {
      return;
    }
    var decoded := decode(text);
    if decoded.None? {
      return;
    }
    var entries := decoded.value;
    var k := 0;
    assert entries[..0] == [];
    while k < |entries|
      invariant 0 <= k <= |entries|
      invariant fresh(pool) && pool.Valid() && pool.cache == map[] && pool.cacheTtl == ttl
      invariant pool.accountList == Ids(Loaded(entries[..k]))
      invariant forall id :: id in pool.accounts <==> id in Ids(Loaded(entries[..k]))
      invariant forall id :: id in pool.accounts ==> pool.accounts[id].config.Value() == LastWith(Loaded(entries[..k]), id)
    {
      LoadEntry(pool, entries, k, cooldowns);
      k := k + 1;
    }
    assert entries[..k] == entries;
  }
}
