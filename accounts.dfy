/** One Gemini account's manager (`AccountManager` in
    `app/backends/gemini/account.py`): per-quota-type cooldown stamps that
    are cleared lazily when checked, and the account's token. Time is an
    input in whole seconds. */
module Accounts {
  import opened Wrappers
  import opened Strings
  import opened AccountConfigs
  import Jwt

  /** The keys of `QUOTA_TYPES`. */
  const QuotaTypes: set<string> := {"text", "images", "videos"}

  /** `CooldownConfig`: seconds of cooldown per quota type. */
  datatype Cooldowns = Cooldowns(text: int, images: int, videos: int)

  const DefaultCooldowns := Cooldowns(60, 60, 60)

  /** `_get_cooldown_seconds`: anything but images and videos counts as
      text. */
  function CooldownOf(cd: Cooldowns, quotaType: string): (seconds: int)
    ensures quotaType == "images" ==> seconds == cd.images
    ensures quotaType == "videos" ==> seconds == cd.videos
    ensures quotaType != "images" && quotaType != "videos" ==> seconds == cd.text
  {
    if quotaType == "images" then cd.images
    else if quotaType == "videos" then cd.videos
    else cd.text
  }

  /** The quota type `handle_error` stamps: a missing, empty or unknown type
      becomes text. */
  function StampedType(quotaType: Option<string>): (t: string)
    ensures t in QuotaTypes
    ensures quotaType.Some? && quotaType.value in QuotaTypes ==> t == quotaType.value
    ensures !(quotaType.Some? && quotaType.value in QuotaTypes) ==> t == "text"
  {
    if quotaType.None? || quotaType.value == [] || quotaType.value !in QuotaTypes then "text"
    else quotaType.value
  }

  /** A stamp that still blocks `quotaType` at `now`: known type, stamp
      present and non-zero, and less than the type's cooldown elapsed. */
  predicate Blocked(stamps: map<string, int>, cd: Cooldowns, quotaType: string, now: int) {
    && quotaType in QuotaTypes && quotaType in stamps && stamps[quotaType] != 0
    && now - stamps[quotaType] < CooldownOf(cd, quotaType)
  }

  /** `is_quota_available`: the verdict, and the stamps after a stale stamp
      of the checked type is deleted. */
  function QuotaCheck(stamps: map<string, int>, cd: Cooldowns, quotaType: string, now: int): (bool, map<string, int>) {
    if quotaType !in QuotaTypes then (true, stamps)
    else if quotaType !in stamps || stamps[quotaType] == 0 then (true, stamps)
    else if now - stamps[quotaType] < CooldownOf(cd, quotaType) then (false, stamps)
    else (true, stamps - {quotaType})
  }

  /** A check fails exactly when a stamp still blocks the type; it deletes
      the checked type's stamp only when that stamp has run out, and
      leaves every other stamp alone. */
  lemma QuotaCheckMeaning(stamps: map<string, int>, cd: Cooldowns, quotaType: string, now: int)
    ensures var (ok, after) := QuotaCheck(stamps, cd, quotaType, now);
      && (ok <==> !Blocked(stamps, cd, quotaType, now))
      && (after == stamps || (after == stamps - {quotaType} && quotaType in QuotaTypes && quotaType in stamps
                              && stamps[quotaType] != 0 && now - stamps[quotaType] >= CooldownOf(cd, quotaType)))
      && (forall t :: t != quotaType ==> (t in after <==> t in stamps) && (t in after ==> after[t] == stamps[t]))
  {
  }

  /** The non-text checks of `are_quotas_available`, in order, stopping at
      the first blocked type. */
  function OthersCheck(stamps: map<string, int>, cd: Cooldowns, types: seq<string>, now: int): (bool, map<string, int>)
    decreases |types|
  {
    if types == [] then (true, stamps)
    else if types[0] == "text" then OthersCheck(stamps, cd, types[1..], now)
    else
      var (ok, s1) := QuotaCheck(stamps, cd, types[0], now);
      if !ok then (false, s1) else OthersCheck(s1, cd, types[1..], now)
  }

  /** `are_quotas_available`: no types (None or empty) is always fine;
      otherwise text is checked first and then each other type. */
  function QuotasCheck(stamps: map<string, int>, cd: Cooldowns, types: Option<seq<string>>, now: int): (bool, map<string, int>) {
    if types.None? || types.value == [] then (true, stamps)
    else
      var (ok, s1) := QuotaCheck(stamps, cd, "text", now);
      if !ok then (false, s1) else OthersCheck(s1, cd, types.value, now)
  }

  /** Clearing a stale stamp of one type does not change whether another
      type is blocked, and leaves that type unblocked. */
  lemma CheckKeepsBlocked(stamps: map<string, int>, cd: Cooldowns, checked: string, t: string, now: int)
    ensures Blocked(QuotaCheck(stamps, cd, checked, now).1, cd, t, now) <==> Blocked(stamps, cd, t, now)
  {
    QuotaCheckMeaning(stamps, cd, checked, now);
  }

  /** The non-text checks pass exactly when none of the listed types is
      blocked at the start. */
  lemma {:induction false} OthersCheckMeaning(stamps: map<string, int>, cd: Cooldowns, types: seq<string>, now: int)
    ensures OthersCheck(stamps, cd, types, now).0
        <==> forall k :: 0 <= k < |types| && types[k] != "text" ==> !Blocked(stamps, cd, types[k], now)
    decreases |types|
  {
    if types != [] {
      var (ok, s1) := QuotaCheck(stamps, cd, types[0], now);
      QuotaCheckMeaning(stamps, cd, types[0], now);
      if types[0] == "text" {
        OthersCheckMeaning(stamps, cd, types[1..], now);
      } else {
        OthersCheckMeaning(s1, cd, types[1..], now);
        forall k | 1 <= k < |types|
          ensures Blocked(s1, cd, types[k], now) <==> Blocked(stamps, cd, types[k], now)
        {
          CheckKeepsBlocked(stamps, cd, types[0], types[k], now);
        }
      }
      assert forall k :: 1 <= k < |types| ==> types[k] == types[1..][k - 1];
    }
  }

  /** All the requested quotas are available exactly when none of them, and
      (for a non-empty request) not text either, is blocked. */
  lemma QuotasCheckMeaning(stamps: map<string, int>, cd: Cooldowns, types: Option<seq<string>>, now: int)
    ensures QuotasCheck(stamps, cd, types, now).0 <==>
      (types.Some? && types.value != [] ==>
        !Blocked(stamps, cd, "text", now)
        && forall k :: 0 <= k < |types.value| ==> !Blocked(stamps, cd, types.value[k], now))
  {
    if types.Some? && types.value != [] {
      var (ok, s1) := QuotaCheck(stamps, cd, "text", now);
      QuotaCheckMeaning(stamps, cd, "text", now);
      OthersCheckMeaning(s1, cd, types.value, now);
      forall k | 0 <= k < |types.value| {
        CheckKeepsBlocked(stamps, cd, "text", types.value[k], now);
      }
    }
  }

  class AccountManager {
    const config: AccountConfig
    const cooldowns: Cooldowns
    var jwtManager: Option<Jwt.JwtManager>
    var isAvailable: bool
    var quotaCooldowns: map<string, int>
    var conversationCount: int
    var failureCount: int
    var sessionUsageCount: int

    /** The token holder, once made, works on this account's config. */
    ghost predicate Valid()
      reads this, if jwtManager.Some? then {jwtManager.value} else {}
    {
      jwtManager.Some? ==> jwtManager.value.config == config && jwtManager.value.Valid()
    }

    ghost function TokenHolder(): set<object>
      reads this
    {
      if jwtManager.Some? then {jwtManager.value} else {}
    }

    /** The expiry of the cached token; a holder not yet made starts at 0. */
    ghost function CacheExpiry(): int
      reads this, TokenHolder()
    {
      if jwtManager.Some? then jwtManager.value.expires else 0
    }

    constructor (config: AccountConfig, cooldowns: Cooldowns)
      ensures Valid() && this.config == config && this.cooldowns == cooldowns
      ensures jwtManager == None && isAvailable && quotaCooldowns == map[]
      ensures conversationCount == 0 && failureCount == 0 && sessionUsageCount == 0
    {
      this.config := config;
      this.cooldowns := cooldowns;
      jwtManager := None;
      isAvailable := true;
      quotaCooldowns := map[];
      conversationCount, failureCount, sessionUsageCount := 0, 0, 0;
    }

    /** `handle_error`: only the stamp of the (normalised) quota type is
        set to `now`. */
    method HandleError(quotaType: Option<string>, now: int)
      modifies this`quotaCooldowns
      ensures quotaCooldowns == old(quotaCooldowns)[StampedType(quotaType) := now]
    {
      var t := if quotaType.None? || quotaType.value == [] || quotaType.value !in QuotaTypes then "text"
               else quotaType.value;
      quotaCooldowns := quotaCooldowns[t := now];
    }

    /** `is_quota_available`. */
    method IsQuotaAvailable(quotaType: string, now: int) returns (ok: bool)
      modifies this`quotaCooldowns
      ensures (ok, quotaCooldowns) == QuotaCheck(old(quotaCooldowns), cooldowns, quotaType, now)
    {
      if quotaType !in QuotaTypes {
        return true;
      }
      if quotaType !in quotaCooldowns || quotaCooldowns[quotaType] == 0 {
        return true;
      }
      var elapsed := now - quotaCooldowns[quotaType];
      if elapsed < CooldownOf(cooldowns, quotaType) {
        return false;
      }
      quotaCooldowns := quotaCooldowns - {quotaType};
      ok := true;
    }

    /** `are_quotas_available`. */
    method AreQuotasAvailable(types: Option<seq<string>>, now: int) returns (ok: bool)
      modifies this`quotaCooldowns
      ensures (ok, quotaCooldowns) == QuotasCheck(old(quotaCooldowns), cooldowns, types, now)
    {
      if types.None? || types.value == [] {
        return true;
      }
      ok := IsQuotaAvailable("text", now);
      if !ok {
        return;
      }
      var ts := types.value;
      var k := 0;
      while k < |ts|
        invariant 0 <= k <= |ts|
        invariant QuotasCheck(old(quotaCooldowns), cooldowns, types, now) == OthersCheck(quotaCooldowns, cooldowns, ts[k..], now)
      {
        assert ts[k..][1..] == ts[k + 1..];
        if ts[k] != "text" {
          var free := IsQuotaAvailable(ts[k], now);
          if !free {
            return false;
          }
        }
        k := k + 1;
      }
      ok := true;
    }

    /** `get_jwt`: an expired account is marked unavailable and fails; the
        token holder is made on first use; a failed refresh stamps a text
        cooldown; a success marks the account available. */
    method GetJwt(env: Jwt.Env, handshake: (string, string) -> Jwt.Response,
                  parseExpiry: string -> Option<int>, now: int) returns (r: Result<string, string>)
      requires Valid()
      modifies this, config, TokenHolder()
      ensures Valid()
      ensures IsExpired(config.expiresAt, parseExpiry, now) ==>
        r == Err("Account " + config.accountId + " has expired") && !isAvailable
        && quotaCooldowns == old(quotaCooldowns) && config.Value() == old(config.Value())
      ensures !IsExpired(config.expiresAt, parseExpiry, now) ==>
        && jwtManager.Some?
        && (r.Ok? ==> isAvailable && quotaCooldowns == old(quotaCooldowns) && r.value == jwtManager.value.jwt)
        && (r.Err? ==> quotaCooldowns == old(quotaCooldowns)["text" := now])
      ensures var resp := handshake(Jwt.RequestCookie(old(config.Value())), old(config.csesidx));
        var t := Jwt.TokenFrom(env, resp.text, old(config.csesidx), now);
        !IsExpired(config.expiresAt, parseExpiry, now) ==>
          && (r.Ok? <==> now <= old(CacheExpiry()) || (resp.status == 200 && t.Ok?))
          && (now > old(CacheExpiry()) && resp.status != 200 ==>
                r == Err("getoxsrf failed: " + IntToString(resp.status)))
          && (now > old(CacheExpiry()) && resp.status == 200 && t.Err? ==> r == Err(t.error))
      ensures config.csesidx == old(config.csesidx)
    {
      if IsExpired(config.expiresAt, parseExpiry, now) {
        isAvailable := false;
        return Err("Account " + config.accountId + " has expired");
      }
      if jwtManager.None? {
        var m := new Jwt.JwtManager(config);
        jwtManager := Some(m);
      }
      var m := jwtManager.value;
      r := m.Get(env, handshake, now);
      if r.Ok? {
        isAvailable := true;
      } else {
        HandleError(None, now);
      }
    }
  }
}
