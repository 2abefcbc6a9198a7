/** `AccountConfig` of `app/backends/gemini/account.py`: one Gemini
    Business account's cookies and settings. The authenticator rewrites its
    cookies in place, so it is an object shared by the account's manager
    and its token manager. */
module AccountConfigs {
  import opened Wrappers

  /** The fields of an `AccountConfig` at one moment. */
  datatype ConfigValue = ConfigValue(
    accountId: string,
    secureCSes: string,
    hostCOses: Option<string>,
    csesidx: string,
    configId: string,
    expiresAt: Option<string>,
    disabled: bool,
    lastCookieRefresh: int)

  /** Only the cookies and the refresh time change after construction; the
      id, the config id, the expiry and the disabled flag are never
      written, so they are constants here. */
  class AccountConfig {
    const accountId: string
    var secureCSes: string
    var hostCOses: Option<string>
    var csesidx: string
    const configId: string
    const expiresAt: Option<string>
    const disabled: bool
    var lastCookieRefresh: int

    constructor (v: ConfigValue)
      ensures Value() == v
    {
      accountId, secureCSes, hostCOses, csesidx := v.accountId, v.secureCSes, v.hostCOses, v.csesidx;
      configId, expiresAt, disabled, lastCookieRefresh := v.configId, v.expiresAt, v.disabled, v.lastCookieRefresh;
    }

    function Value(): ConfigValue
      reads this
    {
      ConfigValue(accountId, secureCSes, hostCOses, csesidx, configId, expiresAt, disabled, lastCookieRefresh)
    }
  }

  /** `get_remaining_hours`: hours from `now` to the expiry, or `None` when
      there is no expiry text or it does not parse. `parseExpiry` stands
      for reading `%Y-%m-%d %H:%M:%S` in UTC+8 as epoch seconds. */
  function RemainingHours(expiresAt: Option<string>, parseExpiry: string -> Option<int>, now: int): Option<real> {
    if expiresAt.None? || expiresAt.value == [] then None
    else match parseExpiry(expiresAt.value)
      case None => None
      case Some(t) => Some((t - now) as real / 3600.0)
  }

  /** `is_expired`: an account expires once its parsed expiry time is not
      after `now`; without a parsable expiry it never does. */
  predicate IsExpired(expiresAt: Option<string>, parseExpiry: string -> Option<int>, now: int) {
    && expiresAt.Some? && expiresAt.value != []
    && parseExpiry(expiresAt.value).Some?
    && parseExpiry(expiresAt.value).value <= now
  }

  /** The source decides expiry through the remaining hours: expired
      exactly when they are known and not positive. */
  lemma ExpiredByHours(expiresAt: Option<string>, parseExpiry: string -> Option<int>, now: int)
    ensures IsExpired(expiresAt, parseExpiry, now) <==>
      var remaining := RemainingHours(expiresAt, parseExpiry, now);
      remaining.Some? && remaining.value <= 0.0
  {
  }

  /** Expiry only moves one way: an account expired at one moment stays
      expired later. */
  lemma ExpiryIsFinal(expiresAt: Option<string>, parseExpiry: string -> Option<int>, now: int, later: int)
    requires now <= later && IsExpired(expiresAt, parseExpiry, now)
    ensures IsExpired(expiresAt, parseExpiry, later)
  {
  }
}
