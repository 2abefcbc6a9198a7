/** Subscription tiers and their management (`bot/subscription_manager.py`),
    on top of the in-memory store. */
module Subscriptions {
  import opened Wrappers
  import Database

  datatype Tier = Free | Basic | Premium

  datatype Duration = Daily | Weekly | Monthly

  /** The text stored in the database for each tier. */
  function TierValue(t: Tier): string {
    match t
    case Free => "free"
    case Basic => "basic"
    case Premium => "premium"
  }

  /** `Tier(s)`: the tier whose value is `s`, or nothing (`ValueError`). */
  function ParseTier(s: string): (r: Option<Tier>)
    ensures r.Some? <==> s == "free" || s == "basic" || s == "premium"
    ensures r.Some? ==> TierValue(r.value) == s
  {
    if s == "free" then Some(Free)
    else if s == "basic" then Some(Basic)
    else if s == "premium" then Some(Premium)
    else None
  }

  function DurationValue(d: Duration): string {
    match d
    case Daily => "daily"
    case Weekly => "weekly"
    case Monthly => "monthly"
  }

  /** `Duration(s)`. */
  function ParseDuration(s: string): (r: Option<Duration>)
    ensures r.Some? <==> s == "daily" || s == "weekly" || s == "monthly"
    ensures r.Some? ==> DurationValue(r.value) == s
  {
    if s == "daily" then Some(Daily)
    else if s == "weekly" then Some(Weekly)
    else if s == "monthly" then Some(Monthly)
    else None
  }

  lemma TierRoundTrip(t: Tier)
    ensures ParseTier(TierValue(t)) == Some(t)
  {
  }

  lemma DurationRoundTrip(d: Duration)
    ensures ParseDuration(DurationValue(d)) == Some(d)
  {
  }

  const DAY: int := 86400

  /** `DURATION_SECONDS`. */
  function DurationSeconds(d: Duration): (s: int)
    ensures s > 0 && s % DAY == 0
    ensures d == Daily ==> s == DAY
    ensures d == Weekly ==> s == 7 * DAY
    ensures d == Monthly ==> s == 30 * DAY
  {
    match d
    case Daily => DAY
    case Weekly => DAY * 7
    case Monthly => DAY * 30
  }

  /** The sentinel for an unlimited daily allowance. */
  const UNLIMITED: int := 999999999

  datatype TierLimits = TierLimits(
    imagesPerDay: int, videosPerDay: int, maxImagesPerRequest: int, maxBatchPrompts: int)
  {
    predicate IsUnlimitedImages() { imagesPerDay >= UNLIMITED }
    predicate IsUnlimitedVideos() { videosPerDay >= UNLIMITED }
  }

  /** `TIER_LIMITS`. */
  function Limits(t: Tier): TierLimits {
    match t
    case Free => TierLimits(20, 10, 2, 1)
    case Basic => TierLimits(500, 200, 4, 3)
    case Premium => TierLimits(UNLIMITED, UNLIMITED, 4, 10)
  }

  predicate AtMost(a: TierLimits, b: TierLimits) {
    a.imagesPerDay <= b.imagesPerDay && a.videosPerDay <= b.videosPerDay
    && a.maxImagesPerRequest <= b.maxImagesPerRequest && a.maxBatchPrompts <= b.maxBatchPrompts
  }

  /** Every limit grows from free to basic to premium, and only premium is
      unlimited. */
  lemma LimitsOrdered()
    ensures AtMost(Limits(Free), Limits(Basic)) && AtMost(Limits(Basic), Limits(Premium))
    ensures forall t :: Limits(t).IsUnlimitedImages() <==> t == Premium
    ensures forall t :: Limits(t).IsUnlimitedVideos() <==> t == Premium
  {
  }

  /** The subscription a caller sees. */
  datatype Subscription = Subscription(tier: string, expires: int, grantedBy: int, grantedAt: int)

  const FREE_SUBSCRIPTION := Subscription("free", 0, 0, 0)

  /** Whether a stored row has lapsed at `now`; a zero expiry never does. */
  predicate Lapsed(row: Database.SubscriptionRow, now: int) {
    row.expires > 0 && now > row.expires
  }

  /** `get_subscription`: no row gives free; a lapsed row is deleted and
      gives free; any other row is returned as stored. */
  method GetSubscription(db: Database.Store, userId: int, now: int) returns (sub: Subscription)
    requires db.Valid()
    modifies db`subscriptions
    ensures db.Valid()
    ensures userId !in old(db.subscriptions) ==> sub == FREE_SUBSCRIPTION && db.subscriptions == old(db.subscriptions)
    ensures userId in old(db.subscriptions) && Lapsed(old(db.subscriptions)[userId], now) ==>
      sub == FREE_SUBSCRIPTION && db.subscriptions == old(db.subscriptions) - {userId}
    ensures userId in old(db.subscriptions) && !Lapsed(old(db.subscriptions)[userId], now) ==>
      var row := old(db.subscriptions)[userId];
      sub == Subscription(row.tier, row.expires, row.grantedBy, row.grantedAt)
      && db.subscriptions == old(db.subscriptions)
  {
    var row := db.GetSubscription(userId);
    if row.None? {
      return FREE_SUBSCRIPTION;
    }
    if Lapsed(row.value, now) {
      var _ := db.DeleteSubscription(userId);
      return FREE_SUBSCRIPTION;
    }
    sub := Subscription(row.value.tier, row.value.expires, row.value.grantedBy, row.value.grantedAt);
  }

  /** The tier of a subscription, unknown text read as free. */
  function TierOf(sub: Subscription): (t: Tier)
    ensures ParseTier(sub.tier).Some? ==> t == ParseTier(sub.tier).value
    ensures ParseTier(sub.tier).None? ==> t == Free
  {
    ParseTier(sub.tier).GetOr(Free)
  }

  /** The tier `get_tier` reports for a subscription table at `now`. */
  function TierAt(subs: map<int, Database.SubscriptionRow>, userId: int, now: int): Tier {
    if userId !in subs || Lapsed(subs[userId], now) then Free
    else ParseTier(subs[userId].tier).GetOr(Free)
  }

  /** `get_tier`. */
  method GetTier(db: Database.Store, userId: int, now: int) returns (t: Tier)
    requires db.Valid()
    modifies db`subscriptions
    ensures db.Valid()
    ensures userId !in old(db.subscriptions) ==> t == Free
    ensures userId in old(db.subscriptions) && Lapsed(old(db.subscriptions)[userId], now) ==> t == Free
    ensures userId in old(db.subscriptions) && !Lapsed(old(db.subscriptions)[userId], now) ==>
      t == ParseTier(old(db.subscriptions)[userId].tier).GetOr(Free)
    ensures t == TierAt(old(db.subscriptions), userId, now)
    ensures db.subscriptions == old(db.subscriptions) || db.subscriptions == old(db.subscriptions) - {userId}
  {
    var sub := GetSubscription(db, userId, now);
    t := TierOf(sub);
  }

  /** `get_limits`. */
  method GetLimits(db: Database.Store, userId: int, now: int) returns (limits: TierLimits, t: Tier)
    requires db.Valid()
    modifies db`subscriptions
    ensures db.Valid()
    ensures limits == Limits(t) && t == TierAt(old(db.subscriptions), userId, now)
    ensures userId !in old(db.subscriptions) ==> t == Free
    ensures userId in old(db.subscriptions) && Lapsed(old(db.subscriptions)[userId], now) ==> t == Free
    ensures userId in old(db.subscriptions) && !Lapsed(old(db.subscriptions)[userId], now) ==>
      t == ParseTier(old(db.subscriptions)[userId].tier).GetOr(Free)
    ensures db.subscriptions == old(db.subscriptions) || db.subscriptions == old(db.subscriptions) - {userId}
  {
    t := GetTier(db, userId, now);
    limits := Limits(t);
  }

  /** The expiry a grant produces: extended from the current expiry only when
      the current row is still running on the same tier. */
  function GrantExpiry(existing: Option<Database.SubscriptionRow>, tier: Tier, duration: Duration, now: int): (expires: int)
    ensures expires > now
    ensures existing.Some? && existing.value.expires > now && existing.value.tier == TierValue(tier) ==>
      expires == existing.value.expires + DurationSeconds(duration)
    ensures !(existing.Some? && existing.value.expires > now && existing.value.tier == TierValue(tier)) ==>
      expires == now + DurationSeconds(duration)
  {
    var base := if existing.Some? && existing.value.expires > now && existing.value.tier == TierValue(tier)
      then existing.value.expires else now;
    base + DurationSeconds(duration)
  }

  /** `grant`: the row is replaced with the new tier, expiry, granter and
      `granted_at = now`. */
  method Grant(db: Database.Store, userId: int, tier: Tier, duration: Duration, grantedBy: int, now: int)
    returns (sub: Subscription)
    requires db.Valid()
    modifies db`subscriptions
    ensures db.Valid()
    ensures sub.tier == TierValue(tier) && sub.grantedBy == grantedBy && sub.grantedAt == now
    ensures sub.expires == GrantExpiry(old(db.GetSubscription(userId)), tier, duration, now)
    ensures db.subscriptions == old(db.subscriptions)[userId :=
      Database.SubscriptionRow(sub.tier, sub.expires, sub.grantedBy, sub.grantedAt)]
  {
    var existing := db.GetSubscription(userId);
    var baseTime := now;
    if existing.Some? && existing.value.expires > now && existing.value.tier == TierValue(tier) {
      baseTime := existing.value.expires;
    }
    var expires := baseTime + DurationSeconds(duration);
    db.UpsertSubscription(userId, TierValue(tier), expires, grantedBy, now);
    sub := Subscription(TierValue(tier), expires, grantedBy, now);
  }

  /** `revoke`. */
  method Revoke(db: Database.Store, userId: int) returns (revoked: bool)
    requires db.Valid()
    modifies db`subscriptions
    ensures db.Valid()
    ensures revoked <==> userId in old(db.subscriptions)
    ensures db.subscriptions == old(db.subscriptions) - {userId}
  {
    revoked := db.DeleteSubscription(userId);
  }

  /** Two grants of the same tier back to back add up: the second extends
      the first from its expiry. */
  lemma GrantsAccumulate(tier: Tier, d1: Duration, d2: Duration, now1: int, now2: int, grantedBy: int)
    requires now1 <= now2 < now1 + DurationSeconds(d1)
    ensures var first := GrantExpiry(None, tier, d1, now1);
      GrantExpiry(Some(Database.SubscriptionRow(TierValue(tier), first, grantedBy, now1)), tier, d2, now2)
        == now1 + DurationSeconds(d1) + DurationSeconds(d2)
  {
  }

  /** A grant on another tier restarts from now, whatever was left. */
  lemma GrantOtherTierRestarts(row: Database.SubscriptionRow, tier: Tier, d: Duration, now: int)
    requires row.tier != TierValue(tier)
    ensures GrantExpiry(Some(row), tier, d, now) == now + DurationSeconds(d)
  {
  }
}
