/** Daily image and video allowances (`bot/user_limit_manager.py`), on top
    of the store and the subscription tiers. The day's date key is an input. */
module UserLimits {
  import Database
  import Subscriptions
  import Config

  /** The dictionary `get_status` returns. */
  datatype Status = Status(
    isAdmin: bool,
    imagesUsed: int, imagesLimit: int, imagesRemaining: int,
    videosUsed: int, videosLimit: int, videosRemaining: int)

  function Max0(x: int): int { if x > 0 then x else 0 }

  /** The status built from a usage row and the two limits. */
  function StatusOf(isAdmin: bool, usage: Database.Usage, imageLimit: int, videoLimit: int): (s: Status)
    ensures s.imagesRemaining >= 0 && s.videosRemaining >= 0
    ensures s.imagesUsed == usage.images && s.videosUsed == usage.videos
    ensures s.imagesLimit == imageLimit && s.videosLimit == videoLimit && s.isAdmin == isAdmin
    ensures s.imagesRemaining > 0 <==> usage.images < imageLimit
    ensures s.imagesRemaining > 0 ==> s.imagesUsed + s.imagesRemaining == s.imagesLimit
    ensures s.videosRemaining > 0 <==> usage.videos < videoLimit
    ensures s.videosRemaining > 0 ==> s.videosUsed + s.videosRemaining == s.videosLimit
  {
    Status(isAdmin, usage.images, imageLimit, Max0(imageLimit - usage.images),
           usage.videos, videoLimit, Max0(videoLimit - usage.videos))
  }

  /** The decision `can_consume` makes from a status. */
  function Allows(s: Status, imageUnits: int, videoUnits: int): (ok: bool)
    ensures s.isAdmin ==> ok
    ensures !s.isAdmin ==>
      (ok <==> (s.imagesUsed + imageUnits <= s.imagesLimit && s.videosUsed + videoUnits <= s.videosLimit))
  {
    s.isAdmin || (s.imagesUsed + imageUnits <= s.imagesLimit && s.videosUsed + videoUnits <= s.videosLimit)
  }

  /** The `(image_limit, video_limit)` pair `_get_limits` yields for a
      subscription table at `now`: the user's tier limits, or the settings'
      defaults when the tier lookup raises (`lookupFails`, an input here). */
  function LimitsAt(settings: Config.BotSettings, subs: map<int, Database.SubscriptionRow>, userId: int,
                    now: int, lookupFails: bool): (int, int)
  {
    if lookupFails then (settings.userDailyImageLimit, settings.userDailyVideoLimit)
    else
      var limits := Subscriptions.Limits(Subscriptions.TierAt(subs, userId, now));
      (limits.imagesPerDay, limits.videosPerDay)
  }

  /** Without a lookup failure, a user with no running subscription gets the
      free tier's limits, and any user gets at least those. */
  lemma LimitsAtMeaning(settings: Config.BotSettings, subs: map<int, Database.SubscriptionRow>, userId: int,
                        now: int)
    ensures var (images, videos) := LimitsAt(settings, subs, userId, now, false);
      && images >= Subscriptions.Limits(Subscriptions.Free).imagesPerDay
      && videos >= Subscriptions.Limits(Subscriptions.Free).videosPerDay
      && (userId !in subs || Subscriptions.Lapsed(subs[userId], now) ==>
            images == Subscriptions.Limits(Subscriptions.Free).imagesPerDay
            && videos == Subscriptions.Limits(Subscriptions.Free).videosPerDay)
  {
    Subscriptions.LimitsOrdered();
  }

  /** `_get_limits`. */
  method GetLimits(db: Database.Store, settings: Config.BotSettings, userId: int, now: int, lookupFails: bool)
    returns (imageLimit: int, videoLimit: int)
    requires db.Valid()
    modifies db`subscriptions
    ensures db.Valid()
    ensures lookupFails ==> imageLimit == settings.userDailyImageLimit && videoLimit == settings.userDailyVideoLimit
    ensures !lookupFails ==>
      var t := Subscriptions.TierAt(old(db.subscriptions), userId, now);
      imageLimit == Subscriptions.Limits(t).imagesPerDay && videoLimit == Subscriptions.Limits(t).videosPerDay
    ensures (imageLimit, videoLimit) == LimitsAt(settings, old(db.subscriptions), userId, now, lookupFails)
    ensures db.subscriptions == old(db.subscriptions) || db.subscriptions == old(db.subscriptions) - {userId}
  {
    if lookupFails {
      return settings.userDailyImageLimit, settings.userDailyVideoLimit;
    }
    var limits, t := Subscriptions.GetLimits(db, userId, now);
    imageLimit, videoLimit := limits.imagesPerDay, limits.videosPerDay;
  }

  /** `get_status`: usage is only read (the tier lookup may drop a lapsed
      subscription). */
  method GetStatus(db: Database.Store, settings: Config.BotSettings, userId: int, dateKey: string,
                   isAdmin: bool, now: int, lookupFails: bool) returns (s: Status)
    requires db.Valid()
    modifies db`subscriptions
    ensures db.Valid()
    ensures s == StatusOf(isAdmin, db.GetUsage(userId, dateKey), s.imagesLimit, s.videosLimit)
    ensures (s.imagesLimit, s.videosLimit) == LimitsAt(settings, old(db.subscriptions), userId, now, lookupFails)
    ensures db.usage == old(db.usage) && db.payments == old(db.payments)
    ensures db.subscriptions == old(db.subscriptions) || db.subscriptions == old(db.subscriptions) - {userId}
  {
    var usage := db.GetUsage(userId, dateKey);
    var imageLimit, videoLimit := GetLimits(db, settings, userId, now, lookupFails);
    s := StatusOf(isAdmin, usage, imageLimit, videoLimit);
  }

  /** `can_consume`: admins always; others iff both counters stay within
      their limits after the requested units. */
  method CanConsume(db: Database.Store, settings: Config.BotSettings, userId: int, dateKey: string,
                    imageUnits: int, videoUnits: int, isAdmin: bool, now: int, lookupFails: bool)
    returns (allowed: bool, s: Status)
    requires db.Valid()
    modifies db`subscriptions
    ensures db.Valid()
    ensures s == StatusOf(isAdmin, db.GetUsage(userId, dateKey), s.imagesLimit, s.videosLimit)
    ensures (s.imagesLimit, s.videosLimit) == LimitsAt(settings, old(db.subscriptions), userId, now, lookupFails)
    ensures allowed == Allows(s, imageUnits, videoUnits)
    ensures db.usage == old(db.usage) && db.payments == old(db.payments)
    ensures db.subscriptions == old(db.subscriptions) || db.subscriptions == old(db.subscriptions) - {userId}
  {
    s := GetStatus(db, settings, userId, dateKey, isAdmin, now, lookupFails);
    if isAdmin {
      return true, s;
    }
    allowed := s.imagesUsed + imageUnits <= s.imagesLimit && s.videosUsed + videoUnits <= s.videosLimit;
  }

  /** `consume`: a non-admin's counters grow by the non-negative part of the
      units; an admin's are untouched. */
  method Consume(db: Database.Store, settings: Config.BotSettings, userId: int, dateKey: string,
                 imageUnits: int, videoUnits: int, isAdmin: bool, now: int, lookupFails: bool)
    returns (s: Status)
    requires db.Valid()
    modifies db`subscriptions, db`usage
    ensures db.Valid()
    ensures isAdmin ==> db.usage == old(db.usage)
    ensures !isAdmin ==> db.usage == old(db.usage)[(userId, dateKey) := Database.Usage(
      old(db.GetUsage(userId, dateKey)).images + Max0(imageUnits),
      old(db.GetUsage(userId, dateKey)).videos + Max0(videoUnits))]
    ensures s == StatusOf(isAdmin, db.GetUsage(userId, dateKey), s.imagesLimit, s.videosLimit)
    ensures (s.imagesLimit, s.videosLimit) == LimitsAt(settings, old(db.subscriptions), userId, now, lookupFails)
    ensures db.subscriptions == old(db.subscriptions) || db.subscriptions == old(db.subscriptions) - {userId}
    ensures db.payments == old(db.payments)
  {
    if !isAdmin {
      var _ := db.AddUsage(userId, dateKey, Max0(imageUnits), Max0(videoUnits));
    }
    s := GetStatus(db, settings, userId, dateKey, isAdmin, now, lookupFails);
  }

  /** Consuming exactly what `can_consume` allowed keeps a non-admin within
      both limits. */
  lemma ConsumeWithinLimits(s: Status, usage: Database.Usage, imageUnits: int, videoUnits: int)
    requires !s.isAdmin && s == StatusOf(false, usage, s.imagesLimit, s.videosLimit)
    requires imageUnits >= 0 && videoUnits >= 0
    requires Allows(s, imageUnits, videoUnits)
    ensures var after := StatusOf(false, Database.Usage(usage.images + imageUnits, usage.videos + videoUnits),
                                  s.imagesLimit, s.videosLimit);
      after.imagesUsed <= after.imagesLimit && after.videosUsed <= after.videosLimit
      && after.imagesRemaining == s.imagesRemaining - imageUnits
      && after.videosRemaining == s.videosRemaining - videoUnits
  {
  }
}
