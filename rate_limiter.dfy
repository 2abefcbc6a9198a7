/** Per-user generation cooldowns (`bot/rate_limiter.py`). Timestamps are
    the fractional seconds of `time.time()`, here `real`s passed in as `now`. */
module RateLimiter {
  import Subscriptions

  /** `COOLDOWNS`. */
  const Cooldowns: map<Subscriptions.Tier, int> :=
    map[Subscriptions.Free := 30, Subscriptions.Basic := 15, Subscriptions.Premium := 5]

  /** `COOLDOWNS.get(tier, 30)`. */
  function CooldownOf(tier: Subscriptions.Tier): (c: int)
    ensures tier in Cooldowns ==> c == Cooldowns[tier]
    ensures tier !in Cooldowns ==> c == 30
  {
    if tier in Cooldowns then Cooldowns[tier] else 30
  }

  /** Every tier has its own entry, and the cooldowns fall as the tier rises. */
  lemma CooldownsOrdered()
    ensures forall t :: t in Cooldowns
    ensures CooldownOf(Subscriptions.Free) == 30 && CooldownOf(Subscriptions.Basic) == 15
      && CooldownOf(Subscriptions.Premium) == 5
    ensures CooldownOf(Subscriptions.Free) > CooldownOf(Subscriptions.Basic) > CooldownOf(Subscriptions.Premium) > 0
  {
    forall t: Subscriptions.Tier ensures t in Cooldowns {
      match t
      case Free =>
      case Basic =>
      case Premium =>
    }
  }

  /** `int(x)` for the non-negative and negative reals it is applied to:
      truncation toward zero. */
  function Trunc(x: real): int {
    if x >= 0.0 then x.Floor else -((-x).Floor)
  }

  class Limiter {
    /** `_last_request`. */
    var lastRequest: map<int, real>

    constructor ()
      ensures lastRequest == map[]
    {
      lastRequest := map[];
    }

    /** The last recorded request, 0 for a user never recorded. */
    function Last(userId: int): real
      reads this
    {
      if userId in lastRequest then lastRequest[userId] else 0.0
    }

    /** `check_cooldown`: `(allowed, remaining_seconds)`. */
    function CheckCooldown(userId: int, tier: Subscriptions.Tier, isAdmin: bool, now: real): (r: (bool, int))
      reads this
      ensures isAdmin ==> r == (true, 0)
      ensures r.0 ==> r.1 == 0
      ensures !isAdmin ==> (r.0 <==> now - Last(userId) >= CooldownOf(tier) as real)
      ensures !r.0 && now >= Last(userId) ==> 1 <= r.1 <= CooldownOf(tier) + 1
      ensures !r.0 ==> r.1 == Trunc(CooldownOf(tier) as real - (now - Last(userId))) + 1
    {
      if isAdmin then (true, 0)
      else
        var cooldown := CooldownOf(tier);
        if cooldown <= 0 then (true, 0)
        else
          var elapsed := now - Last(userId);
          if elapsed >= cooldown as real then (true, 0)
          else (false, Trunc(cooldown as real - elapsed) + 1)
    }

    /** `record_request`: only this user's timestamp changes. */
    method RecordRequest(userId: int, now: real)
      modifies this
      ensures lastRequest == old(lastRequest)[userId := now]
      ensures Last(userId) == now
      ensures forall u :: u != userId ==> Last(u) == old(Last(u))
    {
      lastRequest := lastRequest[userId := now];
    }
  }

  /** Right after a request is recorded, a non-admin on any tier is refused
      with the whole cooldown (plus the rounding second) to wait. */
  lemma RefusedRightAfterRecord(limiter: Limiter, userId: int, tier: Subscriptions.Tier, now: real)
    requires limiter.Last(userId) == now
    ensures limiter.CheckCooldown(userId, tier, false, now) == (false, CooldownOf(tier) + 1)
  {
  }
}
