/** The payment webhook of the gateway (`app/api/webhook.py`): the request
    is authenticated, the payload routed to the user's pending payment, and
    a paid payment turned into a subscription or a top-up credit, on the
    store of `bot/database.py`. */
module Webhook {
  import opened Wrappers
  import Database
  import Subscriptions

  // ---------------------------------------------------------------------
  // Authentication
  // ---------------------------------------------------------------------

  /** A header that is absent or empty counts as not sent. */
  predicate Sent(h: Option<string>) {
    h.Some? && h.value != ""
  }

  /** `_verify_signature`: `expected` is the hex HMAC-SHA256 of the body
      under the secret (the digest itself is not modelled). */
  function VerifySignature(expected: string, signature: Option<string>, secret: string): (ok: bool)
    ensures ok ==> secret != "" && signature == Some(expected) && expected != ""
    ensures secret != "" && signature == Some(expected) && expected != "" ==> ok
  {
    if secret == "" || !Sent(signature) then false
    else expected == signature.value
  }

  /** `_verify_simple_secret`. */
  function VerifySimpleSecret(headerSecret: Option<string>, secret: string): (ok: bool)
    ensures ok <==> secret != "" && headerSecret == Some(secret)
  {
    if secret == "" || !Sent(headerSecret) then false
    else headerSecret.value == secret
  }

  /** The headers of one call and the digest of its body. */
  datatype Credentials = Credentials(signature: Option<string>, headerSecret: Option<string>, bodyHmac: string)

  /** The verification step of `qris_webhook`: with a secret configured the
      signature is tried first and the plain secret header second; with none
      every request passes. */
  function Authenticated(secret: string, c: Credentials): (ok: bool)
  {
    if secret != "" then
      (Sent(c.signature) && VerifySignature(c.bodyHmac, c.signature, secret))
      || (Sent(c.headerSecret) && VerifySimpleSecret(c.headerSecret, secret))
    else true
  }

  /** What the verification accepts: everything when no secret is set;
      otherwise exactly a matching signature or the secret itself. */
  lemma AuthenticatedMeaning(secret: string, c: Credentials)
    ensures secret == "" ==> Authenticated(secret, c)
    ensures secret != "" ==>
      (Authenticated(secret, c) <==> (c.bodyHmac != "" && c.signature == Some(c.bodyHmac)) || c.headerSecret == Some(secret))
    ensures secret != "" && !Sent(c.signature) && !Sent(c.headerSecret) ==> !Authenticated(secret, c)
  {
  }

  // ---------------------------------------------------------------------
  // Processing one paid payment
  // ---------------------------------------------------------------------

  /** `TOPUP_PACKS` of `bot/handlers/topup.py`: pack id to the images and
      videos it adds. */
  const TopupPacks: map<string, (nat, nat)> := map[
    "img50" := (50, 0),
    "img100" := (100, 0),
    "vid20" := (0, 20),
    "vid50" := (0, 50)
  ]

  const TopupPrefix := "topup_"

  /** What processing a payment did. */
  datatype Processing =
    | AlreadyProcessed
    | ToppedUp(userId: int, packId: string, images: nat, videos: nat)
    | UnknownPack(packId: string)
    | TopupFailed(error: string)
    | InvalidPlan
    | SubscriptionGranted(row: Database.SubscriptionRow)

  /** The text of the error raised when the top-up branch calls a function
      the database module does not define. */
  const MissingExtraQuota := "module 'bot.database' has no attribute 'add_extra_quota'"

  /** The top-up branch as written: the pack is looked up, and for a known
      pack `db.add_extra_quota` is called, which `bot/database.py` does not
      define, so the error is caught and logged and nothing is credited. */
  function TopupAsWritten(userId: int, packId: string): (r: Processing)
    ensures packId in TopupPacks ==> r == TopupFailed(MissingExtraQuota)
    ensures packId !in TopupPacks ==> r == UnknownPack(packId)
  {
    if packId in TopupPacks then TopupFailed(MissingExtraQuota) else UnknownPack(packId)
  }

  /** The top-up branch as intended: a known pack credits its images and
      videos to the payer; an unknown one is only logged. */
  function Topup(userId: int, packId: string): (r: Processing)
    ensures r.ToppedUp? <==> packId in TopupPacks
    ensures r.ToppedUp? ==> (r.userId == userId && r.packId == packId && (r.images, r.videos) == TopupPacks[packId])
    ensures !r.ToppedUp? ==> r == UnknownPack(packId)
  {
    if packId in TopupPacks then
      var pack := TopupPacks[packId];
      ToppedUp(userId, packId, pack.0, pack.1)
    else UnknownPack(packId)
  }

  /** As written, no top-up payment ever credits anything, although every
      pack in `TopupPacks` is known; the payment is still marked paid. */
  lemma TopupNeverCredited(userId: int)
    ensures "img50" in TopupPacks
    ensures TopupAsWritten(userId, "img50") == TopupFailed(MissingExtraQuota)
    ensures Topup(userId, "img50") == ToppedUp(userId, "img50", 50, 0)
    ensures forall packId :: !TopupAsWritten(userId, packId).ToppedUp?
  {
  }

  /** The stored row of a user, as `get_subscription` returns it. */
  function Existing(subs: map<int, Database.SubscriptionRow>, userId: int): Option<Database.SubscriptionRow> {
    if userId in subs then Some(subs[userId]) else None
  }

  /** `_process_webhook_payment` on the subscriptions and payments tables,
      the clock reading `now`: the payment is marked paid; if it was not
      pending nothing more happens; a `topup_` tier takes the top-up branch,
      as written or as intended; any other tier is granted for its duration
      by user 0, unless the tier or the duration is not a valid value. */
  function ProcessBy(intended: bool, subs: map<int, Database.SubscriptionRow>, ps: seq<Database.PaymentRow>,
                     p: Database.PaymentRow, now: int)
    : (r: (map<int, Database.SubscriptionRow>, seq<Database.PaymentRow>, Processing))
  {
    var settled := Database.Settle(ps, p.transactionId, Database.Paid, Some(now));
    if !settled.1 then (subs, settled.0, AlreadyProcessed)
    else if TopupPrefix <= p.tier then
      var packId := p.tier[|TopupPrefix|..];
      (subs, settled.0, if intended then Topup(p.userId, packId) else TopupAsWritten(p.userId, packId))
    else
      match (Subscriptions.ParseTier(p.tier), Subscriptions.ParseDuration(p.duration))
      case (Some(tier), Some(duration)) =>
        var row := Database.SubscriptionRow(Subscriptions.TierValue(tier),
          Subscriptions.GrantExpiry(Existing(subs, p.userId), tier, duration, now), 0, now);
        (subs[p.userId := row], settled.0, SubscriptionGranted(row))
      case _ => (subs, settled.0, InvalidPlan)
  }

  /** The handler as written. */
  function Process(subs: map<int, Database.SubscriptionRow>, ps: seq<Database.PaymentRow>,
                   p: Database.PaymentRow, now: int)
    : (map<int, Database.SubscriptionRow>, seq<Database.PaymentRow>, Processing)
  {
    ProcessBy(false, subs, ps, p, now)
  }

  /** The handler with the top-up branch as intended. */
  function ProcessIntended(subs: map<int, Database.SubscriptionRow>, ps: seq<Database.PaymentRow>,
                           p: Database.PaymentRow, now: int)
    : (map<int, Database.SubscriptionRow>, seq<Database.PaymentRow>, Processing)
  {
    ProcessBy(true, subs, ps, p, now)
  }

  /** `_process_webhook_payment` on the store. */
  method ProcessWebhookPayment(db: Database.Store, payment: Database.PaymentRow, now: int)
    returns (outcome: Processing)
    requires db.Valid()
    modifies db`payments, db`subscriptions
    ensures db.Valid()
    ensures (db.subscriptions, db.payments, outcome) == Process(old(db.subscriptions), old(db.payments), payment, now)
  {
    var marked := db.MarkPaymentPaid(payment.transactionId, now);
    if !marked {
      return AlreadyProcessed;
    }
    if TopupPrefix <= payment.tier {
      // `replace("topup_", "", 1)` removes the prefix: its first occurrence
      // is at the start.
      var packId := payment.tier[|TopupPrefix|..];
      return TopupAsWritten(payment.userId, packId);
    }
    var tier := Subscriptions.ParseTier(payment.tier);
    var duration := Subscriptions.ParseDuration(payment.duration);
    if tier.None? || duration.None? {
      return InvalidPlan;
    }
    var sub := Subscriptions.Grant(db, payment.userId, tier.value, duration.value, 0, now);
    outcome := SubscriptionGranted(Database.SubscriptionRow(sub.tier, sub.expires, sub.grantedBy, sub.grantedAt));
  }

  /** Marking is the first step: whatever else happens, the payment's
      pending rows become paid at `now` and no other row changes; the
      subscriptions change only through a grant, and then only the payer's
      row, to the paid tier, granted by user 0. */
  lemma ProcessMeaning(intended: bool, subs: map<int, Database.SubscriptionRow>, ps: seq<Database.PaymentRow>,
                       p: Database.PaymentRow, now: int)
    ensures var r := ProcessBy(intended, subs, ps, p, now);
      r.1 == Database.Settle(ps, p.transactionId, Database.Paid, Some(now)).0
      && (r.2.AlreadyProcessed? <==> !Database.HasPending(ps, p.transactionId))
      && (!r.2.SubscriptionGranted? ==> r.0 == subs)
      && (r.2.SubscriptionGranted? ==>
            r.0 == subs[p.userId := r.2.row]
            && Subscriptions.ParseTier(r.2.row.tier) == Subscriptions.ParseTier(p.tier)
            && r.2.row.grantedBy == 0 && r.2.row.grantedAt == now && r.2.row.expires > now)
  {
  }

  /** A grant happens exactly for a pending payment whose tier is a valid,
      non-top-up tier and whose duration is valid. */
  lemma ProcessGrants(intended: bool, subs: map<int, Database.SubscriptionRow>, ps: seq<Database.PaymentRow>,
                      p: Database.PaymentRow, now: int)
    ensures ProcessBy(intended, subs, ps, p, now).2.SubscriptionGranted? <==>
      Database.HasPending(ps, p.transactionId) && !(TopupPrefix <= p.tier)
      && Subscriptions.ParseTier(p.tier).Some? && Subscriptions.ParseDuration(p.duration).Some?
  {
  }

  /** A `topup_` payment never touches the subscriptions. As written, a
      pending payment for a known pack fails on the missing store operation
      and nothing is ever credited; as intended, exactly such a payment is
      credited, to the payer. */
  lemma TopupNeverGrants(subs: map<int, Database.SubscriptionRow>, ps: seq<Database.PaymentRow>,
                         p: Database.PaymentRow, now: int)
    requires TopupPrefix <= p.tier
    ensures Process(subs, ps, p, now).0 == subs && ProcessIntended(subs, ps, p, now).0 == subs
    ensures !Process(subs, ps, p, now).2.ToppedUp?
    ensures Process(subs, ps, p, now).2 == TopupFailed(MissingExtraQuota) <==>
      Database.HasPending(ps, p.transactionId) && p.tier[|TopupPrefix|..] in TopupPacks
    ensures ProcessIntended(subs, ps, p, now).2.ToppedUp? <==>
      Database.HasPending(ps, p.transactionId) && p.tier[|TopupPrefix|..] in TopupPacks
    ensures ProcessIntended(subs, ps, p, now).2.ToppedUp? ==>
      ProcessIntended(subs, ps, p, now).2.userId == p.userId
  {
  }

  /** A second webhook for the same payment, at any later time, finds it
      already paid and changes nothing: each payment is granted once. */
  lemma ProcessTwice(intended: bool, subs: map<int, Database.SubscriptionRow>, ps: seq<Database.PaymentRow>,
                     p: Database.PaymentRow, now: int, later: int)
    ensures var once := ProcessBy(intended, subs, ps, p, now);
      ProcessBy(intended, once.0, once.1, p, later) == (once.0, once.1, AlreadyProcessed)
  {
    Database.SettleTwice(ps, p.transactionId, Database.Paid, Some(now), Some(later));
  }

  // ---------------------------------------------------------------------
  // The endpoint
  // ---------------------------------------------------------------------

  /** The fields read from the JSON body, with their defaults when absent;
      `userId` is what `int(customer_id)` gives, `None` when it raises. */
  datatype Payload = Payload(status: string, orderId: string, customerId: string, userId: Option<int>, amount: int)

  /** The JSON object the endpoint answers with. */
  datatype Reply =
    | Rejected            // {"error": "invalid signature", "ok": False}
    | InvalidJson         // {"error": "invalid json", "ok": False}
    | Ignored(reason: string)
    | Granted(transactionId: string)
    | GrantedAmountMismatch(transactionId: string)
    | NoMatch(orderId: string)
    | Failed(error: string)

  predicate Ok(r: Reply) {
    r.Ignored? || r.Granted? || r.GrantedAmountMismatch? || r.NoMatch?
  }

  /** `qris_webhook`, with `payload` the parsed body (`None` when it is not
      JSON). A customer id that `int()` refuses raises `ValueError`, which
      the handler turns into a failed reply. */
  function Handle(subs: map<int, Database.SubscriptionRow>, ps: seq<Database.PaymentRow>,
                  secret: string, c: Credentials, payload: Option<Payload>, now: int)
    : (r: (map<int, Database.SubscriptionRow>, seq<Database.PaymentRow>, Reply))
  {
    if !Authenticated(secret, c) then (subs, ps, Rejected)
    else if payload.None? then (subs, ps, InvalidJson)
    else
      var body := payload.value;
      if body.status != "completed" then (subs, ps, Ignored("status=" + body.status))
      else if body.customerId == "" then (subs, ps, NoMatch(body.orderId))
      else if body.userId.None? then
        (subs, ps, Failed("invalid literal for int() with base 10: '" + body.customerId + "'"))
      else
        match Database.LatestPending(ps, body.userId.value)
        case None => (subs, ps, NoMatch(body.orderId))
        case Some(pending) =>
          var done := Process(subs, ps, pending, now);
          if pending.amount == body.amount then (done.0, done.1, Granted(pending.transactionId))
          else (done.0, done.1, GrantedAmountMismatch(pending.transactionId))
  }

  /** `qris_webhook` on the store. */
  method QrisWebhook(db: Database.Store, secret: string, c: Credentials, payload: Option<Payload>, now: int)
    returns (reply: Reply)
    requires db.Valid()
    modifies db`payments, db`subscriptions
    ensures db.Valid()
    ensures (db.subscriptions, db.payments, reply) == Handle(old(db.subscriptions), old(db.payments), secret, c, payload, now)
  {
    var verified := false;
    if secret != "" {
      if Sent(c.signature) && VerifySignature(c.bodyHmac, c.signature, secret) {
        verified := true;
      } else if Sent(c.headerSecret) && VerifySimpleSecret(c.headerSecret, secret) {
        verified := true;
      }
      if !verified {
        return Rejected;
      }
    } else {
      verified := true;
    }
    if payload.None? {
      return InvalidJson;
    }
    var body := payload.value;
    if body.status != "completed" {
      return Ignored("status=" + body.status);
    }
    if body.customerId != "" {
      if body.userId.None? {
        return Failed("invalid literal for int() with base 10: '" + body.customerId + "'");
      }
      var pending := db.GetPendingPayment(body.userId.value);
      if pending.Some? {
        var _ := ProcessWebhookPayment(db, pending.value, now);
        if pending.value.amount == body.amount {
          return Granted(pending.value.transactionId);
        }
        return GrantedAmountMismatch(pending.value.transactionId);
      }
    }
    reply := NoMatch(body.orderId);
  }

  /** Only a processed reply changes the tables: a rejected, malformed,
      ignored, unmatched or failed call leaves payments and subscriptions
      as they were. */
  lemma HandleChangesOnlyWhenMatched(subs: map<int, Database.SubscriptionRow>, ps: seq<Database.PaymentRow>,
                                     secret: string, c: Credentials, payload: Option<Payload>, now: int)
    ensures var r := Handle(subs, ps, secret, c, payload, now);
      !(r.2.Granted? || r.2.GrantedAmountMismatch?) ==> r.0 == subs && r.1 == ps
    ensures var r := Handle(subs, ps, secret, c, payload, now);
      r.2 == Rejected <==> !Authenticated(secret, c)
    ensures var r := Handle(subs, ps, secret, c, payload, now);
      Authenticated(secret, c) && payload.Some? && payload.value.status != "completed" ==>
        r.2 == Ignored("status=" + payload.value.status)
  {
  }

  /** A completed payload from a customer with a pending payment processes
      the newest pending payment whether or not the amount matches; only the
      label differs. */
  lemma HandleProcessesPending(subs: map<int, Database.SubscriptionRow>, ps: seq<Database.PaymentRow>,
                               secret: string, c: Credentials, body: Payload, userId: int, now: int)
    requires Authenticated(secret, c) && body.status == "completed"
    requires body.customerId != "" && body.userId == Some(userId)
    ensures var r := Handle(subs, ps, secret, c, Some(body), now);
      var pending := Database.LatestPending(ps, userId);
      (pending.None? ==> r == (subs, ps, NoMatch(body.orderId)))
      && (pending.Some? ==>
            var done := Process(subs, ps, pending.value, now);
            r.0 == done.0 && r.1 == done.1
            && Database.IsPendingOf(pending.value, userId)
            && (r.2 == Granted(pending.value.transactionId) <==> pending.value.amount == body.amount)
            && (r.2 == GrantedAmountMismatch(pending.value.transactionId) <==> pending.value.amount != body.amount))
  {
  }

  /** Replaying the same completed webhook after it was processed changes
      nothing more, so a payment is never granted twice. */
  lemma HandleReplay(subs: map<int, Database.SubscriptionRow>, ps: seq<Database.PaymentRow>,
                     secret: string, c: Credentials, body: Payload, now: int, later: int)
    requires Authenticated(secret, c) && body.status == "completed"
    requires body.customerId != "" && body.userId.Some?
    requires Database.LatestPending(ps, body.userId.value).Some?
    ensures var pending := Database.LatestPending(ps, body.userId.value).value;
      var once := Handle(subs, ps, secret, c, Some(body), now);
      Process(once.0, once.1, pending, later) == (once.0, once.1, AlreadyProcessed)
  {
    var pending := Database.LatestPending(ps, body.userId.value).value;
    ProcessTwice(false, subs, ps, pending, now, later);
  }
}
