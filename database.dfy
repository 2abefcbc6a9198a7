/** The bot's SQLite store (`bot/database.py`), with its three tables held
    in memory: subscriptions keyed by user, payments in insertion (row id)
    order, and daily usage keyed by user and date. Time is integer seconds
    passed in as `now`; the WIB date key is passed in as text. */
module Database {
  import opened Wrappers
  import opened Strings

  /** One row of `subscriptions`. */
  datatype SubscriptionRow = SubscriptionRow(tier: string, expires: int, grantedBy: int, grantedAt: int)

  /** The three values the code ever writes into `payments.status`. */
  datatype PaymentStatus = Pending | Paid | Expired

  /** One row of `payments`. */
  datatype PaymentRow = PaymentRow(
    id: int, userId: int, transactionId: string, tier: string, duration: string,
    amount: int, status: PaymentStatus, createdAt: int, paidAt: int)

  /** One row of `daily_usage` (without its key). */
  datatype Usage = Usage(images: int, videos: int)

  datatype DbError = UniqueViolation

  /** `expires > now OR expires = 0`. */
  predicate Active(row: SubscriptionRow, now: int) {
    row.expires > now || row.expires == 0
  }

  /** Index of the row with the given transaction id. */
  function FindPayment(ps: seq<PaymentRow>, txn: string): (r: Option<nat>)
    ensures r.Some? ==> r.value < |ps| && ps[r.value].transactionId == txn
    ensures r.None? <==> forall i :: 0 <= i < |ps| ==> ps[i].transactionId != txn
  {
    if ps == [] then None
    else if ps[0].transactionId == txn then Some(0)
    else match FindPayment(ps[1..], txn)
      case None => None
      case Some(i) => Some(i + 1)
  }

  predicate IsPendingOf(p: PaymentRow, userId: int) {
    p.userId == userId && p.status == Pending
  }

  /** `... WHERE user_id = ? AND status = 'pending' ORDER BY created_at DESC
      LIMIT 1`; among rows created in the same second the earliest row wins. */
  function LatestPending(ps: seq<PaymentRow>, userId: int): (r: Option<PaymentRow>)
    ensures r.Some? ==> r.value in ps && IsPendingOf(r.value, userId)
    ensures r.Some? ==> forall p :: p in ps && IsPendingOf(p, userId) ==> p.createdAt <= r.value.createdAt
    ensures r.None? <==> forall p :: p in ps ==> !IsPendingOf(p, userId)
  {
    if ps == [] then None
    else
      var rest := LatestPending(ps[1..], userId);
      assert forall p :: p in ps ==> p == ps[0] || p in ps[1..];
      if IsPendingOf(ps[0], userId) && (rest.None? || ps[0].createdAt >= rest.value.createdAt) then
        Some(ps[0])
      else rest
  }

  /** Rows of one user, in row order. */
  function OfUser(ps: seq<PaymentRow>, userId: int): (r: seq<PaymentRow>)
    ensures forall p :: p in r <==> p in ps && p.userId == userId
    ensures |r| <= |ps|
  {
    if ps == [] then []
    else
      assert forall p :: p in ps ==> p == ps[0] || p in ps[1..];
      (if ps[0].userId == userId then [ps[0]] else []) + OfUser(ps[1..], userId)
  }

  predicate NewestFirst(ps: seq<PaymentRow>) {
    forall i, j :: 0 <= i < j < |ps| ==> ps[i].createdAt >= ps[j].createdAt
  }

  /** Insert one row into a newest-first list, after the rows at least as new. */
  function InsertNewest(p: PaymentRow, ps: seq<PaymentRow>): (r: seq<PaymentRow>)
    requires NewestFirst(ps)
    ensures NewestFirst(r)
    ensures forall q :: q in r <==> q in ps || q == p
    ensures multiset(r) == multiset(ps) + multiset{p}
  {
    if ps == [] then [p]
    else if ps[0].createdAt >= p.createdAt then
      var tail := InsertNewest(p, ps[1..]);
      assert ps == [ps[0]] + ps[1..];
      HeadIsNewest(ps);
      ConsNewest(ps[0], tail);
      [ps[0]] + tail
    else
      HeadIsNewest(ps);
      ConsNewest(p, ps);
      [p] + ps
  }

  lemma HeadIsNewest(ps: seq<PaymentRow>)
    requires ps != [] && NewestFirst(ps)
    ensures forall q :: q in ps ==> q.createdAt <= ps[0].createdAt
  {
  }

  lemma ConsNewest(x: PaymentRow, t: seq<PaymentRow>)
    requires NewestFirst(t) && forall q :: q in t ==> q.createdAt <= x.createdAt
    ensures NewestFirst([x] + t)
  {
    var r := [x] + t;
    forall i, j | 0 <= i < j < |r|
      ensures r[i].createdAt >= r[j].createdAt
    {
      if i > 0 {
        assert r[i] == t[i - 1] && r[j] == t[j - 1];
      } else {
        assert r[j] == t[j - 1] && r[j] in t;
      }
    }
  }

  /** `ORDER BY created_at DESC`. */
  function SortNewest(ps: seq<PaymentRow>): (r: seq<PaymentRow>)
    ensures NewestFirst(r)
    ensures multiset(r) == multiset(ps)
  {
    if ps == [] then []
    else
      assert ps == [ps[0]] + ps[1..];
      InsertNewest(ps[0], SortNewest(ps[1..]))
  }

  /** SQLite's `LIMIT`: a negative limit means no limit. */
  function Limit(ps: seq<PaymentRow>, limit: int): (r: seq<PaymentRow>)
    ensures r <= ps
    ensures limit >= 0 ==> |r| == if limit < |ps| then limit else |ps|
    ensures limit < 0 ==> r == ps
  {
    if 0 <= limit < |ps| then ps[..limit] else ps
  }

  /** A prefix of a newest-first list holds rows no older than any row it
      leaves out. */
  lemma {:induction false} PrefixIsNewest(s: seq<PaymentRow>, k: nat)
    requires NewestFirst(s) && k <= |s|
    ensures multiset(s[..k]) <= multiset(s)
    ensures forall p, q :: p in s[..k] && q in multiset(s) - multiset(s[..k]) ==> q.createdAt <= p.createdAt
  {
    assert s == s[..k] + s[k..];
    assert multiset(s) - multiset(s[..k]) == multiset(s[k..]);
    forall p, q | p in s[..k] && q in multiset(s) - multiset(s[..k])
      ensures q.createdAt <= p.createdAt
    {
      assert q in s[k..];
      var i :| 0 <= i < k && s[i] == p;
      var j :| 0 <= j < |s| - k && s[k..][j] == q;
      assert s[k + j] == q;
    }
  }

  /** `list_user_payments`: `min(limit, count)` of the user's rows (all of
      them for a negative limit), newest first, and none of the rows left out
      is newer than a row returned. */
  function UserPayments(ps: seq<PaymentRow>, userId: int, limit: int): (r: seq<PaymentRow>)
    ensures NewestFirst(r)
    ensures forall p :: p in r ==> p in ps && p.userId == userId
    ensures limit >= 0 ==> |r| == if limit < |OfUser(ps, userId)| then limit else |OfUser(ps, userId)|
    ensures limit < 0 ==> |r| == |OfUser(ps, userId)|
    ensures multiset(r) <= multiset(OfUser(ps, userId))
    ensures forall p, q :: p in r && q in multiset(OfUser(ps, userId)) - multiset(r) ==> q.createdAt <= p.createdAt
    ensures limit < 0 || |OfUser(ps, userId)| <= limit ==>
      multiset(r) == multiset(OfUser(ps, userId))
  {
    var sorted := SortNewest(OfUser(ps, userId));
    LimitOfNewest(sorted, limit);
    assert |sorted| == |multiset(sorted)| == |OfUser(ps, userId)|;
    Limit(sorted, limit)
  }

  lemma LimitOfNewest(sorted: seq<PaymentRow>, limit: int)
    requires NewestFirst(sorted)
    ensures var r := Limit(sorted, limit);
      && NewestFirst(r)
      && (forall p :: p in r ==> p in multiset(sorted))
      && multiset(r) <= multiset(sorted)
      && (forall p, q :: p in r && q in multiset(sorted) - multiset(r) ==> q.createdAt <= p.createdAt)
  {
    var r := Limit(sorted, limit);
    assert r == sorted[..|r|];
    PrefixIsNewest(sorted, |r|);
  }

  /** The new value of one row under `UPDATE payments SET status = <to> ...
      WHERE transaction_id = ? AND status = 'pending'`. */
  function SettleRow(p: PaymentRow, txn: string, to: PaymentStatus, paidAt: Option<int>): PaymentRow {
    if p.transactionId == txn && p.status == Pending then p.(status := to, paidAt := paidAt.GetOr(p.paidAt))
    else p
  }

  /** The whole `UPDATE`, with whether any row changed (`rowcount > 0`). */
  function Settle(ps: seq<PaymentRow>, txn: string, to: PaymentStatus, paidAt: Option<int>): (r: (seq<PaymentRow>, bool))
    ensures |r.0| == |ps|
    ensures forall i :: 0 <= i < |ps| ==> r.0[i] == SettleRow(ps[i], txn, to, paidAt)
    ensures r.1 <==> HasPending(ps, txn)
  {
    if ps == [] then ([], false)
    else
      var rest := Settle(ps[1..], txn, to, paidAt);
      HasPendingCons(ps, txn);
      ([SettleRow(ps[0], txn, to, paidAt)] + rest.0, (ps[0].transactionId == txn && ps[0].status == Pending) || rest.1)
  }

  /** Some pending row carries the transaction id. */
  predicate HasPending(ps: seq<PaymentRow>, txn: string) {
    exists i :: 0 <= i < |ps| && ps[i].transactionId == txn && ps[i].status == Pending
  }

  lemma HasPendingCons(ps: seq<PaymentRow>, txn: string)
    requires ps != []
    ensures HasPending(ps, txn) <==>
      (ps[0].transactionId == txn && ps[0].status == Pending) || HasPending(ps[1..], txn)
  {
    if HasPending(ps[1..], txn) {
      var k :| 0 <= k < |ps| - 1 && ps[1..][k].transactionId == txn && ps[1..][k].status == Pending;
      assert ps[k + 1] == ps[1..][k];
    }
    if HasPending(ps, txn) {
      var k :| 0 <= k < |ps| && ps[k].transactionId == txn && ps[k].status == Pending;
      if k > 0 { assert ps[1..][k - 1] == ps[k]; }
    }
  }

  /** Transaction ids are unique (the `UNIQUE` constraint). */
  predicate UniqueTransactions(ps: seq<PaymentRow>) {
    forall i, j :: 0 <= i < j < |ps| ==> ps[i].transactionId != ps[j].transactionId
  }

  class Store {
    var subscriptions: map<int, SubscriptionRow>
    var payments: seq<PaymentRow>
    var nextPaymentId: int
    var usage: map<(int, string), Usage>

    /** Row ids are increasing and below the next id; transaction ids are
        unique. */
    ghost predicate Valid()
      reads this
    {
      UniqueTransactions(payments)
      && (forall i :: 0 <= i < |payments| ==> payments[i].id < nextPaymentId)
      && (forall i, j :: 0 <= i < j < |payments| ==> payments[i].id < payments[j].id)
    }

    /** `_init_tables` on a fresh file: three empty tables. */
    constructor ()
      ensures Valid()
      ensures subscriptions == map[] && payments == [] && usage == map[]
    {
      subscriptions := map[];
      payments := [];
      nextPaymentId := 1;
      usage := map[];
    }

    /** `get_subscription`. */
    function GetSubscription(userId: int): (r: Option<SubscriptionRow>)
      reads this
      ensures r.Some? <==> userId in subscriptions
      ensures r.Some? ==> r.value == subscriptions[userId]
    {
      if userId in subscriptions then Some(subscriptions[userId]) else None
    }

    /** `upsert_subscription`: all four fields replaced, other users untouched. */
    method UpsertSubscription(userId: int, tier: string, expires: int, grantedBy: int, grantedAt: int)
      requires Valid()
      modifies this`subscriptions
      ensures Valid()
      ensures subscriptions == old(subscriptions)[userId := SubscriptionRow(tier, expires, grantedBy, grantedAt)]
    {
      subscriptions := subscriptions[userId := SubscriptionRow(tier, expires, grantedBy, grantedAt)];
    }

    /** `delete_subscription`: true iff a row existed. */
    method DeleteSubscription(userId: int) returns (deleted: bool)
      requires Valid()
      modifies this`subscriptions
      ensures Valid()
      ensures deleted <==> userId in old(subscriptions)
      ensures subscriptions == old(subscriptions) - {userId}
    {
      deleted := userId in subscriptions;
      subscriptions := subscriptions - {userId};
    }

    /** `list_active_subscriptions`, as a map from user id to row. */
    function ListActiveSubscriptions(now: int): (r: map<int, SubscriptionRow>)
      reads this
      ensures forall u :: u in r <==> u in subscriptions && Active(subscriptions[u], now)
      ensures forall u :: u in r ==> r[u] == subscriptions[u]
    {
      map u | u in subscriptions && Active(subscriptions[u], now) :: subscriptions[u]
    }

    /** `create_payment`: a new pending row created now, or the integrity
        error when the transaction id is taken. */
    method CreatePayment(userId: int, transactionId: string, tier: string, duration: string,
                         amount: int, now: int) returns (r: Result<PaymentRow, DbError>)
      requires Valid()
      modifies this`payments, this`nextPaymentId
      ensures Valid()
      ensures old(FindPayment(payments, transactionId)).Some? ==>
        r == Err(UniqueViolation) && payments == old(payments)
      ensures old(FindPayment(payments, transactionId)).None? ==>
        r.Ok? && r.value.status == Pending && r.value.createdAt == now && r.value.paidAt == 0
        && r.value.userId == userId && r.value.transactionId == transactionId
        && r.value.amount == amount && r.value.tier == tier && r.value.duration == duration
        && payments == old(payments) + [r.value]
    {
      if FindPayment(payments, transactionId).Some? {
        return Err(UniqueViolation);
      }
      var row := PaymentRow(nextPaymentId, userId, transactionId, tier, duration, amount, Pending, now, 0);
      payments := payments + [row];
      nextPaymentId := nextPaymentId + 1;
      r := Ok(row);
    }

    /** `get_payment`. */
    function GetPayment(transactionId: string): (r: Option<PaymentRow>)
      reads this
      ensures r.Some? ==> r.value in payments && r.value.transactionId == transactionId
      ensures r.None? <==> forall p :: p in payments ==> p.transactionId != transactionId
    {
      match FindPayment(payments, transactionId)
      case None => None
      case Some(i) => Some(payments[i])
    }

    /** `get_pending_payment`. */
    function GetPendingPayment(userId: int): (r: Option<PaymentRow>)
      reads this
      ensures r.Some? ==> r.value in payments && IsPendingOf(r.value, userId)
      ensures r.Some? ==> forall p :: p in payments && IsPendingOf(p, userId) ==> p.createdAt <= r.value.createdAt
      ensures r.None? <==> forall p :: p in payments ==> !IsPendingOf(p, userId)
    {
      LatestPending(payments, userId)
    }

    /** `list_user_payments`. */
    function ListUserPayments(userId: int, limit: int): (r: seq<PaymentRow>)
      reads this
      ensures NewestFirst(r)
      ensures forall p :: p in r ==> p in payments && p.userId == userId
      ensures limit >= 0 ==> |r| == if limit < |OfUser(payments, userId)| then limit else |OfUser(payments, userId)|
      ensures limit < 0 ==> |r| == |OfUser(payments, userId)|
      ensures forall p, q :: p in r && q in multiset(OfUser(payments, userId)) - multiset(r) ==>
        q.createdAt <= p.createdAt
    {
      UserPayments(payments, userId, limit)
    }

    /** `mark_payment_paid`. */
    method MarkPaymentPaid(transactionId: string, now: int) returns (changed: bool)
      requires Valid()
      modifies this`payments
      ensures Valid()
      ensures (payments, changed) == Settle(old(payments), transactionId, Paid, Some(now))
    {
      var s := Settle(payments, transactionId, Paid, Some(now));
      payments, changed := s.0, s.1;
      assert forall i :: 0 <= i < |payments| ==> payments[i].id == old(payments)[i].id && payments[i].transactionId == old(payments)[i].transactionId;
    }

    /** `mark_payment_expired`. */
    method MarkPaymentExpired(transactionId: string) returns (changed: bool)
      requires Valid()
      modifies this`payments
      ensures Valid()
      ensures (payments, changed) == Settle(old(payments), transactionId, Expired, None)
    {
      var s := Settle(payments, transactionId, Expired, None);
      payments, changed := s.0, s.1;
      assert forall i :: 0 <= i < |payments| ==> payments[i].id == old(payments)[i].id && payments[i].transactionId == old(payments)[i].transactionId;
    }

    /** `get_usage` for the given date key: zeros when there is no row. */
    function GetUsage(userId: int, dateKey: string): (r: Usage)
      reads this
      ensures (userId, dateKey) in usage ==> r == usage[(userId, dateKey)]
      ensures (userId, dateKey) !in usage ==> r == Usage(0, 0)
    {
      if (userId, dateKey) in usage then usage[(userId, dateKey)] else Usage(0, 0)
    }

    /** `add_usage`: the deltas are added to the row, created from zero. */
    method AddUsage(userId: int, dateKey: string, images: int, videos: int) returns (r: Usage)
      requires Valid()
      modifies this`usage
      ensures Valid()
      ensures r == Usage(old(GetUsage(userId, dateKey)).images + images, old(GetUsage(userId, dateKey)).videos + videos)
      ensures usage == old(usage)[(userId, dateKey) := r]
      ensures r == GetUsage(userId, dateKey)
    {
      var current := GetUsage(userId, dateKey);
      r := Usage(current.images + images, current.videos + videos);
      usage := usage[(userId, dateKey) := r];
    }

    /** `reset_all_daily_usage`: every row deleted, the count returned. */
    method ResetAllDailyUsage() returns (count: nat)
      requires Valid()
      modifies this`usage
      ensures Valid()
      ensures usage == map[] && count == |old(usage)|
    {
      count := |usage|;
      usage := map[];
    }

    /** `cleanup_old_usage` with its cutoff date key computed by the caller:
        exactly the rows whose date key sorts before the cutoff go. */
    method CleanupOldUsage(cutoff: string) returns (count: nat)
      requires Valid()
      modifies this`usage
      ensures Valid()
      ensures forall k :: k in usage <==> k in old(usage) && !StrLess(k.1, cutoff)
      ensures forall k :: k in usage ==> usage[k] == old(usage)[k]
      ensures count == |old(usage)| - |usage|
    {
      var kept := map k | k in usage && !StrLess(k.1, cutoff) :: usage[k];
      assert kept.Keys <= usage.Keys;
      SubsetCard(kept.Keys, usage.Keys);
      count := |usage| - |kept|;
      usage := kept;
    }
  }

  lemma SubsetCard<T>(a: set<T>, b: set<T>)
    requires a <= b
    ensures |a| <= |b|
  {
    if a != {} {
      var x :| x in a;
      SubsetCard(a - {x}, b - {x});
    }
  }

  /** Settling only ever moves a pending row: a paid or expired row stays as
      it is, whatever is applied to it. */
  lemma SettledIsTerminal(ps: seq<PaymentRow>, txn: string, to: PaymentStatus, paidAt: Option<int>, i: nat)
    requires i < |ps| && ps[i].status != Pending
    ensures Settle(ps, txn, to, paidAt).0[i] == ps[i]
  {
  }

  /** Marking the same transaction twice changes nothing the second time, so
      a repeated webhook grants once. */
  lemma SettleTwice(ps: seq<PaymentRow>, txn: string, to: PaymentStatus, paidAt: Option<int>, paidAt2: Option<int>)
    requires to != Pending
    ensures var once := Settle(ps, txn, to, paidAt).0;
      Settle(once, txn, to, paidAt2) == (once, false)
  {
    var once := Settle(ps, txn, to, paidAt).0;
    var twice := Settle(once, txn, to, paidAt2);
    assert twice.0 == once;
  }
}
