/**
 * The profile page (`ProfileModel`): the caller's name, membership date,
 * renewal date and usage counts, and the request to cancel the subscription
 * at the end of the billing period.
 */
module ProfilePage {
  import opened Common
  import opened Entities
  import opened Store
  import opened Http
  import opened Analytics
  import StatsPage
  import VCardManager

  /** `FindByIdAsync(userId)` */
  function UserPosition(users: seq<IdentityUser>, userId: Option<string>): (pos: Option<nat>)
    ensures pos.Some? ==> pos.value < |users| && Some(users[pos.value].id) == userId
    ensures pos.None? <==> forall i | 0 <= i < |users| :: Some(users[i].id) != userId
  {
    FirstWhere(users, (u: IdentityUser) => Some(u.id) == userId)
  }

  /** The caller's first active subscription. */
  function ActiveSubscription(subscriptions: seq<MemberSubscription>, userId: Option<string>): (pos: Option<nat>)
    ensures pos.Some? ==> pos.value < |subscriptions| && Some(subscriptions[pos.value].userId) == userId
                          && subscriptions[pos.value].isActive
    ensures pos.None? <==> forall i | 0 <= i < |subscriptions| ::
      Some(subscriptions[i].userId) != userId || !subscriptions[i].isActive
  {
    FirstWhere(subscriptions, (s: MemberSubscription) => Some(s.userId) == userId && s.isActive)
  }

  /** How many of the rows a click joins to on `UrlShortId == Id` are the user's live URLs. */
  function JoinedOwnedUrls(rows: seq<UrlShort>, urlShortId: nat, userId: string): nat
  {
    CountWhere(rows, (u: UrlShort) => u.id == urlShortId && u.userId == userId && !u.isDeleted)
  }

  /** The join of clicks with URLs, restricted to the user's live URLs, counted pair by pair. */
  function JoinedClickCount(clicks: seq<ClickStat>, rows: seq<UrlShort>, userId: string): nat
  {
    if clicks == [] then 0
    else JoinedOwnedUrls(rows, clicks[0].urlShortId, userId) + JoinedClickCount(clicks[1..], rows, userId)
  }

  /** `VCards.CountAsync(v => v.UserId == userId)`: no `IsDeleted` filter. */
  function UserVCardCount(cards: seq<VCard>, userId: string): nat
  {
    CountWhere(cards, (v: VCard) => v.userId == userId)
  }

  /**
   * The profile's vCard count is never below the quota's live count, and
   * equals it exactly when none of the caller's cards is deleted.
   */
  lemma {:induction false} VCardCountIncludesDeleted(cards: seq<VCard>, userId: string)
    ensures VCardManager.LiveVCardCount(cards, userId) <= UserVCardCount(cards, userId)
    ensures VCardManager.LiveVCardCount(cards, userId) == UserVCardCount(cards, userId) <==>
      forall i | 0 <= i < |cards| :: cards[i].userId == userId ==> !cards[i].isDeleted
  {
    if cards != [] {
      var c, rest := cards[0], cards[1..];
      VCardCountIncludesDeleted(rest, userId);
      assert UserVCardCount(cards, userId) == (if c.userId == userId then 1 else 0) + UserVCardCount(rest, userId);
      assert VCardManager.LiveVCardCount(cards, userId) ==
             (if c.userId == userId && !c.isDeleted then 1 else 0) + VCardManager.LiveVCardCount(rest, userId);
      assert forall i | 0 <= i < |rest| :: rest[i] == cards[i + 1];
    }
  }

  datatype ProfileView = ProfileView(
    username: string,
    memberSince: nat,
    subscriptionRenewalDate: Option<nat>,
    shortUrlCount: nat,
    vCardCount: nat,
    totalClicks: nat)

  datatype ProfileOutcome = ProfileNotFound | Profile(view: ProfileView)

  /**
   * `OnGetAsync`. `createdAtClaim` is the user's "CreatedAt" claim when it is
   * present and `DateTime.TryParse` accepts it; the page falls back to now.
   */
  function ProfileOf(db: Db, userId: Option<string>, createdAtClaim: Option<nat>, now: nat): (outcome: ProfileOutcome)
    reads db
    ensures outcome == ProfileNotFound <==> forall i | 0 <= i < |db.users| :: Some(db.users[i].id) != userId
    ensures outcome.Profile? ==>
      && (exists i | 0 <= i < |db.users| :: Some(db.users[i].id) == userId && db.users[i].userName == outcome.view.username)
      && outcome.view.memberSince == (if createdAtClaim.Some? then createdAtClaim.value else now)
      && var subscription := ActiveSubscription(db.memberSubscriptions, userId);
      && outcome.view.subscriptionRenewalDate ==
           (if subscription.Some? then db.memberSubscriptions[subscription.value].nextBillingDate else None)
      // the caller's live URLs, every vCard of the caller's (deleted ones too), and the joined clicks
      && outcome.view.shortUrlCount == |UserUrls(db.urlShorts, userId.value)|
      && outcome.view.vCardCount == UserVCardCount(db.vCards, userId.value)
      && outcome.view.totalClicks == JoinedClickCount(db.clickStats, db.urlShorts, userId.value)
  {
    match UserPosition(db.users, userId)
    case None => ProfileNotFound
    case Some(p) =>
      var subscription := ActiveSubscription(db.memberSubscriptions, userId);
      Profile(ProfileView(
        db.users[p].userName,
        if createdAtClaim.Some? then createdAtClaim.value else now,
        if subscription.Some? then db.memberSubscriptions[subscription.value].nextBillingDate else None,
        |UserUrls(db.urlShorts, userId.value)|,
        UserVCardCount(db.vCards, userId.value),
        JoinedClickCount(db.clickStats, db.urlShorts, userId.value)))
  }

  /** With distinct URL ids a click joins at most one URL: one when its URL is a live URL of the user's. */
  lemma {:induction false} JoinedOwnedUrlsIsIndicator(rows: seq<UrlShort>, urlShortId: nat, userId: string)
    requires forall i, j | 0 <= i < j < |rows| :: rows[i].id != rows[j].id
    ensures JoinedOwnedUrls(rows, urlShortId, userId) ==
      if exists i | 0 <= i < |rows| :: rows[i].id == urlShortId && rows[i].userId == userId && !rows[i].isDeleted then 1 else 0
  {
    var p := (u: UrlShort) => u.id == urlShortId && u.userId == userId && !u.isDeleted;
    if rows != [] {
      forall i, j | 0 <= i < j < |rows[1..]| ensures rows[1..][i].id != rows[1..][j].id {
        assert rows[1..][i] == rows[i + 1] && rows[1..][j] == rows[j + 1];
      }
      if p(rows[0]) {
        forall i | 0 <= i < |rows[1..]| ensures !p(rows[1..][i]) {
          assert rows[1..][i] == rows[i + 1];
        }
        FilterNone(rows[1..], p);
      } else {
        JoinedOwnedUrlsIsIndicator(rows[1..], urlShortId, userId);
        assert (exists i | 0 <= i < |rows| :: p(rows[i])) <==> (exists i | 0 <= i < |rows[1..]| :: p(rows[1..][i])) by {
          if exists i | 0 <= i < |rows| :: p(rows[i]) {
            var i :| 0 <= i < |rows| && p(rows[i]);
            assert rows[1..][i - 1] == rows[i];
          }
          if exists i | 0 <= i < |rows[1..]| :: p(rows[1..][i]) {
            var i :| 0 <= i < |rows[1..]| && p(rows[1..][i]);
            assert rows[i + 1] == rows[1..][i];
          }
        }
      }
    }
  }

  /** The joined count is the number of clicks whose URL is one of the user's live URLs. */
  lemma {:induction false} JoinedCountIsCountedClicks(clicks: seq<ClickStat>, rows: seq<UrlShort>, userId: string)
    requires forall i, j | 0 <= i < j < |rows| :: rows[i].id != rows[j].id
    ensures JoinedClickCount(clicks, rows, userId) ==
            |StatsPage.CountedClicks(clicks, StatsPage.IdsOf(UserUrls(rows, userId)), None, None)|
  {
    if clicks != [] {
      var ids := StatsPage.IdsOf(UserUrls(rows, userId));
      JoinedCountIsCountedClicks(clicks[1..], rows, userId);
      JoinedOwnedUrlsIsIndicator(rows, clicks[0].urlShortId, userId);
      OwnedIdIff(rows, userId, clicks[0].urlShortId);
      assert StatsPage.CountedClicks(clicks, ids, None, None) ==
        (if StatsPage.Counted(clicks[0], ids, None, None) then [clicks[0]] else []) + StatsPage.CountedClicks(clicks[1..], ids, None, None);
    }
  }

  /** An id belongs to one of the user's live URLs iff some live row of the user's has it. */
  lemma OwnedIdIff(rows: seq<UrlShort>, userId: string, x: nat)
    ensures x in StatsPage.IdsOf(UserUrls(rows, userId)) <==>
      exists i | 0 <= i < |rows| :: rows[i].id == x && rows[i].userId == userId && !rows[i].isDeleted
  {
    var urls := UserUrls(rows, userId);
    if x in StatsPage.IdsOf(urls) {
      var k :| 0 <= k < |urls| && urls[k].id == x;
      var i :| 0 <= i < |rows| && rows[i] == urls[k];
    }
    if exists i | 0 <= i < |rows| :: rows[i].id == x && rows[i].userId == userId && !rows[i].isDeleted {
      var i :| 0 <= i < |rows| && rows[i].id == x && rows[i].userId == userId && !rows[i].isDeleted;
      var k :| 0 <= k < |urls| && urls[k] == rows[i];
      assert x in StatsPage.IdsOf(urls);
    }
  }

  /**
   * The profile's total equals the statistics page's all-URL total with no
   * date window: both count the clicks of the caller's live URLs, once each.
   */
  lemma ProfileTotalMatchesStats(db: Db, userId: string, createdAtClaim: Option<nat>, now: nat)
    requires db.Valid()
    requires UserExists(db.users, userId)
    ensures ProfileOf(db, Some(userId), createdAtClaim, now).Profile?
    ensures StatsPage.AllUrlsStats(db.urlShorts, db.clickStats, db.users, Some(userId), None, None).AllStats?
    ensures ProfileOf(db, Some(userId), createdAtClaim, now).view.totalClicks ==
            StatsPage.AllUrlsStats(db.urlShorts, db.clickStats, db.users, Some(userId), None, None).totalClicks
    ensures ProfileOf(db, Some(userId), createdAtClaim, now).view.shortUrlCount ==
            |StatsPage.AllUrlsStats(db.urlShorts, db.clickStats, db.users, Some(userId), None, None).userUrls|
  {
    var i :| 0 <= i < |db.users| && db.users[i].id == userId;
    assert Some(db.users[i].id) == Some(userId);
    JoinedCountIsCountedClicks(db.clickStats, db.urlShorts, userId);
    StatsPage.AllStatsFigures(db.urlShorts, db.clickStats, db.users, Some(userId), None, None);
  }

  /** The record the cancel request appends: linked to the caller's id directly, not through `AuditService`. */
  function CancelLog(userId: Option<string>, now: nat): (log: AuditLog)
    ensures log.userId == userId && log.userIdString.None? && log.timestamp == now
  {
    AuditLog(userId, None, "CancelSubscription", "Subscription", "User canceled subscription", now)
  }

  /** `OnPostCancelSubscriptionAsync` */
  method OnPostCancelSubscription(db: Db, principal: Principal, now: nat) returns (cancelled: bool)
    modifies db`memberSubscriptions, db`auditLogs
    ensures cancelled <==> ActiveSubscription(old(db.memberSubscriptions), principal.userId).Some?
    ensures !cancelled ==> db.memberSubscriptions == old(db.memberSubscriptions) && db.auditLogs == old(db.auditLogs)
    ensures cancelled ==>
      && var pos := ActiveSubscription(old(db.memberSubscriptions), principal.userId).value;
      && db.memberSubscriptions == old(db.memberSubscriptions)[pos := old(db.memberSubscriptions)[pos].(cancelAtPeriodEnd := true)]
      && db.auditLogs == old(db.auditLogs) + [CancelLog(principal.userId, now)]
  {
    var pos := ActiveSubscription(db.memberSubscriptions, principal.userId);
    if pos.None? {
      return false;
    }
    db.SetSubscription(pos.value, db.memberSubscriptions[pos.value].(cancelAtPeriodEnd := true));
    db.AddAuditLog(CancelLog(principal.userId, now));
    return true;
  }

  /**
   * Cancelling ends nothing now: the subscription stays active with its
   * billing date, so it is still the one found, and a second request leaves
   * the subscriptions as the first left them.
   */
  lemma CancelKeepsSubscriptionUntilPeriodEnd(subscriptions: seq<MemberSubscription>, userId: Option<string>)
    requires ActiveSubscription(subscriptions, userId).Some?
    ensures var pos := ActiveSubscription(subscriptions, userId).value;
      var after := subscriptions[pos := subscriptions[pos].(cancelAtPeriodEnd := true)];
      && ActiveSubscription(after, userId) == Some(pos)
      && after[pos].isActive && after[pos].nextBillingDate == subscriptions[pos].nextBillingDate
      && after[pos := after[pos].(cancelAtPeriodEnd := true)] == after
  {
    var pos := ActiveSubscription(subscriptions, userId).value;
    var after := subscriptions[pos := subscriptions[pos].(cancelAtPeriodEnd := true)];
    FirstWhereStable(subscriptions, after, pos, (s: MemberSubscription) => Some(s.userId) == userId && s.isActive);
  }

  lemma {:induction false} FirstWhereStable<T>(xs: seq<T>, ys: seq<T>, pos: nat, p: T -> bool)
    requires |xs| == |ys| && FirstWhere(xs, p) == Some(pos)
    requires forall i | 0 <= i < |xs| :: p(xs[i]) == p(ys[i])
    ensures FirstWhere(ys, p) == Some(pos)
  {
    if pos > 0 {
      assert !p(xs[0]);
      assert forall i | 0 <= i < |xs[1..]| :: xs[1..][i] == xs[i + 1] && ys[1..][i] == ys[i + 1];
      FirstWhereStable(xs[1..], ys[1..], pos - 1, p);
    }
  }
}
