/**
 * The preview page (`PreviewModel`): a short URL's details and click figures
 * by code, and its delete button.
 *
 * The page reads the short URL through the memory cache under the same key
 * the redirect endpoint uses (`ShortUrl_{code}`), but with its own factory,
 * which skips deleted rows. Every outcome writes one audit record under the
 * caller's name.
 */
module PreviewPage {
  import opened Common
  import opened Entities
  import opened Store
  import opened Http
  import opened Analytics
  import opened AuditService
  import UrlShortening
  import Redirect

  /** The preview's cache factory: the first live row with that code, or null. */
  function LoadLive(rows: seq<UrlShort>, code: string): (u: Option<UrlShort>)
    ensures u.Some? ==> u.value in rows && u.value.code == code && !u.value.isDeleted
    ensures u.None? <==> forall i | 0 <= i < |rows| :: rows[i].code != code || rows[i].isDeleted
  {
    UrlShortening.GetShortUrl(rows, code)
  }

  /** `GetUserAsync(User)` found a user row, and it holds Basic, Professional or Enterprise. */
  predicate IsBasicOrHigher(users: seq<IdentityUser>, userId: Option<string>)
  {
    && userId.Some?
    && UserExists(users, userId.value)
    && var roles := RolesOf(users, userId.value);
       RoleBasic in roles || RoleProfessional in roles || RoleEnterprise in roles
  }

  datatype PreviewView = PreviewView(
    shortUrl: UrlShort,
    clickStats: seq<ClickStat>,                 // the 50 newest clicks, for Basic or higher only
    clicksCount: nat,
    clickCountsByDestination: map<nat, nat>,
    clickCountsByOgMetadata: map<nat, nat>,
    isBasicOrHigher: bool)

  datatype PreviewOutcome =
    | EmptySlug      // "Slug cannot be empty."
    | UrlNotFound    // "No URL found for the provided slug."
    | UrlExpired     // "This URL has expired."
    | Previewed(view: PreviewView)

  /** What `OnGetAsync` shows for the snapshot it obtained, for a code that is not blank. */
  function PreviewOf(snapshot: Option<UrlShort>, clicks: seq<ClickStat>, users: seq<IdentityUser>,
                     userId: Option<string>, now: nat): (outcome: PreviewOutcome)
    ensures outcome != EmptySlug
    ensures outcome == UrlNotFound <==> snapshot.None?
    ensures outcome == UrlExpired <==> snapshot.Some? && IsExpired(snapshot.value, now)
    ensures outcome.Previewed? ==>
      && outcome.view.shortUrl == snapshot.value
      && outcome.view.clicksCount == |ClicksOf(clicks, snapshot.value.id)|
      && (outcome.view.isBasicOrHigher <==> IsBasicOrHigher(users, userId))
  {
    if snapshot.None? then UrlNotFound
    else if IsExpired(snapshot.value, now) then UrlExpired
    else
      var u := snapshot.value;
      var all := ClicksOf(clicks, u.id);
      var basic := IsBasicOrHigher(users, userId);
      Previewed(PreviewView(u, if basic then Recent(all) else [], |all|,
                            GroupCounts(DestinationKeys(all)), GroupCounts(OgKeys(all)), basic))
  }

  /** The audit action and details each outcome records. */
  function PreviewAudit(outcome: PreviewOutcome, code: string): (string, string)
  {
    match outcome
    case EmptySlug => ("Invalid slug provided for preview", "Invalid slug")
    case UrlNotFound => ("Failed to find URL for slug: " + code, "URL not found")
    case UrlExpired => ("Attempted to view expired URL: " + code, "Expired URL")
    case Previewed(_) => ("Viewed preview for slug: " + code, "Preview viewed")
  }

  /** `OnGetAsync` */
  method OnGet(db: Db, cache: MemoryCache, principal: Principal, code: Option<string>, now: nat)
    returns (outcome: PreviewOutcome)
    modifies db`auditLogs, cache
    ensures IsNullOrWhiteSpace(code) ==> outcome == EmptySlug && cache.entries == old(cache.entries)
    ensures !IsNullOrWhiteSpace(code) ==>
      var key := Redirect.CodeCacheKey(code.value);
      var snapshot := CachedOrLoaded(old(cache.entries), key, now, LoadLive(db.urlShorts, code.value));
      && outcome == PreviewOf(snapshot, db.clickStats, db.users, principal.userId, now)
      && cache.entries == old(cache.entries)[key := CacheEntry(snapshot, now)]
    ensures db.auditLogs == old(db.auditLogs) +
      [AuditEntry(db.users, principal.name, PreviewAudit(outcome, OrEmpty(code)).0, "ShortUrl",
                  PreviewAudit(outcome, OrEmpty(code)).1, now)]
  {
    if IsNullOrWhiteSpace(code) {
      var _ := Log(db, principal.name, "Invalid slug provided for preview", "ShortUrl", "Invalid slug", now);
      return EmptySlug;
    }
    var snapshot, _ := cache.GetOrCreate(Redirect.CodeCacheKey(code.value), now, LoadLive(db.urlShorts, code.value));
    if snapshot.None? {
      var _ := Log(db, principal.name, "Failed to find URL for slug: " + code.value, "ShortUrl", "URL not found", now);
      return UrlNotFound;
    }
    var u := snapshot.value;
    if IsExpired(u, now) {
      var _ := Log(db, principal.name, "Attempted to view expired URL: " + code.value, "ShortUrl", "Expired URL", now);
      return UrlExpired;
    }
    var isBasicOrHigher := IsBasicOrHigher(db.users, principal.userId);
    var all := ClicksOf(db.clickStats, u.id);
    var clickStats := [];
    if isBasicOrHigher {
      clickStats := Recent(all);
    }
    outcome := Previewed(PreviewView(u, clickStats, |all|, GroupCounts(DestinationKeys(all)), GroupCounts(OgKeys(all)),
                                     isBasicOrHigher));
    var _ := Log(db, principal.name, "Viewed preview for slug: " + code.value, "ShortUrl", "Preview viewed", now);
  }

  /**
   * The figures of a preview agree with one another: the count is the URL's
   * click total; both dictionaries have a key exactly for each id that occurs
   * (null under 0), and their counts sum to that total; the click list is
   * shown to Basic or higher only, and then holds the min(50, total) newest
   * of the URL's clicks.
   */
  lemma PreviewFigures(snapshot: Option<UrlShort>, clicks: seq<ClickStat>, users: seq<IdentityUser>,
                       userId: Option<string>, now: nat)
    requires PreviewOf(snapshot, clicks, users, userId, now).Previewed?
    ensures var view := PreviewOf(snapshot, clicks, users, userId, now).view;
      var all := ClicksOf(clicks, view.shortUrl.id);
      && view.shortUrl == snapshot.value && !IsExpired(view.shortUrl, now)
      && view.clicksCount == |all|
      && (forall k :: k in view.clickCountsByDestination <==> k in DestinationKeys(all))
      && (forall k :: k in view.clickCountsByOgMetadata <==> k in OgKeys(all))
      && SumOf(CountsFor(GroupKeys(DestinationKeys(all)), DestinationKeys(all))) == view.clicksCount
      && SumOf(CountsFor(GroupKeys(OgKeys(all)), OgKeys(all))) == view.clicksCount
      && (forall k | k in view.clickCountsByDestination :: view.clickCountsByDestination[k] >= 1)
      && (view.isBasicOrHigher <==> IsBasicOrHigher(users, userId))
      && (!view.isBasicOrHigher ==> view.clickStats == [])
      && (view.isBasicOrHigher ==>
            && |view.clickStats| == (if view.clicksCount <= RecentLimit then view.clicksCount else RecentLimit)
            && NewestFirstOrder(view.clickStats)
            && multiset(view.clickStats) <= multiset(all))
  {
    var all := ClicksOf(clicks, snapshot.value.id);
    var _ := GroupCounts(DestinationKeys(all));
    var _ := GroupCounts(OgKeys(all));
    RecentProperties(all);
  }

  /**
   * On a cache miss the page shows only what its own factory loads: the
   * first live row with the code, and only when it has not expired.
   */
  lemma MissPreviewsLiveRow(entries: map<string, CacheEntry>, rows: seq<UrlShort>, clicks: seq<ClickStat>,
                            users: seq<IdentityUser>, userId: Option<string>, code: string, now: nat)
    requires !IsLive(entries, Redirect.CodeCacheKey(code), now)
    ensures var outcome := PreviewOf(CachedOrLoaded(entries, Redirect.CodeCacheKey(code), now, LoadLive(rows, code)),
                                     clicks, users, userId, now);
      && (outcome.Previewed? ==> outcome.view.shortUrl in rows && outcome.view.shortUrl.code == code
                                 && !outcome.view.shortUrl.isDeleted && !IsExpired(outcome.view.shortUrl, now))
      && (outcome == UrlNotFound <==> forall i | 0 <= i < |rows| :: rows[i].code != code || rows[i].isDeleted)
  {
  }

  /**
   * The key is shared with the redirect endpoint, whose factory does not skip
   * deleted rows: a deleted row the redirect cached less than five minutes
   * ago is previewed as if it were live.
   */
  lemma SharedKeyPreviewsDeletedRow()
    ensures var row := UrlShort(1, "abc", "owner", 0, None, None, 0, 0, true, Some(0), [], []);
      var rows := [row];
      var entries := map[Redirect.CodeCacheKey("abc") := CacheEntry(Redirect.LoadByCode(rows, "abc"), 0)];
      var outcome := PreviewOf(CachedOrLoaded(entries, Redirect.CodeCacheKey("abc"), 1, LoadLive(rows, "abc")), [], [], None, 1);
      && LoadLive(rows, "abc").None?
      && outcome.Previewed? && outcome.view.shortUrl.isDeleted
  {
    var row := UrlShort(1, "abc", "owner", 0, None, None, 0, 0, true, Some(0), [], []);
    var rows := [row];
    assert Redirect.PositionByCode(rows, "abc") == Some(0);
  }

  // ---------------------------------------------------------------------------
  // OnPostDeleteAsync
  // ---------------------------------------------------------------------------

  datatype DeleteOutcome =
    | BlankSlug        // "Slug cannot be empty."
    | NothingToDelete  // "No URL found for the provided slug."
    | NotAuthorized    // "You are not authorized to delete this URL."
    | Deleted          // redirect to /Index

  /** The owner, or a caller whose claims hold Admin, may delete. */
  predicate MayDelete(u: UrlShort, principal: Principal)
  {
    principal.userId == Some(u.userId) || RoleAdmin in principal.roles
  }

  /** What the delete handler decides, for the table as it finds it. */
  function DeleteVerdict(rows: seq<UrlShort>, principal: Principal, code: Option<string>): (verdict: DeleteOutcome)
    ensures verdict == BlankSlug <==> IsNullOrWhiteSpace(code)
    ensures verdict == NothingToDelete <==>
      !IsNullOrWhiteSpace(code) && forall i | 0 <= i < |rows| :: rows[i].code != code.value || rows[i].isDeleted
    ensures verdict == Deleted ==>
      && var pos := UrlShortening.LivePositionByCode(rows, code.value);
      && pos.Some? && MayDelete(rows[pos.value], principal)
    ensures verdict == NotAuthorized ==>
      && var pos := UrlShortening.LivePositionByCode(rows, code.value);
      && pos.Some? && !MayDelete(rows[pos.value], principal)
  {
    if IsNullOrWhiteSpace(code) then BlankSlug
    else match UrlShortening.LivePositionByCode(rows, code.value)
      case None => NothingToDelete
      case Some(i) => if MayDelete(rows[i], principal) then Deleted else NotAuthorized
  }

  function DeleteAudit(outcome: DeleteOutcome, code: string): (string, string)
  {
    match outcome
    case BlankSlug => ("Invalid slug provided for deletion", "Invalid slug")
    case NothingToDelete => ("Failed to find URL for deletion: " + code, "URL not found")
    case NotAuthorized => ("Unauthorized deletion attempt for slug: " + code, "Unauthorized")
    case Deleted => ("Deleted URL with slug: " + code, "URL deleted")
  }

  /** `OnPostDeleteAsync`: soft-deletes through the service, records it, and drops the cached entry for the code. */
  method OnPostDelete(db: Db, cache: MemoryCache, principal: Principal, code: Option<string>, now: nat)
    returns (outcome: DeleteOutcome)
    requires db.Valid()
    modifies db`urlShorts, db`auditLogs, cache
    ensures db.Valid()
    ensures outcome == DeleteVerdict(old(db.urlShorts), principal, code)
    ensures outcome != Deleted ==> db.urlShorts == old(db.urlShorts) && cache.entries == old(cache.entries)
    ensures outcome == Deleted ==>
      && db.urlShorts == UrlShortening.AfterDelete(old(db.urlShorts), code.value)
      && cache.entries == old(cache.entries) - {Redirect.CodeCacheKey(code.value)}
    ensures db.auditLogs == old(db.auditLogs) +
      [AuditEntry(db.users, principal.name, DeleteAudit(outcome, OrEmpty(code)).0, "ShortUrl",
                  DeleteAudit(outcome, OrEmpty(code)).1, now)]
  {
    outcome := DeleteVerdict(db.urlShorts, principal, code);
    if outcome == Deleted {
      UrlShortening.DeleteShortUrl(db, code.value);
      cache.Remove(Redirect.CodeCacheKey(code.value));
    }
    var audit := DeleteAudit(outcome, OrEmpty(code));
    var _ := Log(db, principal.name, audit.0, "ShortUrl", audit.1, now);
  }

  /**
   * After a delete through this page, with one live row per code, a later
   * preview of the code finds nothing: the entry was dropped, so the factory
   * runs again and skips the now-deleted row.
   */
  lemma DeletedCodeIsNotPreviewed(entries: map<string, CacheEntry>, rows: seq<UrlShort>, clicks: seq<ClickStat>,
                                  users: seq<IdentityUser>, userId: Option<string>, code: string, now: nat)
    requires UrlShortening.LiveCodeUnique(rows, code)
    ensures var key := Redirect.CodeCacheKey(code);
      PreviewOf(CachedOrLoaded(entries - {key}, key, now, LoadLive(UrlShortening.AfterDelete(rows, code), code)),
                clicks, users, userId, now) == UrlNotFound
  {
    UrlShortening.DeleteIdempotent(rows, code);
  }
}
