/**
 * The statistics page (`StatsModel`). Without a positive id it aggregates the
 * caller's live URLs: the clicks inside the date window, their total and a
 * per-day chart. With an id it shows one URL, read through the memory cache
 * under `UrlShort_{id}`: the 50 newest clicks in the window, counts by
 * destination over those 50 and by OG variant over all the URL's clicks, the
 * chart of the 50, and the CSV export of the 50. Every outcome writes one
 * audit record under the caller's name.
 */
module StatsPage {
  import opened Common
  import opened Entities
  import opened Store
  import opened Http
  import opened Analytics
  import opened AuditService
  import Redirect

  /** The cache key of the single-URL view. */
  function IdCacheKey(id: nat): string
  {
    "UrlShort_" + NatToString(id)
  }

  /** The id-keyed entries never meet the code-keyed entries of the redirect and the preview. */
  lemma IdKeyIsNotACodeKey(id: nat, code: string)
    ensures IdCacheKey(id) != Redirect.CodeCacheKey(code)
  {
    assert IdCacheKey(id)[0] == 'U';
    assert Redirect.CodeCacheKey(code)[0] == 'S';
  }

  /** The single-URL factory: the first live row with that id, or null. */
  function LoadLiveById(rows: seq<UrlShort>, id: nat): (u: Option<UrlShort>)
    ensures u.Some? ==> u.value in rows && u.value.id == id && !u.value.isDeleted
    ensures u.None? <==> forall i | 0 <= i < |rows| :: rows[i].id != id || rows[i].isDeleted
  {
    match FirstWhere(rows, (u: UrlShort) => u.id == id && !u.isDeleted)
    case None => None
    case Some(i) => Some(rows[i])
  }

  function IdsOf(urls: seq<UrlShort>): set<nat>
  {
    set i | 0 <= i < |urls| :: urls[i].id
  }

  predicate DistinctIds(urls: seq<UrlShort>)
  {
    forall i, j | 0 <= i < j < |urls| :: urls[i].id != urls[j].id
  }

  /** The clicks the loop collects: each URL's clicks inside the window, URL after URL. */
  function AllClicks(urls: seq<UrlShort>, clicks: seq<ClickStat>, startDate: Option<nat>, endDate: Option<nat>): seq<ClickStat>
  {
    if urls == [] then []
    else AllClicks(urls[..|urls| - 1], clicks, startDate, endDate)
         + ClicksInWindow(clicks, urls[|urls| - 1].id, startDate, endDate)
  }

  /** The `foreach` over the user's URLs, with `AddRange` of each URL's filtered clicks. */
  method CollectClicks(urls: seq<UrlShort>, clicks: seq<ClickStat>, startDate: Option<nat>, endDate: Option<nat>)
    returns (allClicks: seq<ClickStat>)
    ensures allClicks == AllClicks(urls, clicks, startDate, endDate)
  {
    allClicks := [];
    for i := 0 to |urls|
      invariant allClicks == AllClicks(urls[..i], clicks, startDate, endDate)
    {
      assert urls[..i + 1][..i] == urls[..i];
      allClicks := allClicks + ClicksInWindow(clicks, urls[i].id, startDate, endDate);
    }
    assert urls[..|urls|] == urls;
  }

  /** A click the aggregate view counts: it belongs to one of the URLs and lies inside the window. */
  predicate Counted(c: ClickStat, ids: set<nat>, startDate: Option<nat>, endDate: Option<nat>)
  {
    c.urlShortId in ids && InWindow(c.clickedAt, startDate, endDate)
  }

  /** The clicks counted for a set of URL ids, in table order. */
  function CountedClicks(clicks: seq<ClickStat>, ids: set<nat>, startDate: Option<nat>, endDate: Option<nat>): (r: seq<ClickStat>)
    ensures forall i | 0 <= i < |r| :: r[i] in clicks && Counted(r[i], ids, startDate, endDate)
    ensures forall i | 0 <= i < |clicks| && Counted(clicks[i], ids, startDate, endDate) :: clicks[i] in r
  {
    if clicks == [] then []
    else
      var rest := CountedClicks(clicks[1..], ids, startDate, endDate);
      assert forall i | 1 <= i < |clicks| :: clicks[i] == clicks[1..][i - 1];
      (if Counted(clicks[0], ids, startDate, endDate) then [clicks[0]] else []) + rest
  }

  /** Adding a URL id not yet counted adds exactly that URL's clicks inside the window. */
  lemma {:induction false} CountedClicksAddUrl(clicks: seq<ClickStat>, ids: set<nat>, id: nat,
                                               startDate: Option<nat>, endDate: Option<nat>)
    requires id !in ids
    ensures multiset(CountedClicks(clicks, ids + {id}, startDate, endDate)) ==
            multiset(CountedClicks(clicks, ids, startDate, endDate)) + multiset(ClicksInWindow(clicks, id, startDate, endDate))
  {
    if clicks != [] {
      CountedClicksAddUrl(clicks[1..], ids, id, startDate, endDate);
      AddUrlStep(clicks[0], CountedClicks(clicks[1..], ids + {id}, startDate, endDate),
                 CountedClicks(clicks[1..], ids, startDate, endDate), ClicksInWindow(clicks[1..], id, startDate, endDate),
                 ids, id, startDate, endDate);
    }
  }

  /** One click's share of `CountedClicksAddUrl`: it is counted for the larger set iff for exactly one of the parts. */
  lemma AddUrlStep(c: ClickStat, withId: seq<ClickStat>, without: seq<ClickStat>, window: seq<ClickStat>,
                   ids: set<nat>, id: nat, startDate: Option<nat>, endDate: Option<nat>)
    requires id !in ids
    requires multiset(withId) == multiset(without) + multiset(window)
    ensures multiset((if Counted(c, ids + {id}, startDate, endDate) then [c] else []) + withId) ==
            multiset((if Counted(c, ids, startDate, endDate) then [c] else []) + without) +
            multiset((if c.urlShortId == id && InWindow(c.clickedAt, startDate, endDate) then [c] else []) + window)
  {
  }

  lemma {:induction false} NothingCountedWithoutUrls(clicks: seq<ClickStat>, startDate: Option<nat>, endDate: Option<nat>)
    ensures CountedClicks(clicks, {}, startDate, endDate) == []
  {
    if clicks != [] {
      NothingCountedWithoutUrls(clicks[1..], startDate, endDate);
    }
  }

  /**
   * With distinct URL ids, the collected clicks are exactly the clicks of
   * those URLs inside the window, each once (so `TotalClicks` counts them).
   */
  lemma {:induction false} AllClicksAreTheCountedClicks(urls: seq<UrlShort>, clicks: seq<ClickStat>,
                                                        startDate: Option<nat>, endDate: Option<nat>)
    requires DistinctIds(urls)
    ensures multiset(AllClicks(urls, clicks, startDate, endDate)) ==
            multiset(CountedClicks(clicks, IdsOf(urls), startDate, endDate))
  {
    var n := |urls|;
    if n == 0 {
      assert IdsOf(urls) == {};
      NothingCountedWithoutUrls(clicks, startDate, endDate);
    } else {
      var front := urls[..n - 1];
      var id := urls[n - 1].id;
      assert DistinctIds(front) by {
        forall i, j | 0 <= i < j < |front| ensures front[i].id != front[j].id {
          assert front[i] == urls[i] && front[j] == urls[j];
        }
      }
      AllClicksAreTheCountedClicks(front, clicks, startDate, endDate);
      IdsOfSnoc(urls);
      assert id !in IdsOf(front) by {
        forall i | 0 <= i < n - 1 ensures front[i].id != id {
          assert front[i] == urls[i];
        }
      }
      CountedClicksAddUrl(clicks, IdsOf(front), id, startDate, endDate);
    }
  }

  lemma IdsOfSnoc(urls: seq<UrlShort>)
    requires urls != []
    ensures IdsOf(urls) == IdsOf(urls[..|urls| - 1]) + {urls[|urls| - 1].id}
  {
    var n := |urls|;
    var front := urls[..n - 1];
    forall x | x in IdsOf(urls) ensures x in IdsOf(front) + {urls[n - 1].id} {
      var i :| 0 <= i < n && urls[i].id == x;
      if i < n - 1 {
        assert front[i] == urls[i];
      }
    }
    forall x | x in IdsOf(front) ensures x in IdsOf(urls) {
      var i :| 0 <= i < n - 1 && front[i].id == x;
      assert urls[i] == front[i];
    }
  }

  /** `ArgumentNullException.Message` for `IsInRoleAsync(null, …)`. */
  const NullUserMessage := "Value cannot be null. (Parameter 'user')"

  datatype UrlStatsView = UrlStatsView(
    urlShort: UrlShort,
    clickStats: seq<ClickStat>,
    clickCountsByDestination: map<nat, nat>,
    clickCountsByOgMetadata: map<nat, nat>,
    isProfessionalOrHigher: bool,
    chart: Chart,
    csvData: string)

  datatype StatsOutcome =
    | AllStats(userUrls: seq<UrlShort>, totalClicks: nat, chart: Chart, isProfessionalOrHigher: bool)
    | UrlNotFound     // "No URL found for the provided ID."
    | NotAuthorized   // "You are not authorized to view statistics for this URL."
    | UrlExpired      // "This URL has expired."
    | UrlStats(view: UrlStatsView)
    | StatsError      // the catch block: a role test on a missing user throws

  /** The aggregate view of the caller's live URLs. */
  function AllUrlsStats(rows: seq<UrlShort>, clicks: seq<ClickStat>, users: seq<IdentityUser>, userId: Option<string>,
                        startDate: Option<nat>, endDate: Option<nat>): (outcome: StatsOutcome)
    ensures outcome == StatsError <==> userId.None? || !UserExists(users, userId.value)
    ensures outcome != StatsError ==> outcome.AllStats? && outcome.userUrls == UserUrls(rows, userId.value)
    ensures outcome.AllStats? ==>
      var roles := RolesOf(users, userId.value);
      outcome.isProfessionalOrHigher <==> (RoleProfessional in roles || RoleEnterprise in roles)
  {
    if userId.None? || !UserExists(users, userId.value) then StatsError
    else
      var urls := UserUrls(rows, userId.value);
      var all := AllClicks(urls, clicks, startDate, endDate);
      var roles := RolesOf(users, userId.value);
      AllStats(urls, |all|, ChartOf(all), RoleProfessional in roles || RoleEnterprise in roles)
  }

  /** The owner, or a caller whose claims hold Admin, may see a URL's statistics. */
  predicate MayView(u: UrlShort, principal: Principal)
  {
    principal.userId == Some(u.userId) || RoleAdmin in principal.roles
  }

  /** The single-URL figures of a URL whose checks passed. */
  function ViewOf(u: UrlShort, clicks: seq<ClickStat>, users: seq<IdentityUser>,
                  startDate: Option<nat>, endDate: Option<nat>, formatTime: nat -> string): UrlStatsView
  {
    var recent := Recent(ClicksInWindow(clicks, u.id, startDate, endDate));
    var roles := RolesOf(users, u.userId);
    UrlStatsView(u, recent, GroupCounts(DestinationKeys(recent)), GroupCounts(OgKeys(ClicksOf(clicks, u.id))),
                 RoleProfessional in roles || RoleEnterprise in roles, ChartOf(recent), Csv(recent, formatTime))
  }

  /** The single-URL outcome for the snapshot the cache handed back: the checks in source order, then the figures. */
  function UrlStatsOf(snapshot: Option<UrlShort>, principal: Principal, clicks: seq<ClickStat>, users: seq<IdentityUser>,
                      startDate: Option<nat>, endDate: Option<nat>, formatTime: nat -> string, now: nat): (outcome: StatsOutcome)
    ensures outcome == UrlNotFound <==> snapshot.None?
    ensures outcome == NotAuthorized <==> snapshot.Some? && !MayView(snapshot.value, principal)
    ensures outcome == UrlExpired <==> snapshot.Some? && MayView(snapshot.value, principal) && IsExpired(snapshot.value, now)
    ensures outcome == StatsError <==> snapshot.Some? && MayView(snapshot.value, principal) && !IsExpired(snapshot.value, now)
                                       && !UserExists(users, snapshot.value.userId)
    ensures outcome.UrlStats? ==> outcome.view.urlShort == snapshot.value
    ensures !outcome.AllStats?
  {
    if snapshot.None? then UrlNotFound
    else if !MayView(snapshot.value, principal) then NotAuthorized
    else if IsExpired(snapshot.value, now) then UrlExpired
    else if !UserExists(users, snapshot.value.userId) then StatsError
    else UrlStats(ViewOf(snapshot.value, clicks, users, startDate, endDate, formatTime))
  }

  /** The audit action and details of each outcome (`id` rendered as the query gave it). */
  function StatsAudit(outcome: StatsOutcome, id: string): (string, string)
  {
    match outcome
    case AllStats(_, _, _, _) => ("Viewed all URL stats", "Stats viewed")
    case UrlNotFound => ("Failed to find URL for ID: " + id, "URL not found")
    case NotAuthorized => ("Unauthorized stats access for ID: " + id, "Unauthorized")
    case UrlExpired => ("Attempted to view stats for expired URL: " + id, "Expired URL")
    case UrlStats(_) => ("Viewed stats for URL ID: " + id, "Stats viewed")
    case StatsError => ("Error viewing stats", NullUserMessage)
  }

  /** The audit detail `id` renders as: the number for a positive id, nothing otherwise. */
  function IdText(id: Option<int>): string
  {
    if id.Some? && id.value > 0 then NatToString(id.value) else ""
  }

  /** `OnGetAsync(id, startDate, endDate)`; `formatTime` renders a click time in the `g` format of the server's culture. */
  method OnGet(db: Db, cache: MemoryCache, principal: Principal, id: Option<int>, startDate: Option<nat>, endDate: Option<nat>,
               formatTime: nat -> string, now: nat)
    returns (outcome: StatsOutcome)
    modifies db`auditLogs, cache
    ensures id.None? || id.value <= 0 ==>
      && outcome == AllUrlsStats(db.urlShorts, db.clickStats, db.users, principal.userId, startDate, endDate)
      && cache.entries == old(cache.entries)
    ensures id.Some? && id.value > 0 ==>
      var key := IdCacheKey(id.value);
      var snapshot := CachedOrLoaded(old(cache.entries), key, now, LoadLiveById(db.urlShorts, id.value));
      && outcome == UrlStatsOf(snapshot, principal, db.clickStats, db.users, startDate, endDate, formatTime, now)
      && cache.entries == old(cache.entries)[key := CacheEntry(snapshot, now)]
    ensures db.auditLogs == old(db.auditLogs) +
      [AuditEntry(db.users, principal.name, StatsAudit(outcome, IdText(id)).0, "UrlShort", StatsAudit(outcome, IdText(id)).1, now)]
  {
    if id.None? || id.value <= 0 {
      outcome := ViewAllUrls(db, principal, startDate, endDate);
    } else {
      outcome := ViewOneUrl(db, cache, principal, id.value, startDate, endDate, formatTime, now);
    }
    var audit := StatsAudit(outcome, IdText(id));
    var _ := Log(db, principal.name, audit.0, "UrlShort", audit.1, now);
  }

  /** The branch with an id: the cached snapshot, the checks and the figures. */
  method ViewOneUrl(db: Db, cache: MemoryCache, principal: Principal, id: nat, startDate: Option<nat>, endDate: Option<nat>,
                    formatTime: nat -> string, now: nat)
    returns (outcome: StatsOutcome)
    modifies cache
    ensures var snapshot := CachedOrLoaded(old(cache.entries), IdCacheKey(id), now, LoadLiveById(db.urlShorts, id));
      && outcome == UrlStatsOf(snapshot, principal, db.clickStats, db.users, startDate, endDate, formatTime, now)
      && cache.entries == old(cache.entries)[IdCacheKey(id) := CacheEntry(snapshot, now)]
  {
    var snapshot, _ := cache.GetOrCreate(IdCacheKey(id), now, LoadLiveById(db.urlShorts, id));
    outcome := UrlStatsOf(snapshot, principal, db.clickStats, db.users, startDate, endDate, formatTime, now);
  }

  /** The branch without an id: the user's live URLs, the loop over their clicks, the chart and the role test. */
  method ViewAllUrls(db: Db, principal: Principal, startDate: Option<nat>, endDate: Option<nat>) returns (outcome: StatsOutcome)
    ensures outcome == AllUrlsStats(db.urlShorts, db.clickStats, db.users, principal.userId, startDate, endDate)
  {
    if principal.userId.None? || !UserExists(db.users, principal.userId.value) {
      // `FindByIdAsync` finds no user and `IsInRoleAsync(null, …)` throws
      return StatsError;
    }
    var urls := UserUrls(db.urlShorts, principal.userId.value);
    var allClicks := CollectClicks(urls, db.clickStats, startDate, endDate);
    var roles := RolesOf(db.users, principal.userId.value);
    outcome := AllStats(urls, |allClicks|, ChartOf(allClicks), RoleProfessional in roles || RoleEnterprise in roles);
  }

  /**
   * The aggregate view: with the stored ids distinct, the total is the number
   * of the caller's live URLs' clicks inside the window, and the chart's
   * ascending days carry counts that add up to that total.
   */
  lemma AllStatsFigures(rows: seq<UrlShort>, clicks: seq<ClickStat>, users: seq<IdentityUser>, userId: Option<string>,
                        startDate: Option<nat>, endDate: Option<nat>)
    requires forall i, j | 0 <= i < j < |rows| :: rows[i].id != rows[j].id
    requires AllUrlsStats(rows, clicks, users, userId, startDate, endDate).AllStats?
    ensures var outcome := AllUrlsStats(rows, clicks, users, userId, startDate, endDate);
      var counted := CountedClicks(clicks, IdsOf(outcome.userUrls), startDate, endDate);
      && outcome.userUrls == UserUrls(rows, userId.value)
      && outcome.totalClicks == |counted|
      && StrictlyAscending(outcome.chart.dates)
      && |outcome.chart.clicks| == |outcome.chart.dates|
      && SumOf(outcome.chart.clicks) == outcome.totalClicks
  {
    var urls := UserUrls(rows, userId.value);
    FilterKeepsDistinctIds(rows, (u: UrlShort) => u.userId == userId.value && !u.isDeleted);
    AllClicksAreTheCountedClicks(urls, clicks, startDate, endDate);
    var all := AllClicks(urls, clicks, startDate, endDate);
    var counted := CountedClicks(clicks, IdsOf(urls), startDate, endDate);
    assert |all| == |multiset(all)| == |multiset(counted)| == |counted|;
    ChartProperties(all);
  }

  lemma {:induction false} FilterKeepsDistinctIds(rows: seq<UrlShort>, p: UrlShort -> bool)
    requires forall i, j | 0 <= i < j < |rows| :: rows[i].id != rows[j].id
    ensures DistinctIds(Filter(rows, p))
  {
    if rows != [] {
      FilterKeepsDistinctIds(rows[1..], p);
      var rest := Filter(rows[1..], p);
      if p(rows[0]) {
        var r := [rows[0]] + rest;
        assert Filter(rows, p) == r;
        forall k | 0 <= k < |rest| ensures rest[k].id != rows[0].id {
          assert rest[k] in rows[1..];
          var j :| 0 <= j < |rows[1..]| && rows[1..][j] == rest[k];
          assert rows[j + 1] == rest[k];
        }
        forall i, j | 0 <= i < j < |r| ensures r[i].id != r[j].id {
          assert r[j] == rest[j - 1];
          if i > 0 {
            assert r[i] == rest[i - 1];
          }
        }
      } else {
        assert Filter(rows, p) == rest;
      }
    }
  }

  /**
   * The list holds at most 50 of the window's clicks, newest first, and
   * nothing left out of it is newer than the last click listed.
   */
  lemma UrlStatsList(u: UrlShort, clicks: seq<ClickStat>, users: seq<IdentityUser>,
                     startDate: Option<nat>, endDate: Option<nat>, formatTime: nat -> string)
    ensures var view := ViewOf(u, clicks, users, startDate, endDate, formatTime);
      var window := ClicksInWindow(clicks, u.id, startDate, endDate);
      && |view.clickStats| == (if |window| <= RecentLimit then |window| else RecentLimit)
      && NewestFirstOrder(view.clickStats)
      && multiset(view.clickStats) <= multiset(window)
      && (forall c | c in window :: c in view.clickStats || c.clickedAt <= view.clickStats[|view.clickStats| - 1].clickedAt)
  {
    RecentProperties(ClicksInWindow(clicks, u.id, startDate, endDate));
  }

  /**
   * The destination counts and the chart cover only the listed clicks (at
   * most 50), the OG counts every click the URL has.
   */
  lemma UrlStatsCounts(u: UrlShort, clicks: seq<ClickStat>, users: seq<IdentityUser>,
                       startDate: Option<nat>, endDate: Option<nat>, formatTime: nat -> string)
    ensures var view := ViewOf(u, clicks, users, startDate, endDate, formatTime);
      var destinationKeys := DestinationKeys(view.clickStats);
      var ogKeys := OgKeys(ClicksOf(clicks, u.id));
      && SumOf(CountsFor(GroupKeys(destinationKeys), destinationKeys)) == |view.clickStats|
      && SumOf(CountsFor(GroupKeys(ogKeys), ogKeys)) == |ClicksOf(clicks, u.id)|
      && SumOf(view.chart.clicks) == |view.clickStats| <= RecentLimit
  {
    var recent := Recent(ClicksInWindow(clicks, u.id, startDate, endDate));
    RecentProperties(ClicksInWindow(clicks, u.id, startDate, endDate));
    var _ := GroupCounts(DestinationKeys(recent));
    var _ := GroupCounts(OgKeys(ClicksOf(clicks, u.id)));
    ChartProperties(recent);
  }

  /** The CSV export is the header line and one line per listed click, when no exported value holds a line break. */
  lemma UrlStatsCsv(u: UrlShort, clicks: seq<ClickStat>, users: seq<IdentityUser>,
                    startDate: Option<nat>, endDate: Option<nat>, formatTime: nat -> string)
    requires forall i | 0 <= i < |clicks| :: forall f | f in CsvFields(clicks[i], formatTime) :: '\n' !in f
    ensures var view := ViewOf(u, clicks, users, startDate, endDate, formatTime);
      SplitOn(view.csvData, '\n') == [Join(",", CsvHeaders)] + CsvRows(view.clickStats, formatTime)
  {
    var window := ClicksInWindow(clicks, u.id, startDate, endDate);
    var recent := Recent(window);
    RecentProperties(window);
    forall i | 0 <= i < |recent|
      ensures forall f | f in CsvFields(recent[i], formatTime) :: '\n' !in f
    {
      assert recent[i] in multiset(window);
      var j :| 0 <= j < |clicks| && clicks[j] == recent[i];
    }
    CsvLines(recent, formatTime);
  }
}
