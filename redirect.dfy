/**
 * The endpoints of `Program.cs`: resolving `GET /{code}`, the weighted A/B
 * destination picker, the slug-availability and screen-resolution APIs, and
 * the role change the Stripe webhook makes.
 */
module Redirect {
  import opened Common
  import opened Entities
  import opened Store
  import opened Http
  import InputValidation

  // ---------------------------------------------------------------------------
  // Weighted destination choice
  // ---------------------------------------------------------------------------

  /** `Weight ?? 1` */
  function WeightOf(d: DestinationUrl): int
  {
    if d.weight.Some? then d.weight.value else 1
  }

  /** The running weight after the first `k` destinations. */
  function PrefixWeight(ds: seq<DestinationUrl>, k: nat): int
    requires k <= |ds|
  {
    if k == 0 then 0 else PrefixWeight(ds, k - 1) + WeightOf(ds[k - 1])
  }

  function TotalWeight(ds: seq<DestinationUrl>): int
  {
    PrefixWeight(ds, |ds|)
  }

  /** `NextDouble() * totalWeight`, with the random number in [0, 1) given as `unit`. */
  function Draw(ds: seq<DestinationUrl>, unit: real): real
  {
    unit * TotalWeight(ds) as real
  }

  /** The running weight through destination `j` reaches the draw. */
  predicate Covers(ds: seq<DestinationUrl>, draw: real, j: nat)
  {
    j < |ds| && draw <= PrefixWeight(ds, j + 1) as real
  }

  /** The first destination at or after `from` whose running weight reaches the draw. */
  function FirstCovering(ds: seq<DestinationUrl>, draw: real, from: nat): (r: Option<nat>)
    requires from <= |ds|
    ensures r.Some? ==> from <= r.value && Covers(ds, draw, r.value)
    ensures r.Some? ==> forall j | from <= j < r.value :: !Covers(ds, draw, j)
    ensures r.None? ==> forall j | from <= j < |ds| :: !Covers(ds, draw, j)
    decreases |ds| - from
  {
    if from == |ds| then None
    else if draw <= PrefixWeight(ds, from + 1) as real then Some(from)
    else FirstCovering(ds, draw, from + 1)
  }

  /** The picked destination, or the exception the unguarded fallback index throws. */
  datatype Pick = Picked(index: nat) | IndexOutOfRange

  /** The selector's choice: the first covering destination, else `DestinationUrls[CurrentDestinationIndex]`. */
  function WeightedChoice(ds: seq<DestinationUrl>, currentIndex: int, draw: real): (p: Pick)
    ensures p.Picked? ==> p.index < |ds|
  {
    match FirstCovering(ds, draw, 0)
    case Some(k) => Picked(k)
    case None => if 0 <= currentIndex < |ds| then Picked(currentIndex) else IndexOutOfRange
  }

  /** `SelectWeightedDestinationUrl`: a running-sum scan that stops at the first sum the draw does not exceed. */
  method SelectWeightedDestinationUrl(ds: seq<DestinationUrl>, currentIndex: int, unit: real) returns (pick: Pick)
    ensures pick == WeightedChoice(ds, currentIndex, Draw(ds, unit))
  {
    var random := unit * TotalWeight(ds) as real;
    var currentWeight: real := 0.0;
    var i := 0;
    while i < |ds|
      invariant 0 <= i <= |ds|
      invariant currentWeight == PrefixWeight(ds, i) as real
      invariant FirstCovering(ds, random, 0) == FirstCovering(ds, random, i)
    {
      currentWeight := currentWeight + WeightOf(ds[i]) as real;
      if random <= currentWeight {
        return Picked(i);
      }
      i := i + 1;
    }
    if 0 <= currentIndex < |ds| {
      return Picked(currentIndex);
    }
    return IndexOutOfRange;
  }

  predicate AllWeightsNonNegative(ds: seq<DestinationUrl>)
  {
    forall i | 0 <= i < |ds| :: WeightOf(ds[i]) >= 0
  }

  predicate AllWeightsPositive(ds: seq<DestinationUrl>)
  {
    forall i | 0 <= i < |ds| :: WeightOf(ds[i]) > 0
  }

  lemma {:induction false} PrefixWeightMonotone(ds: seq<DestinationUrl>, j: nat, k: nat)
    requires AllWeightsNonNegative(ds)
    requires j <= k <= |ds|
    ensures PrefixWeight(ds, j) <= PrefixWeight(ds, k)
    decreases k
  {
    if j < k {
      PrefixWeightMonotone(ds, j, k - 1);
    }
  }

  /**
   * With non-negative weights and a non-negative draw, destination `k` is
   * picked exactly when the draw lies in its slice (P(k), P(k+1)] of the
   * running sums (the first slice also takes a draw of 0).
   */
  lemma {:induction false} ChoiceIsWeightSlice(ds: seq<DestinationUrl>, draw: real, k: nat)
    requires AllWeightsNonNegative(ds) && 0.0 <= draw
    ensures FirstCovering(ds, draw, 0) == Some(k)
      <==> k < |ds| && draw <= PrefixWeight(ds, k + 1) as real && (k == 0 || PrefixWeight(ds, k) as real < draw)
  {
    if k < |ds| && draw <= PrefixWeight(ds, k + 1) as real && (k == 0 || PrefixWeight(ds, k) as real < draw) {
      assert Covers(ds, draw, k);
      forall j | 0 <= j < k
        ensures !Covers(ds, draw, j)
      {
        PrefixWeightMonotone(ds, j + 1, k);
      }
    }
    if FirstCovering(ds, draw, 0) == Some(k) && k > 0 {
      assert !Covers(ds, draw, k - 1);
    }
  }

  /** With positive weights and a draw from [0, 1), some destination always covers it: the fallback index is never read. */
  lemma {:induction false} PositiveWeightsNeverFallBack(ds: seq<DestinationUrl>, currentIndex: int, unit: real)
    requires |ds| > 0 && AllWeightsPositive(ds)
    requires 0.0 <= unit < 1.0
    ensures FirstCovering(ds, Draw(ds, unit), 0).Some?
    ensures WeightedChoice(ds, currentIndex, Draw(ds, unit)).Picked?
  {
    assert AllWeightsNonNegative(ds);
    PrefixWeightMonotone(ds, 1, |ds|);
    assert PrefixWeight(ds, 1) == WeightOf(ds[0]) > 0;
    assert TotalWeight(ds) > 0 by {
      assert TotalWeight(ds) == PrefixWeight(ds, |ds|) >= PrefixWeight(ds, 1);
    }
    var total := TotalWeight(ds) as real;
    UnitScaledBelow(unit, total);
    assert Draw(ds, unit) == unit * total;
    assert Covers(ds, Draw(ds, unit), |ds| - 1);
  }

  lemma UnitScaledBelow(unit: real, total: real)
    requires 0.0 <= unit < 1.0 && total > 0.0
    ensures unit * total < total
  {
    var rest := 1.0 - unit;
    assert rest > 0.0;
    assert rest * total > 0.0;
    assert total - unit * total == rest * total;
  }

  /** A draw of 0 picks the first destination whenever its weight is not negative. */
  lemma ZeroDrawPicksFirst(ds: seq<DestinationUrl>, currentIndex: int)
    requires |ds| > 0 && WeightOf(ds[0]) >= 0
    ensures WeightedChoice(ds, currentIndex, Draw(ds, 0.0)) == Picked(0)
  {
    assert PrefixWeight(ds, 1) == WeightOf(ds[0]);
  }

  /** A negative weight can leave every running sum below the draw; the fallback then reads a stale index and throws. */
  lemma NegativeWeightReachesFallback()
    ensures WeightedChoice([DestinationUrl(1, "https://example.com", None, None, None, Some(-1))], 3, Draw([DestinationUrl(1, "https://example.com", None, None, None, Some(-1))], 0.0)) == IndexOutOfRange
  {
    var ds := [DestinationUrl(1, "https://example.com", None, None, None, Some(-1))];
    assert PrefixWeight(ds, 1) == -1;
  }

  // ---------------------------------------------------------------------------
  // Rotation cursors
  // ---------------------------------------------------------------------------

  /** `(CurrentDestinationIndex + 1) % DestinationUrls.Count`, with C#'s remainder. */
  function NextRotationIndex(current: int, count: nat): int
    requires count > 0
  {
    CsRem(current + 1, count)
  }

  /** `Count > 0 ? (CurrentOgMetadataIndex + 1) % Count : 0` */
  function NextOgIndex(current: int, count: nat): (next: int)
    ensures count == 0 ==> next == 0
    ensures count > 0 && current >= 0 ==> 0 <= next < count && next == (current + 1) % count
  {
    if count > 0 then CsRem(current + 1, count) else 0
  }

  /** The cursor after `k` resolutions starting from `start`. */
  function RotationAfter(start: int, count: nat, k: nat): int
    requires count > 0
  {
    if k == 0 then start else NextRotationIndex(RotationAfter(start, count, k - 1), count)
  }

  lemma ModStep(a: nat, c: nat)
    requires c > 0
    ensures (a % c + 1) % c == (a + 1) % c
  {
    var q := a / c;
    var r := a % c;
    assert a == q * c + r;
    if r + 1 < c {
      ModUnique(r + 1, c, 0, r + 1);
      ModUnique(a + 1, c, q, r + 1);
    } else {
      ModUnique(r + 1, c, 1, 0);
      assert a + 1 == (q + 1) * c + 0;
      ModUnique(a + 1, c, q + 1, 0);
    }
  }

  /** From a cursor in range, `k` resolutions move it to (start + k) mod count, whatever was picked. */
  lemma {:induction false} RotationCycles(start: int, count: nat, k: nat)
    requires count > 0 && 0 <= start < count
    ensures RotationAfter(start, count, k) == (start + k) % count
    ensures 0 <= RotationAfter(start, count, k) < count
  {
    if k > 0 {
      RotationCycles(start, count, k - 1);
      ModStep(start + k - 1, count);
    }
  }

  // ---------------------------------------------------------------------------
  // Crawler detection and routing
  // ---------------------------------------------------------------------------

  const CrawlerSignatures: seq<string> := ["facebookexternalhit", "twitterbot", "linkedinbot", "slackbot", "discordbot"]

  /** The lower-cased User-Agent contains one of the five crawler names. */
  predicate IsSocialMediaCrawler(userAgent: string)
  {
    var ua := ToLower(userAgent);
    Contains(ua, "facebookexternalhit") || Contains(ua, "twitterbot") || Contains(ua, "linkedinbot")
    || Contains(ua, "slackbot") || Contains(ua, "discordbot")
  }

  lemma ToLowerIdempotent(s: string)
    ensures ToLower(ToLower(s)) == ToLower(s)
  {
    forall i | 0 <= i < |s|
      ensures ToLower(ToLower(s))[i] == ToLower(s)[i]
    {
      assert LowerChar(LowerChar(s[i])) == LowerChar(s[i]);
    }
  }

  /** Detection ignores letter case, and it is exactly "one of the listed signatures occurs". */
  lemma CrawlerDetection(userAgent: string)
    ensures IsSocialMediaCrawler(userAgent) <==>
      exists i | 0 <= i < |CrawlerSignatures| :: Contains(ToLower(userAgent), CrawlerSignatures[i])
    ensures IsSocialMediaCrawler(ToLower(userAgent)) == IsSocialMediaCrawler(userAgent)
  {
    ToLowerIdempotent(userAgent);
    var ua := ToLower(userAgent);
    if Contains(ua, "facebookexternalhit") { assert Contains(ua, CrawlerSignatures[0]); }
    if Contains(ua, "twitterbot") { assert Contains(ua, CrawlerSignatures[1]); }
    if Contains(ua, "linkedinbot") { assert Contains(ua, CrawlerSignatures[2]); }
    if Contains(ua, "slackbot") { assert Contains(ua, CrawlerSignatures[3]); }
    if Contains(ua, "discordbot") { assert Contains(ua, CrawlerSignatures[4]); }
    forall i | 0 <= i < |CrawlerSignatures| && Contains(ua, CrawlerSignatures[i])
      ensures IsSocialMediaCrawler(userAgent)
    {
      assert i == 0 || i == 1 || i == 2 || i == 3 || i == 4;
    }
  }

  /** Which branch of `GET /{code}` a request takes. */
  datatype Route = Invalid | CrawlerPreview | PasswordGate | NoDestinations | Resolve

  /** The handler's tests, in source order: missing/deleted/expired, crawler, password, no destinations. */
  function RouteOf(s: Option<UrlShort>, userAgent: string, now: nat): (route: Route)
    ensures route == Invalid <==> s.None? || s.value.isDeleted || IsExpired(s.value, now)
    ensures route == CrawlerPreview <==> route != Invalid && IsSocialMediaCrawler(userAgent)
    ensures route == PasswordGate <==> route != Invalid && !IsSocialMediaCrawler(userAgent) && !IsNullOrEmpty(s.value.password)
    ensures route == NoDestinations <==> route !in {Invalid, CrawlerPreview, PasswordGate} && |s.value.destinationUrls| == 0
    ensures route == Resolve ==> s.Some? && !s.value.isDeleted && !IsExpired(s.value, now) && IsNullOrEmpty(s.value.password) && |s.value.destinationUrls| > 0
  {
    if s.None? || s.value.isDeleted || IsExpired(s.value, now) then Invalid
    else if IsSocialMediaCrawler(userAgent) then CrawlerPreview
    else if !IsNullOrEmpty(s.value.password) then PasswordGate
    else if |s.value.destinationUrls| == 0 then NoDestinations
    else Resolve
  }

  /** The crawler test comes before the password gate: a crawler previews a protected link without the password. */
  lemma CrawlerBypassesPassword(s: UrlShort, userAgent: string, now: nat)
    requires !s.isDeleted && !IsExpired(s, now) && IsSocialMediaCrawler(userAgent)
    ensures RouteOf(Some(s), userAgent, now) == CrawlerPreview
  {
  }

  /** The `var` the preview link carries: the parsed query value if there is one, else the cursor before it advances. */
  function VariationIndex(varQuery: Option<string>, tryParseInt: string -> Option<int>, current: int): (v: int)
    ensures IsNullOrEmpty(varQuery) ==> v == current
    ensures !IsNullOrEmpty(varQuery) && tryParseInt(varQuery.value).Some? ==> v == tryParseInt(varQuery.value).value
    ensures !IsNullOrEmpty(varQuery) && tryParseInt(varQuery.value).None? ==> v == current
  {
    if IsNullOrEmpty(varQuery) then current
    else match tryParseInt(varQuery.value)
      case Some(parsed) => parsed
      case None => current
  }

  // ---------------------------------------------------------------------------
  // GET /{code}
  // ---------------------------------------------------------------------------

  function CodeCacheKey(code: string): string
  {
    "ShortUrl_" + code
  }

  /** Position of the first row whose code equals `code` exactly (deleted rows included). */
  function PositionByCode(rows: seq<UrlShort>, code: string): (pos: Option<nat>)
    ensures pos.Some? ==> pos.value < |rows| && rows[pos.value].code == code
    ensures pos.None? ==> forall i | 0 <= i < |rows| :: rows[i].code != code
  {
    FirstWhere(rows, (u: UrlShort) => u.code == code)
  }

  /** What the cache factory loads: the row with that code, or null. */
  function LoadByCode(rows: seq<UrlShort>, code: string): Option<UrlShort>
  {
    match PositionByCode(rows, code)
    case None => None
    case Some(i) => Some(rows[i])
  }

  /** The snapshot the handler works on: the live cache entry, or what was just loaded. */
  function SnapshotOf(entries: map<string, CacheEntry>, rows: seq<UrlShort>, code: string, now: nat): Option<UrlShort>
  {
    CachedOrLoaded(entries, CodeCacheKey(code), now, LoadByCode(rows, code))
  }

  /** The owner has a user row holding Professional or Enterprise (the tier test of `Program.cs`). */
  predicate OwnerIsProfessionalOrHigher(users: seq<IdentityUser>, userId: string)
  {
    UserExists(users, userId)
    && (RoleProfessional in RolesOf(users, userId) || RoleEnterprise in RolesOf(users, userId))
  }

  datatype RedirectResult =
    | ToInvalidUrl
    | ToPreview(code: string, variation: int)   // /Preview/{code}?var={variation}
    | ToPassword(code: string)                  // /Password/{code}
    | ToDestination(url: ParsedUrl)
    | ServerError                               // an unhandled exception

  /** The outbound URL for a destination and the id of the click just stored. */
  function DestinationRedirect(d: DestinationUrl, clickId: nat, parseUrl: string -> ParsedUrl): RedirectResult
  {
    var parsed := parseUrl(d.url);
    ToDestination(ParsedUrl(parsed.base, OutboundQuery(parsed.query, d, clickId)))
  }

  /** The table after a cursor change: unchanged on a cache hit, the tracked row replaced on a miss. */
  function SavedRows(rows: seq<UrlShort>, hit: bool, pos: Option<nat>, u: UrlShort): seq<UrlShort>
    requires !hit ==> pos.Some? && pos.value < |rows|
  {
    if hit then rows else rows[pos.value := u]
  }

  /**
   * Saves a changed cursor. The cached object is the one the handler changed,
   * so the snapshot always changes; a cached object is not tracked by this
   * request's database context, so the table row changes only when this
   * request loaded it (a cache miss).
   */
  method SaveCursor(db: Db, cache: MemoryCache, cacheKey: string, u: UrlShort, hit: bool, pos: Option<nat>)
    requires db.Valid() && cacheKey in cache.entries
    requires !hit ==> pos.Some? && pos.value < |db.urlShorts| && db.urlShorts[pos.value].id == u.id
    modifies db`urlShorts, cache
    ensures db.Valid()
    ensures cache.entries == old(cache.entries)[cacheKey := old(cache.entries)[cacheKey].(value := Some(u))]
    ensures db.urlShorts == SavedRows(old(db.urlShorts), hit, pos, u)
  {
    cache.WriteBack(cacheKey, u);
    if !hit {
      db.SetUrlShort(pos.value, u);
    }
  }

  /** The resolving tail of `GET /{code}`: pick, advance the cursor, record the click, drop the cache entry, redirect. */
  method ResolveDestination(db: Db, cache: MemoryCache, cacheKey: string, u: UrlShort, hit: bool, pos: Option<nat>,
                            req: Request, env: Env, now: nat, unit: real)
    returns (result: RedirectResult)
    requires db.Valid() && cacheKey in cache.entries && |u.destinationUrls| > 0
    requires !hit ==> pos.Some? && pos.value < |db.urlShorts| && db.urlShorts[pos.value].id == u.id
    modifies db`urlShorts, db`clickStats, db`nextClickId, cache
    ensures db.Valid()
    ensures WeightedChoice(u.destinationUrls, u.currentDestinationIndex, Draw(u.destinationUrls, unit)).IndexOutOfRange? ==>
      && result == ServerError
      && db.urlShorts == old(db.urlShorts) && db.clickStats == old(db.clickStats) && db.nextClickId == old(db.nextClickId)
      && cache.entries == old(cache.entries)
    ensures WeightedChoice(u.destinationUrls, u.currentDestinationIndex, Draw(u.destinationUrls, unit)).Picked? ==>
      var d := u.destinationUrls[WeightedChoice(u.destinationUrls, u.currentDestinationIndex, Draw(u.destinationUrls, unit)).index];
      var advanced := u.(currentDestinationIndex := NextRotationIndex(u.currentDestinationIndex, |u.destinationUrls|));
      var details := if OwnerIsProfessionalOrHigher(db.users, u.userId) then Some(ClientDetailsOf(req, env.parseUserAgent)) else None;
      var click := RedirectClick(u.id, d.id, now, req.remoteIp, GeoFor(req.remoteIp, env.geoLookup), details);
      && db.clickStats == old(db.clickStats) + [click.(id := old(db.nextClickId))]
      && db.nextClickId == old(db.nextClickId) + 1
      && result == DestinationRedirect(d, old(db.nextClickId), env.parseUrl)
      && cache.entries == old(cache.entries) - {cacheKey}
      && db.urlShorts == SavedRows(old(db.urlShorts), hit, pos, advanced)
  {
    var pick := SelectWeightedDestinationUrl(u.destinationUrls, u.currentDestinationIndex, unit);
    if pick.IndexOutOfRange? {
      return ServerError;
    }
    var destinationUrl := u.destinationUrls[pick.index];
    var advanced := u.(currentDestinationIndex := NextRotationIndex(u.currentDestinationIndex, |u.destinationUrls|));
    SaveCursor(db, cache, cacheKey, advanced, hit, pos);

    result := RecordClick(db, u.id, destinationUrl, req.remoteIp, OwnerIsProfessionalOrHigher(db.users, u.userId), req, env, now);
    cache.Remove(cacheKey);
  }

  /**
   * Records the click of a resolved request and builds the outbound URL. The
   * client details are recorded only when `detailsAllowed` (the owner's tier,
   * as each handler tests it); `ip` is the address the handler keeps.
   */
  method RecordClick(db: Db, urlShortId: nat, destinationUrl: DestinationUrl, ip: Option<string>, detailsAllowed: bool,
                     req: Request, env: Env, now: nat)
    returns (result: RedirectResult)
    requires db.Valid()
    modifies db`clickStats, db`nextClickId
    ensures db.Valid()
    ensures var details := if detailsAllowed then Some(ClientDetailsOf(req, env.parseUserAgent)) else None;
      var click := RedirectClick(urlShortId, destinationUrl.id, now, ip, GeoFor(ip, env.geoLookup), details);
      && db.clickStats == old(db.clickStats) + [click.(id := old(db.nextClickId))]
      && db.nextClickId == old(db.nextClickId) + 1
      && result == DestinationRedirect(destinationUrl, old(db.nextClickId), env.parseUrl)
  {
    var geo := GeoFor(ip, env.geoLookup);
    var details := if detailsAllowed then Some(ClientDetailsOf(req, env.parseUserAgent)) else None;

    var clickStat := RedirectClick(urlShortId, destinationUrl.id, now, ip, geo, details);
    var clickId := db.AddClick(clickStat);

    var parsed := env.parseUrl(destinationUrl.url);
    var query := BuildOutboundQuery(parsed.query, destinationUrl, clickId);
    return ToDestination(ParsedUrl(parsed.base, query));
  }

  /**
   * `GET /{code}`. The short URL comes from the memory cache (the factory
   * loads it by exact code, deleted rows included). On a cache hit a cursor
   * change reaches the cached snapshot only; on a miss it is saved to the
   * table as well (see `SaveCursor`).
   */
  method HandleRedirect(db: Db, cache: MemoryCache, code: string, req: Request, env: Env, now: nat, unit: real)
    returns (result: RedirectResult)
    requires db.Valid()
    modifies db`urlShorts, db`clickStats, db`nextClickId, cache
    ensures db.Valid()
    // rejected, gated or previewed requests record no click
    ensures var s := SnapshotOf(old(cache.entries), old(db.urlShorts), code, now);
      RouteOf(s, req.userAgent, now) != Resolve ==> db.clickStats == old(db.clickStats) && db.nextClickId == old(db.nextClickId)
    // missing, deleted, expired or empty entries go to /InvalidUrl, password entries to /Password/{code}; only the cache entry's window moves
    ensures var s := SnapshotOf(old(cache.entries), old(db.urlShorts), code, now);
      RouteOf(s, req.userAgent, now) in {Invalid, NoDestinations, PasswordGate} ==>
        && result == (if RouteOf(s, req.userAgent, now) == PasswordGate then ToPassword(code) else ToInvalidUrl)
        && db.urlShorts == old(db.urlShorts)
        && cache.entries == old(cache.entries)[CodeCacheKey(code) := CacheEntry(s, now)]
    // a crawler goes to the preview page and the OG cursor advances
    ensures var s := SnapshotOf(old(cache.entries), old(db.urlShorts), code, now);
      RouteOf(s, req.userAgent, now) == CrawlerPreview ==>
        var u := s.value;
        var advanced := u.(currentOgMetadataIndex := NextOgIndex(u.currentOgMetadataIndex, |u.ogMetadataVariations|));
        && result == ToPreview(code, VariationIndex(req.varQuery, env.tryParseInt, u.currentOgMetadataIndex))
        && cache.entries == old(cache.entries)[CodeCacheKey(code) := CacheEntry(Some(advanced), now)]
        && db.urlShorts == SavedRows(old(db.urlShorts), IsLive(old(cache.entries), CodeCacheKey(code), now),
                                     PositionByCode(old(db.urlShorts), code), advanced)
    // a resolvable entry: an unguarded fallback throws; otherwise one click is recorded, the cursor advances and the entry leaves the cache
    ensures var s := SnapshotOf(old(cache.entries), old(db.urlShorts), code, now);
      RouteOf(s, req.userAgent, now) == Resolve ==>
        var u := s.value;
        var pick := WeightedChoice(u.destinationUrls, u.currentDestinationIndex, Draw(u.destinationUrls, unit));
        && (pick.IndexOutOfRange? ==>
              && result == ServerError
              && db.urlShorts == old(db.urlShorts) && db.clickStats == old(db.clickStats) && db.nextClickId == old(db.nextClickId)
              && cache.entries == old(cache.entries)[CodeCacheKey(code) := CacheEntry(s, now)])
        && (pick.Picked? ==>
              var d := u.destinationUrls[pick.index];
              var advanced := u.(currentDestinationIndex := NextRotationIndex(u.currentDestinationIndex, |u.destinationUrls|));
              var details := if OwnerIsProfessionalOrHigher(db.users, u.userId) then Some(ClientDetailsOf(req, env.parseUserAgent)) else None;
              var click := RedirectClick(u.id, d.id, now, req.remoteIp, GeoFor(req.remoteIp, env.geoLookup), details);
              && db.clickStats == old(db.clickStats) + [click.(id := old(db.nextClickId))]
              && result == DestinationRedirect(d, old(db.nextClickId), env.parseUrl)
              && cache.entries == old(cache.entries) - {CodeCacheKey(code)}
              && db.urlShorts == SavedRows(old(db.urlShorts), IsLive(old(cache.entries), CodeCacheKey(code), now),
                                           PositionByCode(old(db.urlShorts), code), advanced))
  {
    var cacheKey := CodeCacheKey(code);
    ghost var entries0 := cache.entries;
    var shortUrl, hit := cache.GetOrCreate(cacheKey, now, LoadByCode(db.urlShorts, code));
    var pos := PositionByCode(db.urlShorts, code);
    result := ServeSnapshot(db, cache, code, shortUrl, hit, pos, req, env, now, unit);
    assert (entries0[cacheKey := CacheEntry(shortUrl, now)]) - {cacheKey} == entries0 - {cacheKey};
  }

  /**
   * The handler's tests on the snapshot `s` it got from the cache (already
   * stored under its key), in source order; `hit` says whether it came from
   * a live entry and `pos` is the table row with that code.
   */
  method ServeSnapshot(db: Db, cache: MemoryCache, code: string, s: Option<UrlShort>, hit: bool, pos: Option<nat>,
                       req: Request, env: Env, now: nat, unit: real)
    returns (result: RedirectResult)
    requires db.Valid() && CodeCacheKey(code) in cache.entries && cache.entries[CodeCacheKey(code)].value == s
    requires pos == PositionByCode(db.urlShorts, code)
    requires !hit ==> s == LoadByCode(db.urlShorts, code)
    modifies db`urlShorts, db`clickStats, db`nextClickId, cache
    ensures db.Valid()
    ensures RouteOf(s, req.userAgent, now) != Resolve ==> db.clickStats == old(db.clickStats) && db.nextClickId == old(db.nextClickId)
    ensures RouteOf(s, req.userAgent, now) in {Invalid, NoDestinations, PasswordGate} ==>
      && result == (if RouteOf(s, req.userAgent, now) == PasswordGate then ToPassword(code) else ToInvalidUrl)
      && db.urlShorts == old(db.urlShorts)
      && cache.entries == old(cache.entries)
    ensures RouteOf(s, req.userAgent, now) == CrawlerPreview ==>
      var u := s.value;
      var advanced := u.(currentOgMetadataIndex := NextOgIndex(u.currentOgMetadataIndex, |u.ogMetadataVariations|));
      && result == ToPreview(code, VariationIndex(req.varQuery, env.tryParseInt, u.currentOgMetadataIndex))
      && cache.entries == old(cache.entries)[CodeCacheKey(code) := old(cache.entries)[CodeCacheKey(code)].(value := Some(advanced))]
      && db.urlShorts == SavedRows(old(db.urlShorts), hit, pos, advanced)
    ensures RouteOf(s, req.userAgent, now) == Resolve ==>
      var u := s.value;
      var pick := WeightedChoice(u.destinationUrls, u.currentDestinationIndex, Draw(u.destinationUrls, unit));
      && (pick.IndexOutOfRange? ==>
            && result == ServerError
            && db.urlShorts == old(db.urlShorts) && db.clickStats == old(db.clickStats) && db.nextClickId == old(db.nextClickId)
            && cache.entries == old(cache.entries))
      && (pick.Picked? ==>
            var d := u.destinationUrls[pick.index];
            var advanced := u.(currentDestinationIndex := NextRotationIndex(u.currentDestinationIndex, |u.destinationUrls|));
            var details := if OwnerIsProfessionalOrHigher(db.users, u.userId) then Some(ClientDetailsOf(req, env.parseUserAgent)) else None;
            var click := RedirectClick(u.id, d.id, now, req.remoteIp, GeoFor(req.remoteIp, env.geoLookup), details);
            && db.clickStats == old(db.clickStats) + [click.(id := old(db.nextClickId))]
            && result == DestinationRedirect(d, old(db.nextClickId), env.parseUrl)
            && cache.entries == old(cache.entries) - {CodeCacheKey(code)}
            && db.urlShorts == SavedRows(old(db.urlShorts), hit, pos, advanced))
  {
    var cacheKey := CodeCacheKey(code);
    if s.None? || s.value.isDeleted {
      return ToInvalidUrl;
    }
    var u := s.value;
    if u.expirationDate.Some? && u.expirationDate.value < now {
      return ToInvalidUrl;
    }

    if IsSocialMediaCrawler(req.userAgent) {
      var varIndex := VariationIndex(req.varQuery, env.tryParseInt, u.currentOgMetadataIndex);
      var advanced := u.(currentOgMetadataIndex := NextOgIndex(u.currentOgMetadataIndex, |u.ogMetadataVariations|));
      SaveCursor(db, cache, cacheKey, advanced, hit, pos);
      return ToPreview(code, varIndex);
    }

    if !IsNullOrEmpty(u.password) {
      return ToPassword(code);
    }

    if |u.destinationUrls| == 0 {
      return ToInvalidUrl;
    }

    result := ResolveDestination(db, cache, cacheKey, u, hit, pos, req, env, now, unit);
  }

  // ---------------------------------------------------------------------------
  // GET /api/check-slug/{slug}
  // ---------------------------------------------------------------------------

  datatype SlugAnswer = SlugAnswer(isAvailable: bool, message: string)

  /** The slug-availability answer: a format error, or availability by case-insensitive comparison with every stored code. */
  function CheckSlug(rows: seq<UrlShort>, slug: string): (answer: SlugAnswer)
    ensures !InputValidation.MatchesSlugPattern(slug) ==> answer == SlugAnswer(false, "Invalid slug format.")
    ensures InputValidation.MatchesSlugPattern(slug) ==>
      && (answer.isAvailable <==> !CodeTakenIgnoringCase(rows, slug))
      && answer.message == (if answer.isAvailable then "Slug is available." else "Slug is already in use.")
  {
    InputValidation.SlugPatternExcludesWhiteSpace(slug);
    if IsBlank(slug) || !InputValidation.MatchesSlugPattern(slug) then
      SlugAnswer(false, "Invalid slug format.")
    else
      var isAvailable := !CodeTakenIgnoringCase(rows, slug);
      SlugAnswer(isAvailable, if isAvailable then "Slug is available." else "Slug is already in use.")
  }

  // ---------------------------------------------------------------------------
  // POST /api/update-screen-resolution
  // ---------------------------------------------------------------------------

  /** `FindAsync(clickId)`: the position of the click with that primary key. */
  function ClickPosition(clicks: seq<ClickStat>, clickId: int): (pos: Option<nat>)
    ensures pos.Some? ==> pos.value < |clicks| && clicks[pos.value].id == clickId
    ensures pos.None? ==> forall i | 0 <= i < |clicks| :: clicks[i].id != clickId
  {
    FirstWhere(clicks, (c: ClickStat) => c.id == clickId)
  }

  /** Sets the screen resolution of the click with that id (Ok), or changes nothing (NotFound). */
  method UpdateScreenResolution(db: Db, clickId: int, screenResolution: Option<string>) returns (found: bool)
    requires db.Valid()
    modifies db`clickStats
    ensures db.Valid()
    ensures found <==> exists i | 0 <= i < |old(db.clickStats)| :: old(db.clickStats)[i].id == clickId
    ensures |db.clickStats| == |old(db.clickStats)|
    ensures forall i | 0 <= i < |db.clickStats| ::
      db.clickStats[i] == if old(db.clickStats)[i].id == clickId
                          then old(db.clickStats)[i].(screenResolution := screenResolution)
                          else old(db.clickStats)[i]
  {
    var pos := ClickPosition(db.clickStats, clickId);
    if pos.None? {
      return false;
    }
    var c := db.clickStats[pos.value];
    db.SetClick(pos.value, c.(screenResolution := screenResolution));
    return true;
  }

  // ---------------------------------------------------------------------------
  // POST /webhook/stripe: the role change
  // ---------------------------------------------------------------------------

  /** The configured Stripe price ids (each may be missing from configuration). */
  datatype PriceConfig = PriceConfig(basicPriceId: Option<string>, professionalPriceId: Option<string>, enterprisePriceId: Option<string>)

  /** A verified Stripe event, reduced to what the handler reads. */
  datatype StripeEvent =
    | SubscriptionCreated(subscriptionId: string, customerId: string, priceId: string)
    | SubscriptionDeleted(customerId: string)
    | OtherEvent

  /** The role a price id grants, if it is one of the three configured prices. */
  function RoleForPrice(id: string, config: PriceConfig): (role: Option<string>)
    ensures role.Some? <==> Some(id) in {config.basicPriceId, config.professionalPriceId, config.enterprisePriceId}
    ensures role.Some? ==> role.value in {RoleBasic, RoleProfessional, RoleEnterprise}
    ensures Some(id) == config.basicPriceId ==> role == Some(RoleBasic)
  {
    if Some(id) == config.basicPriceId then Some(RoleBasic)
    else if Some(id) == config.professionalPriceId then Some(RoleProfessional)
    else if Some(id) == config.enterprisePriceId then Some(RoleEnterprise)
    else None
  }

  /** The switch as written: it compares the subscription's own id, not its price id, with the configured prices. */
  function RoleForSubscriptionAsWritten(e: StripeEvent, config: PriceConfig): Option<string>
    requires e.SubscriptionCreated?
  {
    RoleForPrice(e.subscriptionId, config)
  }

  /** The switch as intended: the subscription's price decides the role. */
  function RoleForSubscription(e: StripeEvent, config: PriceConfig): (role: Option<string>)
    requires e.SubscriptionCreated?
    ensures role.Some? <==> Some(e.priceId) in {config.basicPriceId, config.professionalPriceId, config.enterprisePriceId}
    ensures Some(e.priceId) == config.basicPriceId ==> role == Some(RoleBasic)
  {
    RoleForPrice(e.priceId, config)
  }

  /**
   * Stripe subscription ids start with "sub_" and price ids with "price_", so
   * the switch as written never finds a role and no purchase changes a role;
   * the intended switch finds the role of a configured price.
   */
  lemma SubscriptionIdNeverMatchesPrice(e: StripeEvent, config: PriceConfig)
    requires e.SubscriptionCreated? && StartsWith(e.subscriptionId, "sub_")
    requires forall p | p in {config.basicPriceId, config.professionalPriceId, config.enterprisePriceId} && p.Some? ::
      StartsWith(p.value, "price_")
    ensures RoleForSubscriptionAsWritten(e, config).None?
    ensures Some(e.priceId) in {config.basicPriceId, config.professionalPriceId, config.enterprisePriceId} ==>
      RoleForSubscription(e, config).Some?
  {
    var id := e.subscriptionId;
    assert id[0] == "sub_"[0];
    forall p | p in {config.basicPriceId, config.professionalPriceId, config.enterprisePriceId} && p.Some?
      ensures p.value != id
    {
      assert p.value[0] == "price_"[0];
    }
  }

  /** A concrete event: basic price purchased, subscription "sub_1". */
  lemma BasicPurchaseIgnored()
    ensures RoleForSubscriptionAsWritten(SubscriptionCreated("sub_1", "cus_1", "price_basic"), PriceConfig(Some("price_basic"), Some("price_pro"), Some("price_ent"))).None?
    ensures RoleForSubscription(SubscriptionCreated("sub_1", "cus_1", "price_basic"), PriceConfig(Some("price_basic"), Some("price_pro"), Some("price_ent"))) == Some(RoleBasic)
  {
    assert "sub_1" != "price_basic" && "sub_1" != "price_pro" && "sub_1" != "price_ent";
  }

  /** Removes the user's roles one by one, then adds the single new role. */
  method ReplaceRoles(current: set<string>, newRole: string) returns (roles: set<string>)
    ensures roles == {newRole}
  {
    roles := current;
    var remaining := current;
    while remaining != {}
      invariant roles == remaining
      decreases |remaining|
    {
      var role :| role in remaining;
      roles := roles - {role};
      remaining := remaining - {role};
    }
    roles := roles + {newRole};
  }

  /** The customer's Identity user: first the Stripe record, then the user row with that id. */
  function UserPositionForCustomer(infos: seq<UserStripeInfo>, users: seq<IdentityUser>, customerId: string): (pos: Option<nat>)
    ensures pos.Some? ==> pos.value < |users|
    ensures pos.Some? ==> exists i | 0 <= i < |infos| :: infos[i].stripeCustomerId == customerId && infos[i].userId == users[pos.value].id
    ensures (forall i | 0 <= i < |infos| :: infos[i].stripeCustomerId != customerId) ==> pos.None?
    // the first link with that customer decides, and its user is found whenever it exists
    ensures forall i | 0 <= i < |infos| && infos[i].stripeCustomerId == customerId
                       && (forall j | 0 <= j < i :: infos[j].stripeCustomerId != customerId) ::
      && ((exists k | 0 <= k < |users| :: users[k].id == infos[i].userId) <==> pos.Some?)
      && (pos.Some? ==> users[pos.value].id == infos[i].userId)
  {
    match FirstWhere(infos, (u: UserStripeInfo) => u.stripeCustomerId == customerId)
    case None => None
    case Some(i) => FirstWhere(users, (u: IdentityUser) => u.id == infos[i].userId)
  }

  datatype WebhookResult = WebhookOk | WebhookBadRequest

  /**
   * The webhook after signature checking (`event` None: the signature or
   * payload was rejected). A created subscription whose price maps to a role
   * leaves the customer with exactly that role; a deleted subscription leaves
   * exactly "Free". Nothing else changes.
   */
  method HandleStripeWebhook(db: Db, event: Option<StripeEvent>, config: PriceConfig) returns (result: WebhookResult)
    modifies db`users
    ensures event.None? <==> result == WebhookBadRequest
    ensures |db.users| == |old(db.users)|
    ensures var newRole :=
        if event.None? then None
        else if event.value.SubscriptionCreated? then RoleForSubscription(event.value, config)
        else if event.value.SubscriptionDeleted? then Some(RoleFree)
        else None;
      var pos := if event.Some? && !event.value.OtherEvent?
                 then UserPositionForCustomer(old(db.userStripeInfos), old(db.users), event.value.customerId) else None;
      if newRole.Some? && pos.Some?
      then db.users == old(db.users)[pos.value := old(db.users)[pos.value].(roles := {newRole.value})]
      else db.users == old(db.users)
  {
    if event.None? {
      return WebhookBadRequest;
    }
    var e := event.value;
    if e.OtherEvent? {
      return WebhookOk;
    }
    var pos := UserPositionForCustomer(db.userStripeInfos, db.users, e.customerId);
    if pos.None? {
      return WebhookOk;
    }
    var newRole := if e.SubscriptionCreated? then RoleForSubscription(e, config) else Some(RoleFree);
    if newRole.Some? {
      var user := db.users[pos.value];
      var roles := ReplaceRoles(user.roles, newRole.value);
      db.SetUser(pos.value, user.(roles := roles));
    }
    return WebhookOk;
  }
}
