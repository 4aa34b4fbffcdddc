/**
 * The dashboard page (`IndexModel`): the signed-in user's list of live short
 * URLs, the shorten form (input check, quota, per-tier gating of what is
 * forwarded to `UrlShortenerService`) and the delete button.
 *
 * The quota comes from the roles in the caller's sign-in claims; the tier
 * gating from the roles stored for the user (Professional or Enterprise,
 * Enterprise alone for expiry and password).
 */
module IndexPage {
  import opened Common
  import opened Entities
  import opened Store
  import opened InputValidation
  import opened RateLimiting
  import opened UrlLimiter
  import opened UrlShortening

  /** The quota counts every row the caller owns, deleted ones included. */
  function OwnedCount(rows: seq<UrlShort>, userId: string): nat
  {
    CountWhere(rows, (u: UrlShort) => u.userId == userId)
  }

  /** A variant is kept when its title, its description or its image is not blank. */
  predicate HasOgContent(og: OgMetadata)
  {
    !IsBlank(og.title) || !IsBlank(og.description) || !IsNullOrWhiteSpace(og.image)
  }

  /** The posted variants, each with the path of the image uploaded for its position (when a non-empty file was). */
  function WithUploads(ogs: seq<OgMetadata>, uploadPath: nat -> Option<string>): (r: seq<OgMetadata>)
    ensures |r| == |ogs|
    ensures forall i | 0 <= i < |ogs| :: r[i] == (if uploadPath(i).Some? then ogs[i].(image := uploadPath(i)) else ogs[i])
  {
    seq(|ogs|, i requires 0 <= i < |ogs| => if uploadPath(i).Some? then ogs[i].(image := uploadPath(i)) else ogs[i])
  }

  /** The for-loop over the posted variants: attach the upload, keep the variant if it says anything. */
  method CollectOgVariants(ogs: seq<OgMetadata>, uploadPath: nat -> Option<string>) returns (kept: seq<OgMetadata>)
    ensures kept == Filter(WithUploads(ogs, uploadPath), HasOgContent)
  {
    ghost var all := WithUploads(ogs, uploadPath);
    kept := [];
    for i := 0 to |ogs|
      invariant kept == Filter(all[..i], HasOgContent)
    {
      var og := ogs[i];
      if uploadPath(i).Some? {
        og := og.(image := uploadPath(i));
      }
      assert all[..i + 1] == all[..i] + [og];
      FilterAppend(all[..i], og, HasOgContent);
      if HasOgContent(og) {
        kept := kept + [og];
      }
    }
    assert all[..|ogs|] == all;
  }

  /** What the page forwards to `CreateShortUrlAsync`. */
  datatype Forwarded = Forwarded(
    customSlug: Option<string>,
    destinationUrls: seq<DestinationUrl>,
    ogMetadataVariations: seq<OgMetadata>,
    expirationDate: Option<nat>,
    password: Option<string>)

  /**
   * The tier gating: slug and OG variants only for Professional or higher,
   * expiry and password only for Enterprise; below Professional only the
   * first destination is sent, with its UTM values cleared.
   */
  function Forward(isProfessionalOrHigher: bool, isEnterprise: bool, customSlug: Option<string>,
                   ds: seq<DestinationUrl>, keptOg: seq<OgMetadata>, expirationDate: Option<nat>, password: Option<string>): (f: Forwarded)
    requires |ds| >= 1
    ensures isProfessionalOrHigher ==> f.customSlug == customSlug && f.destinationUrls == ds && f.ogMetadataVariations == keptOg
    ensures !isProfessionalOrHigher ==>
      && f.customSlug.None? && f.ogMetadataVariations == []
      && |f.destinationUrls| == 1
      && f.destinationUrls[0] == ds[0].(utmSource := None, utmMedium := None, utmCampaign := None)
    ensures isEnterprise ==> f.expirationDate == expirationDate && f.password == password
    ensures !isEnterprise ==> f.expirationDate.None? && f.password.None?
  {
    Forwarded(
      if isProfessionalOrHigher then customSlug else None,
      if isProfessionalOrHigher then ds else [ds[0].(utmSource := None, utmMedium := None, utmCampaign := None)],
      if isProfessionalOrHigher then keptOg else [],
      if isEnterprise then expirationDate else None,
      if isEnterprise then password else None)
  }

  predicate HasBlankUrl(ds: seq<DestinationUrl>)
  {
    exists i | 0 <= i < |ds| :: IsBlank(ds[i].url)
  }

  /** What the page forwards for this user: the tier gating under the roles stored for the user. */
  function GatedFor(users: seq<IdentityUser>, userId: string, customSlug: Option<string>, ds: seq<DestinationUrl>,
                    ogs: seq<OgMetadata>, uploadPath: nat -> Option<string>,
                    expirationDate: Option<nat>, password: Option<string>): Forwarded
    requires |ds| >= 1
  {
    var roles := RolesOf(users, userId);
    Forward(RoleProfessional in roles || RoleEnterprise in roles, RoleEnterprise in roles, customSlug, ds,
            Filter(WithUploads(ogs, uploadPath), HasOgContent), expirationDate, password)
  }

  /** The request passes the form check and the quota, and the user exists: the service is called. */
  predicate ReachesService(rows: seq<UrlShort>, users: seq<IdentityUser>, userId: string, claimRoles: set<string>,
                           modelValid: bool, ds: seq<DestinationUrl>)
  {
    && modelValid && ds != [] && !HasBlankUrl(ds)
    && OwnedCount(rows, userId) < GetShortUrlLimitForUser(claimRoles).value
    && UserExists(users, userId)
  }

  /** The service's rate limiter refuses this caller's creation request. */
  predicate Throttled(entries: map<string, RequestInfo>, httpContext: Option<HttpCaller>, now: nat)
  {
    httpContext.Some? &&
    Counted(entries, CacheKey(UrlCreation, CallerKey(httpContext.value)), now).count
      > Limit(UrlCreation, httpContext.value.isAuthenticated)
  }

  datatype ShortenOutcome =
    | FormError                   // "At least one valid destination URL is required."
    | QuotaReached(limit: int)    // "You have reached your limit of … shortened URLs."
    | CreateFailed(error: CreateError)  // an ArgumentException from the service, shown on the form
    | Unhandled                   // an exception the page does not catch
    | Shortened(code: string)

  /** `OnPostShortenAsync` */
  method OnPostShorten(db: Db, limiter: RateLimiter?, httpContext: Option<HttpCaller>,
                       userId: string, claimRoles: set<string>, modelValid: bool,
                       customSlug: Option<string>, destinationUrls: seq<DestinationUrl>,
                       ogMetadataVariations: seq<OgMetadata>, uploadPath: nat -> Option<string>,
                       expirationDate: Option<nat>, password: Option<string>,
                       allowedDomains: Option<seq<string>>, tryCreate: string -> Option<Uri>,
                       tryParseIp: string -> Option<IpAddress>, hashPassword: string -> string,
                       draws: seq<nat>, now: nat)
    returns (outcome: ShortenOutcome)
    requires db.Valid() && DrawsBelow62(draws)
    modifies db`urlShorts, db`nextUrlId, limiter
    ensures db.Valid()
    ensures !outcome.Shortened? ==> db.urlShorts == old(db.urlShorts)
    // rejected before anything is looked up
    ensures !modelValid || destinationUrls == [] || HasBlankUrl(destinationUrls) ==> outcome == FormError
    // the quota: every owned row counts, deleted ones included
    ensures modelValid && destinationUrls != [] && !HasBlankUrl(destinationUrls) ==>
      var limit := GetShortUrlLimitForUser(claimRoles).value;
      (OwnedCount(old(db.urlShorts), userId) >= limit <==> outcome == QuotaReached(limit))
    // the limiter counts the request exactly when the service is called with an HTTP context
    ensures limiter != null ==>
      limiter.entries ==
        if httpContext.Some? && ReachesService(old(db.urlShorts), db.users, userId, claimRoles, modelValid, destinationUrls)
        then AfterRequest(old(limiter.entries), CacheKey(UrlCreation, CallerKey(httpContext.value)), now)
        else old(limiter.entries)
    // uncaught: past the quota, the user row is missing or the rate limiter refuses
    ensures outcome == Unhandled <==>
      && modelValid && destinationUrls != [] && !HasBlankUrl(destinationUrls)
      && OwnedCount(old(db.urlShorts), userId) < GetShortUrlLimitForUser(claimRoles).value
      && (!UserExists(db.users, userId) || (limiter != null && Throttled(old(limiter.entries), httpContext, now)))
    // once the service runs unthrottled: its input error, else its code refusal, else the new code
    ensures ReachesService(old(db.urlShorts), db.users, userId, claimRoles, modelValid, destinationUrls) &&
            !(limiter != null && Throttled(old(limiter.entries), httpContext, now)) ==>
      var f := GatedFor(db.users, userId, customSlug, destinationUrls, ogMetadataVariations, uploadPath, expirationDate, password);
      var inputError := InputError(Some(f.destinationUrls), allowedDomains, tryCreate, tryParseIp);
      var choice := ChooseCode(old(db.urlShorts), IsFreeUser(db.users, userId), f.customSlug, draws);
      if inputError.Some? then outcome == CreateFailed(inputError.value)
      else if choice.CodeRefused? then outcome == CreateFailed(choice.error)
      else outcome == Shortened(choice.code)
    // a created row carries what the tier gating forwarded, after the service's own free-tier downgrade
    ensures outcome.Shortened? ==>
      && UserExists(db.users, userId)
      && OwnedCount(old(db.urlShorts), userId) < GetShortUrlLimitForUser(claimRoles).value
      && var f := GatedFor(db.users, userId, customSlug, destinationUrls, ogMetadataVariations, uploadPath, expirationDate, password);
      && var isFree := IsFreeUser(db.users, userId);
      && ChooseCode(old(db.urlShorts), isFree, f.customSlug, draws) == Code(outcome.code)
      && db.urlShorts == old(db.urlShorts) +
           [NewUrlShort(outcome.code, userId, now, isFree, f.destinationUrls, Some(f.ogMetadataVariations),
                        f.expirationDate, f.password, hashPassword).(id := old(db.nextUrlId))]
  {
    if !modelValid || destinationUrls == [] || HasBlankUrl(destinationUrls) {
      return FormError;
    }

    var currentCount := OwnedCount(db.urlShorts, userId);
    var limit := GetShortUrlLimitForUser(claimRoles);
    if limit.Some? && currentCount >= limit.value {
      return QuotaReached(limit.value);
    }
    if !UserExists(db.users, userId) {
      // `IsInRoleAsync(null, …)` throws
      return Unhandled;
    }
    var roles := RolesOf(db.users, userId);
    var isProfessionalOrHigher := RoleProfessional in roles || RoleEnterprise in roles;
    var isEnterprise := RoleEnterprise in roles;

    var ogMetadataWithImages := [];
    if isProfessionalOrHigher {
      ogMetadataWithImages := CollectOgVariants(ogMetadataVariations, uploadPath);
    }
    var f := GatedFor(db.users, userId, customSlug, destinationUrls, ogMetadataVariations, uploadPath, expirationDate, password);
    assert isProfessionalOrHigher ==> f.ogMetadataVariations == ogMetadataWithImages;
    assert ReachesService(db.urlShorts, db.users, userId, claimRoles, modelValid, destinationUrls);

    outcome := Submit(db, limiter, httpContext, userId, f, allowedDomains, tryCreate, tryParseIp, hashPassword, draws, now);
  }

  /** The `try` around `CreateShortUrlAsync`: an `ArgumentException` is shown on the form, anything else escapes. */
  method Submit(db: Db, limiter: RateLimiter?, httpContext: Option<HttpCaller>, userId: string, f: Forwarded,
                allowedDomains: Option<seq<string>>, tryCreate: string -> Option<Uri>,
                tryParseIp: string -> Option<IpAddress>, hashPassword: string -> string, draws: seq<nat>, now: nat)
    returns (outcome: ShortenOutcome)
    requires db.Valid() && DrawsBelow62(draws)
    modifies db`urlShorts, db`nextUrlId, limiter
    ensures db.Valid()
    ensures limiter != null ==>
      limiter.entries ==
        if httpContext.Some? then AfterRequest(old(limiter.entries), CacheKey(UrlCreation, CallerKey(httpContext.value)), now)
        else old(limiter.entries)
    ensures !outcome.Shortened? ==> db.urlShorts == old(db.urlShorts)
    ensures outcome.FormError? == false && outcome.QuotaReached? == false
    ensures outcome == Unhandled <==> limiter != null && Throttled(old(limiter.entries), httpContext, now)
    ensures !(limiter != null && Throttled(old(limiter.entries), httpContext, now)) ==>
      var inputError := InputError(Some(f.destinationUrls), allowedDomains, tryCreate, tryParseIp);
      var choice := ChooseCode(old(db.urlShorts), IsFreeUser(db.users, userId), f.customSlug, draws);
      if inputError.Some? then outcome == CreateFailed(inputError.value)
      else if choice.CodeRefused? then outcome == CreateFailed(choice.error)
      else outcome == Shortened(choice.code)
    ensures outcome.Shortened? ==>
      && ChooseCode(old(db.urlShorts), IsFreeUser(db.users, userId), f.customSlug, draws) == Code(outcome.code)
      && db.urlShorts == old(db.urlShorts) +
           [NewUrlShort(outcome.code, userId, now, IsFreeUser(db.users, userId), f.destinationUrls, Some(f.ogMetadataVariations),
                        f.expirationDate, f.password, hashPassword).(id := old(db.nextUrlId))]
  {
    var result := CreateShortUrl(db, limiter, httpContext, userId, f.customSlug, Some(f.destinationUrls),
                                 Some(f.ogMetadataVariations), f.expirationDate, f.password,
                                 allowedDomains, tryCreate, tryParseIp, hashPassword, draws, now);
    match result
    case Created(code) =>
      return Shortened(code);
    case Rejected(RateLimitExceeded) =>
      // InvalidOperationException is not an ArgumentException
      return Unhandled;
    case Rejected(e) =>
      return CreateFailed(e);
  }

  /**
   * A caller whose claims hold neither Free nor Basic (a Professional or
   * Enterprise subscriber whose roles were replaced by that one role) has a
   * quota of 0 and can never shorten a URL here.
   */
  lemma HigherTierAloneIsLockedOut(claimRoles: set<string>, rows: seq<UrlShort>, userId: string)
    requires RoleFree !in claimRoles && RoleBasic !in claimRoles
    ensures OwnedCount(rows, userId) >= GetShortUrlLimitForUser(claimRoles).value
  {
  }

  /** Soft-deleting a row does not give quota back: the owned count is unchanged. */
  lemma {:induction false} DeleteKeepsQuotaUsed(rows: seq<UrlShort>, userId: string, pos: nat)
    requires pos < |rows|
    ensures OwnedCount(rows[pos := rows[pos].(isDeleted := true)], userId) == OwnedCount(rows, userId)
  {
    var p := (u: UrlShort) => u.userId == userId;
    if pos == 0 {
      assert rows[pos := rows[pos].(isDeleted := true)][1..] == rows[1..];
    } else {
      DeleteKeepsQuotaUsed(rows[1..], userId, pos - 1);
      assert rows[pos := rows[pos].(isDeleted := true)][1..] == rows[1..][pos - 1 := rows[pos].(isDeleted := true)];
    }
  }

  /** `OnPostDeleteAsync`: NotFound (false) unless the caller owns a live row with that id, which is then soft-deleted. */
  method OnPostDelete(db: Db, userId: string, id: int) returns (found: bool)
    requires db.Valid()
    modifies db`urlShorts
    ensures db.Valid()
    ensures found <==> exists i | 0 <= i < |old(db.urlShorts)| ::
      old(db.urlShorts)[i].id == id && old(db.urlShorts)[i].userId == userId && !old(db.urlShorts)[i].isDeleted
    ensures |db.urlShorts| == |old(db.urlShorts)|
    ensures forall i | 0 <= i < |db.urlShorts| ::
      db.urlShorts[i] == (if found && old(db.urlShorts)[i].id == id then old(db.urlShorts)[i].(isDeleted := true) else old(db.urlShorts)[i])
  {
    var pos := OwnedLivePosition(db.urlShorts, userId, id);
    if pos.None? {
      return false;
    }
    db.SetUrlShort(pos.value, db.urlShorts[pos.value].(isDeleted := true));
    return true;
  }
}
