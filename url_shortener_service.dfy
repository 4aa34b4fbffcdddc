/**
 * `UrlShortenerService`: creating a short URL (rate limit, destination
 * checks, code choice, free-tier downgrade, one new row), looking one up by
 * code and soft-deleting it.
 *
 * `Random.Next(62)` is a supplied stream of draws, each below 62; the
 * do-while retry loop takes six draws per attempt and stops when the stream
 * runs out (the service itself would keep drawing).
 */
module UrlShortening {
  import opened Common
  import opened Entities
  import opened Store
  import opened InputValidation
  import opened RateLimiting

  const Digits: string := "0123456789"
  const UpperCase: string := "ABCDEFGHIJKLMNOPQRSTUVWXYZ"
  const LowerCase: string := "abcdefghijklmnopqrstuvwxyz"

  /** The alphabet `GenerateCode` draws from: the service's 62-character literal, written in its three runs. */
  const Base62Chars: string := Digits + UpperCase + LowerCase

  /** Length of a generated code. */
  const CodeLength: nat := 6

  predicate IsBase62Char(c: char)
  {
    '0' <= c <= '9' || 'A' <= c <= 'Z' || 'a' <= c <= 'z'
  }

  /** The character at position `i` of the alphabet: the ten digits, then A-Z, then a-z. */
  function Base62At(i: nat): char
    requires i < 62
  {
    if i < 10 then (48 + i) as char
    else if i < 36 then (65 + i - 10) as char
    else (97 + i - 36) as char
  }

  /** Where a character sits in the alphabet. */
  function Base62Index(c: char): nat
    requires IsBase62Char(c)
  {
    if c <= '9' then c as nat - 48
    else if c <= 'Z' then c as nat - 65 + 10
    else c as nat - 97 + 36
  }

  /** The alphabet literal is digits, upper case, lower case, each in ascending order. */
  lemma Base62Layout()
    ensures |Base62Chars| == 62
    ensures forall i | 0 <= i < 62 :: Base62Chars[i] == Base62At(i)
  {
    assert forall i | 0 <= i < 10 :: Digits[i] == (48 + i) as char;
    assert forall i | 0 <= i < 26 :: UpperCase[i] == (65 + i) as char;
    assert forall i | 0 <= i < 26 :: LowerCase[i] == (97 + i) as char;
  }

  /** Every alphabet position holds an alphanumeric character, and the index recovers the position. */
  lemma Base62RoundTrip(i: nat)
    requires i < 62
    ensures IsBase62Char(Base62Chars[i])
    ensures Base62Index(Base62Chars[i]) == i
  {
    Base62Layout();
  }

  /** Every ASCII letter and digit is in the alphabet, at its index. */
  lemma Base62Covers(c: char)
    requires IsBase62Char(c)
    ensures Base62Index(c) < 62 && Base62Chars[Base62Index(c)] == c
  {
    Base62Layout();
  }

  predicate DrawsBelow62(draws: seq<nat>)
  {
    forall i | 0 <= i < |draws| :: draws[i] < 62
  }

  /** The code a run of draws spells: one alphabet character per draw. */
  function CodeFrom(draws: seq<nat>): (code: string)
    requires DrawsBelow62(draws)
    ensures |code| == |draws|
    ensures forall i | 0 <= i < |code| :: IsBase62Char(code[i])
  {
    Base62Layout();
    seq(|draws|, i requires 0 <= i < |draws| => Base62Chars[draws[i]])
  }

  /** Reading a code back through the alphabet gives the draws: different draws spell different codes. */
  lemma {:induction false} CodeFromInjective(d1: seq<nat>, d2: seq<nat>)
    requires DrawsBelow62(d1) && DrawsBelow62(d2)
    requires CodeFrom(d1) == CodeFrom(d2)
    ensures d1 == d2
  {
    var c := CodeFrom(d1);
    forall i | 0 <= i < |d1|
      ensures d1[i] == d2[i]
    {
      Base62RoundTrip(d1[i]);
      Base62RoundTrip(d2[i]);
      assert c[i] == Base62Chars[d1[i]] == Base62Chars[d2[i]];
    }
  }

  /** A generated code always passes the custom-slug format check. */
  lemma GeneratedCodeIsWellFormedSlug(draws: seq<nat>)
    requires DrawsBelow62(draws) && |draws| >= 1
    ensures MatchesSlugPattern(CodeFrom(draws))
  {
  }

  /** `GenerateCode(length)`: fills a character array, one draw per position. */
  method GenerateCode(length: nat, draws: seq<nat>) returns (code: string)
    requires length <= |draws| && DrawsBelow62(draws)
    ensures code == CodeFrom(draws[..length])
  {
    var chars := new char[length];
    for i := 0 to length
      invariant forall j | 0 <= j < i :: chars[j] == Base62Chars[draws[j]]
    {
      chars[i] := Base62Chars[draws[i]];
    }
    code := chars[..];
  }

  /** The code the retry loop settles on: the first six-draw candidate no stored code equals. */
  function FirstFreeCode(rows: seq<UrlShort>, draws: seq<nat>): (code: Option<string>)
    requires DrawsBelow62(draws)
    ensures code.Some? ==> !CodeTaken(rows, code.value)
    ensures code.Some? ==> |code.value| == CodeLength && forall i | 0 <= i < CodeLength :: IsBase62Char(code.value[i])
    decreases |draws|
  {
    if |draws| < CodeLength then None
    else
      var candidate := CodeFrom(draws[..CodeLength]);
      if !CodeTaken(rows, candidate) then Some(candidate)
      else FirstFreeCode(rows, draws[CodeLength..])
  }

  /** The do-while loop: draw a code, again while the table already has it. */
  method GenerateUniqueCode(rows: seq<UrlShort>, draws: seq<nat>) returns (code: Option<string>)
    requires DrawsBelow62(draws)
    ensures code == FirstFreeCode(rows, draws)
  {
    var pos := 0;
    while pos + CodeLength <= |draws|
      invariant pos <= |draws|
      invariant FirstFreeCode(rows, draws) == FirstFreeCode(rows, draws[pos..])
      decreases |draws| - pos
    {
      var rest := draws[pos..];
      var candidate := GenerateCode(CodeLength, rest);
      assert rest[CodeLength..] == draws[pos + CodeLength..];
      pos := pos + CodeLength;
      if !CodeTaken(rows, candidate) {
        return Some(candidate);
      }
    }
    return None;
  }

  /** `IsFreeUserAsync`: the user's roles hold Free and not Basic (an unknown user holds none). */
  predicate IsFreeUser(users: seq<IdentityUser>, userId: string)
  {
    RoleFree in RolesOf(users, userId) && RoleBasic !in RolesOf(users, userId)
  }

  datatype CreateError =
    | RateLimitExceeded        // InvalidOperationException
    | NoDestinations           // "At least one destination URL is required."
    | EmptyDestinationUrl      // "Destination URL cannot be empty."
    | InsecureUrl(url: string) // "The URL '…' is not allowed. …"
    | InvalidSlugFormat        // "Custom slug can only contain …"
    | SlugInUse                // "Custom slug is already in use. …"
    | DrawsExhausted           // the supplied draws ran out before a code was found

  datatype CreateResult = Created(code: string) | Rejected(error: CreateError)

  /** What the validation loop says about one destination: blank first, then the security rule. */
  function DestinationError(d: DestinationUrl, allowedDomains: Option<seq<string>>,
                            tryCreate: string -> Option<Uri>, tryParseIp: string -> Option<IpAddress>): Option<CreateError>
  {
    if IsBlank(d.url) then Some(EmptyDestinationUrl)
    else if !SecureUrlRule(d.url, allowedDomains, tryCreate, tryParseIp) then Some(InsecureUrl(d.url))
    else None
  }

  /** The first destination, in list order, that the loop throws on. */
  function FirstDestinationError(ds: seq<DestinationUrl>, allowedDomains: Option<seq<string>>,
                                 tryCreate: string -> Option<Uri>, tryParseIp: string -> Option<IpAddress>): (e: Option<CreateError>)
    ensures e.None? <==> forall i | 0 <= i < |ds| :: DestinationError(ds[i], allowedDomains, tryCreate, tryParseIp).None?
    ensures e.Some? ==> exists i | 0 <= i < |ds| :: e == DestinationError(ds[i], allowedDomains, tryCreate, tryParseIp)
    decreases |ds|
  {
    if ds == [] then None
    else
      var e := DestinationError(ds[0], allowedDomains, tryCreate, tryParseIp);
      if e.Some? then e
      else
        var rest := FirstDestinationError(ds[1..], allowedDomains, tryCreate, tryParseIp);
        assert forall i | 1 <= i < |ds| :: ds[i] == ds[1..][i - 1];
        rest
  }

  /** The input checks, in the service's order: an empty list, then the first bad destination. */
  function InputError(destinationUrls: Option<seq<DestinationUrl>>, allowedDomains: Option<seq<string>>,
                      tryCreate: string -> Option<Uri>, tryParseIp: string -> Option<IpAddress>): Option<CreateError>
  {
    if destinationUrls.None? || destinationUrls.value == [] then Some(NoDestinations)
    else FirstDestinationError(destinationUrls.value, allowedDomains, tryCreate, tryParseIp)
  }

  /** The foreach over the list: blank URLs throw, insecure ones throw, the first failure wins. */
  method ValidateDestinations(ds: seq<DestinationUrl>, allowedDomains: Option<seq<string>>,
                              tryCreate: string -> Option<Uri>, tryParseIp: string -> Option<IpAddress>)
    returns (error: Option<CreateError>)
    ensures error == FirstDestinationError(ds, allowedDomains, tryCreate, tryParseIp)
  {
    var i := 0;
    while i < |ds|
      invariant i <= |ds|
      invariant FirstDestinationError(ds, allowedDomains, tryCreate, tryParseIp)
             == FirstDestinationError(ds[i..], allowedDomains, tryCreate, tryParseIp)
    {
      var d := ds[i];
      assert ds[i..][1..] == ds[i + 1..];
      if IsBlank(d.url) {
        return Some(EmptyDestinationUrl);
      }
      var secure := IsSecureUrl(d.url, allowedDomains, tryCreate, tryParseIp);
      if !secure {
        return Some(InsecureUrl(d.url));
      }
      i := i + 1;
    }
    return None;
  }

  datatype CodeChoice = Code(code: string) | CodeRefused(error: CreateError)

  /**
   * Which code the new row gets. A non-blank slug is kept only for a user who
   * is not free, and only in the right format and unused by any stored code
   * ignoring case; a free user's slug is silently replaced by one generated
   * code (not checked against the table); no slug runs the retry loop.
   */
  function ChooseCode(rows: seq<UrlShort>, isFreeUser: bool, customSlug: Option<string>, draws: seq<nat>): CodeChoice
    requires DrawsBelow62(draws)
  {
    if !IsNullOrWhiteSpace(customSlug) then
      if isFreeUser then
        if |draws| < CodeLength then CodeRefused(DrawsExhausted) else Code(CodeFrom(draws[..CodeLength]))
      else if !MatchesSlugPattern(customSlug.value) then CodeRefused(InvalidSlugFormat)
      else if CodeTakenIgnoringCase(rows, customSlug.value) then CodeRefused(SlugInUse)
      else Code(customSlug.value)
    else
      match FirstFreeCode(rows, draws)
      case None => CodeRefused(DrawsExhausted)
      case Some(c) => Code(c)
  }

  /** What the chosen code is, case by case. */
  lemma ChooseCodeProperties(rows: seq<UrlShort>, isFreeUser: bool, customSlug: Option<string>, draws: seq<nat>)
    requires DrawsBelow62(draws)
    ensures var choice := ChooseCode(rows, isFreeUser, customSlug, draws);
      // a paying user's slug is the code, exactly when it is well-formed and unused ignoring case
      && (!IsNullOrWhiteSpace(customSlug) && !isFreeUser ==>
            (choice == Code(customSlug.value) <==> MatchesSlugPattern(customSlug.value) && !CodeTakenIgnoringCase(rows, customSlug.value)))
      // every generated code has six alphabet characters
      && (choice.Code? && (IsNullOrWhiteSpace(customSlug) || isFreeUser) ==>
            |choice.code| == CodeLength && forall i | 0 <= i < CodeLength :: IsBase62Char(choice.code[i]))
      // the retry loop's code is new to the table, compared case-sensitively
      && (choice.Code? && IsNullOrWhiteSpace(customSlug) ==> !CodeTaken(rows, choice.code))
  {
  }

  /** The destinations with their three UTM fields cleared, in order. */
  function WithoutUtm(ds: seq<DestinationUrl>): (r: seq<DestinationUrl>)
    ensures |r| == |ds|
    // each destination keeps its id, URL and weight, and loses every UTM value
    ensures forall i | 0 <= i < |ds| :: r[i].id == ds[i].id && r[i].url == ds[i].url && r[i].weight == ds[i].weight
    ensures forall i | 0 <= i < |ds| :: r[i].utmSource.None? && r[i].utmMedium.None? && r[i].utmCampaign.None?
  {
    seq(|ds|, i requires 0 <= i < |ds| => ds[i].(utmSource := None, utmMedium := None, utmCampaign := None))
  }

  /** The foreach that clears the UTM fields of every kept destination. */
  method ClearUtm(ds: seq<DestinationUrl>) returns (r: seq<DestinationUrl>)
    ensures r == WithoutUtm(ds)
  {
    r := ds;
    for i := 0 to |ds|
      invariant |r| == |ds|
      invariant forall j | 0 <= j < i :: r[j] == ds[j].(utmSource := None, utmMedium := None, utmCampaign := None)
      invariant forall j | i <= j < |ds| :: r[j] == ds[j]
    {
      r := r[i := r[i].(utmSource := None, utmMedium := None, utmCampaign := None)];
    }
  }

  /**
   * The row the service adds (its id is assigned when stored). A free user
   * keeps at most the first destination, without UTM values, and gets no OG
   * variants, no expiry and no password; a password is stored only as its hash.
   */
  function NewUrlShort(code: string, userId: string, now: nat, isFreeUser: bool,
                       ds: seq<DestinationUrl>, og: Option<seq<OgMetadata>>, expirationDate: Option<nat>,
                       password: Option<string>, hashPassword: string -> string): (u: UrlShort)
    ensures u.code == code && u.userId == userId && u.createdAt == now
    ensures u.currentDestinationIndex == 0 && u.currentOgMetadataIndex == 0 && !u.isDeleted
    ensures isFreeUser ==>
      && u.destinationUrls == WithoutUtm(if |ds| > 1 then ds[..1] else ds)
      && u.ogMetadataVariations == [] && u.expirationDate.None? && u.password.None?
    ensures !isFreeUser ==>
      && u.destinationUrls == ds
      && u.ogMetadataVariations == (if og.Some? then og.value else [])
      && u.expirationDate == expirationDate
      && u.password == (if IsNullOrEmpty(password) then None else Some(hashPassword(password.value)))
  {
    var kept := if isFreeUser then WithoutUtm(if |ds| > 1 then ds[..1] else ds) else ds;
    var variations := if isFreeUser || og.None? then [] else og.value;
    var expiry := if isFreeUser then None else expirationDate;
    var clear := if isFreeUser then None else password;
    var hash := if !IsNullOrEmpty(clear) then Some(hashPassword(clear.value)) else None;
    UrlShort(0, code, userId, now, expiry, hash, 0, 0, false, None, kept, variations)
  }

  /** The free-tier downgrade keeps at most one destination, and it is the first one submitted. */
  lemma FreeUserKeepsFirstDestination(code: string, userId: string, now: nat, ds: seq<DestinationUrl>,
                                      og: Option<seq<OgMetadata>>, expirationDate: Option<nat>,
                                      password: Option<string>, hashPassword: string -> string)
    requires |ds| >= 1
    ensures var u := NewUrlShort(code, userId, now, true, ds, og, expirationDate, password, hashPassword);
      |u.destinationUrls| == 1 && u.destinationUrls[0].url == ds[0].url && u.destinationUrls[0].weight == ds[0].weight
      && u.destinationUrls[0].utmSource.None? && u.destinationUrls[0].utmMedium.None? && u.destinationUrls[0].utmCampaign.None?
  {
  }

  /** The HTTP context the service reads for rate limiting: the caller's address and whether it is signed in. */
  datatype HttpCaller = HttpCaller(remoteIp: Option<string>, isAuthenticated: bool)

  /** `RemoteIpAddress?.ToString() ?? "unknown"` */
  function CallerKey(caller: HttpCaller): string
  {
    if caller.remoteIp.Some? then caller.remoteIp.value else "unknown"
  }

  /** `CreateShortUrlAsync` */
  method CreateShortUrl(db: Db, limiter: RateLimiter?, httpContext: Option<HttpCaller>,
                        userId: string, customSlug: Option<string>, destinationUrls: Option<seq<DestinationUrl>>,
                        ogMetadataVariations: Option<seq<OgMetadata>>, expirationDate: Option<nat>, password: Option<string>,
                        allowedDomains: Option<seq<string>>, tryCreate: string -> Option<Uri>, tryParseIp: string -> Option<IpAddress>,
                        hashPassword: string -> string, draws: seq<nat>, now: nat)
    returns (result: CreateResult)
    requires db.Valid() && DrawsBelow62(draws)
    modifies db`urlShorts, db`nextUrlId, limiter
    ensures db.Valid()
    // the rate limiter counts this request only when both it and an HTTP context are present
    ensures limiter != null && httpContext.Some? ==>
      limiter.entries == AfterRequest(old(limiter.entries), CacheKey(UrlCreation, CallerKey(httpContext.value)), now)
    ensures limiter != null && httpContext.None? ==> limiter.entries == old(limiter.entries)
    // any refusal leaves the table as it was
    ensures result.Rejected? ==> db.urlShorts == old(db.urlShorts) && db.nextUrlId == old(db.nextUrlId)
    // refusals, in order: rate limit, then the input checks, then the code choice
    ensures limiter != null && httpContext.Some? &&
            Counted(old(limiter.entries), CacheKey(UrlCreation, CallerKey(httpContext.value)), now).count
              > Limit(UrlCreation, httpContext.value.isAuthenticated) ==>
      result == Rejected(RateLimitExceeded)
    ensures result == Rejected(RateLimitExceeded) ==>
      limiter != null && httpContext.Some? &&
      Counted(old(limiter.entries), CacheKey(UrlCreation, CallerKey(httpContext.value)), now).count
        > Limit(UrlCreation, httpContext.value.isAuthenticated)
    ensures result.Rejected? && result.error != RateLimitExceeded ==>
      var inputError := InputError(destinationUrls, allowedDomains, tryCreate, tryParseIp);
      var isFree := IsFreeUser(db.users, userId);
      if inputError.Some? then result.error == inputError.value
      else ChooseCode(old(db.urlShorts), isFree, customSlug, draws) == CodeRefused(result.error)
    // success: the code chosen, and exactly one new row holding it
    ensures result.Created? ==>
      && InputError(destinationUrls, allowedDomains, tryCreate, tryParseIp).None?
      && var isFree := IsFreeUser(db.users, userId);
      && ChooseCode(old(db.urlShorts), isFree, customSlug, draws) == Code(result.code)
      && db.nextUrlId == old(db.nextUrlId) + 1
      && db.urlShorts == old(db.urlShorts) +
           [NewUrlShort(result.code, userId, now, isFree, destinationUrls.value, ogMetadataVariations,
                        expirationDate, password, hashPassword).(id := old(db.nextUrlId))]
    // every check passed and the code was found: the row is created
    ensures (limiter == null || httpContext.None? ||
             Counted(old(limiter.entries), CacheKey(UrlCreation, CallerKey(httpContext.value)), now).count
               <= Limit(UrlCreation, httpContext.value.isAuthenticated)) &&
            InputError(destinationUrls, allowedDomains, tryCreate, tryParseIp).None? &&
            ChooseCode(old(db.urlShorts), IsFreeUser(db.users, userId), customSlug, draws).Code? ==>
      result.Created?
  {
    if limiter != null && httpContext.Some? {
      var ipAddress := CallerKey(httpContext.value);
      var allowed := limiter.AllowUrlCreation(ipAddress, httpContext.value.isAuthenticated, now);
      if !allowed {
        return Rejected(RateLimitExceeded);
      }
    }
    result := CreateAfterRateLimit(db, userId, customSlug, destinationUrls, ogMetadataVariations, expirationDate, password,
                                   allowedDomains, tryCreate, tryParseIp, hashPassword, draws, now);
  }

  /** The part of `CreateShortUrlAsync` after the rate limiter: the input checks, the code choice and the insert. */
  method CreateAfterRateLimit(db: Db, userId: string, customSlug: Option<string>, destinationUrls: Option<seq<DestinationUrl>>,
                              ogMetadataVariations: Option<seq<OgMetadata>>, expirationDate: Option<nat>, password: Option<string>,
                              allowedDomains: Option<seq<string>>, tryCreate: string -> Option<Uri>, tryParseIp: string -> Option<IpAddress>,
                              hashPassword: string -> string, draws: seq<nat>, now: nat)
    returns (result: CreateResult)
    requires db.Valid() && DrawsBelow62(draws)
    modifies db`urlShorts, db`nextUrlId
    ensures db.Valid()
    ensures result.Rejected? ==> db.urlShorts == old(db.urlShorts) && db.nextUrlId == old(db.nextUrlId)
    // the rate limit is not its business
    ensures result.Rejected? ==> result.error != RateLimitExceeded
    ensures result.Rejected? ==>
      var inputError := InputError(destinationUrls, allowedDomains, tryCreate, tryParseIp);
      if inputError.Some? then result.error == inputError.value
      else ChooseCode(old(db.urlShorts), IsFreeUser(db.users, userId), customSlug, draws) == CodeRefused(result.error)
    ensures result.Created? ==>
      && InputError(destinationUrls, allowedDomains, tryCreate, tryParseIp).None?
      && var isFree := IsFreeUser(db.users, userId);
      && ChooseCode(old(db.urlShorts), isFree, customSlug, draws) == Code(result.code)
      && db.nextUrlId == old(db.nextUrlId) + 1
      && db.urlShorts == old(db.urlShorts) +
           [NewUrlShort(result.code, userId, now, isFree, destinationUrls.value, ogMetadataVariations,
                        expirationDate, password, hashPassword).(id := old(db.nextUrlId))]
    ensures InputError(destinationUrls, allowedDomains, tryCreate, tryParseIp).None? &&
            ChooseCode(old(db.urlShorts), IsFreeUser(db.users, userId), customSlug, draws).Code? ==>
      result.Created?
  {
    if destinationUrls.None? || destinationUrls.value == [] {
      return Rejected(NoDestinations);
    }
    var error := ValidateDestinations(destinationUrls.value, allowedDomains, tryCreate, tryParseIp);
    if error.Some? {
      return Rejected(error.value);
    }

    var isFreeUser := IsFreeUser(db.users, userId);
    var choice := ChooseNewCode(db.urlShorts, isFreeUser, customSlug, draws);
    if choice.CodeRefused? {
      return Rejected(choice.error);
    }
    var urlShort := BuildUrlShort(choice.code, userId, now, isFreeUser, destinationUrls.value,
                                  ogMetadataVariations, expirationDate, password, hashPassword);
    var _ := db.AddUrlShort(urlShort);
    return Created(choice.code);
  }

  /** The free-tier downgrade, applied to the submitted values, and the new row built from them. */
  method BuildUrlShort(code: string, userId: string, now: nat, isFreeUser: bool,
                       ds: seq<DestinationUrl>, og: Option<seq<OgMetadata>>, expirationDate: Option<nat>,
                       password: Option<string>, hashPassword: string -> string)
    returns (urlShort: UrlShort)
    ensures urlShort == NewUrlShort(code, userId, now, isFreeUser, ds, og, expirationDate, password, hashPassword)
  {
    var kept := ds;
    var variations := og;
    var expiry := expirationDate;
    var clear := password;
    if isFreeUser {
      if |kept| > 1 {
        kept := kept[..1];
      }
      kept := ClearUtm(kept);
      variations := Some([]);
      expiry := None;
      clear := None;
    }
    urlShort := UrlShort(0, code, userId, now, expiry,
                         if !IsNullOrEmpty(clear) then Some(hashPassword(clear.value)) else None,
                         0, 0, false, None, kept, if variations.Some? then variations.value else []);
  }

  /** The slug branch and the retry loop of `CreateShortUrlAsync`. */
  method ChooseNewCode(rows: seq<UrlShort>, isFreeUser: bool, customSlug: Option<string>, draws: seq<nat>)
    returns (choice: CodeChoice)
    requires DrawsBelow62(draws)
    ensures choice == ChooseCode(rows, isFreeUser, customSlug, draws)
  {
    if !IsNullOrWhiteSpace(customSlug) {
      if isFreeUser {
        if |draws| < CodeLength {
          return CodeRefused(DrawsExhausted);
        }
        var code := GenerateCode(CodeLength, draws);
        return Code(code);
      }
      if !MatchesSlugPattern(customSlug.value) {
        return CodeRefused(InvalidSlugFormat);
      }
      if CodeTakenIgnoringCase(rows, customSlug.value) {
        return CodeRefused(SlugInUse);
      }
      return Code(customSlug.value);
    }
    var code := GenerateUniqueCode(rows, draws);
    if code.None? {
      return CodeRefused(DrawsExhausted);
    }
    return Code(code.value);
  }

  /** Position of the first non-deleted row whose code equals `code` exactly. */
  function LivePositionByCode(rows: seq<UrlShort>, code: string): (pos: Option<nat>)
    ensures pos.Some? ==> pos.value < |rows| && rows[pos.value].code == code && !rows[pos.value].isDeleted
    ensures pos.Some? ==> forall j | 0 <= j < pos.value :: rows[j].code != code || rows[j].isDeleted
    ensures pos.None? ==> forall i | 0 <= i < |rows| :: rows[i].code != code || rows[i].isDeleted
  {
    FirstWhere(rows, (u: UrlShort) => u.code == code && !u.isDeleted)
  }

  /** `GetShortUrlAsync`: the live row with this code, or null. */
  function GetShortUrl(rows: seq<UrlShort>, code: string): (u: Option<UrlShort>)
    ensures u.Some? ==> u.value in rows && u.value.code == code && !u.value.isDeleted
    ensures u.None? <==> forall i | 0 <= i < |rows| :: rows[i].code != code || rows[i].isDeleted
  {
    match LivePositionByCode(rows, code)
    case None => None
    case Some(i) => Some(rows[i])
  }

  /** The table after `DeleteShortUrlAsync(code)`. */
  function AfterDelete(rows: seq<UrlShort>, code: string): seq<UrlShort>
  {
    match LivePositionByCode(rows, code)
    case None => rows
    case Some(i) => rows[i := rows[i].(isDeleted := true)]
  }

  /** `DeleteShortUrlAsync`: sets `IsDeleted` on the live row with this code, if there is one. */
  method DeleteShortUrl(db: Db, code: string)
    requires db.Valid()
    modifies db`urlShorts
    ensures db.Valid()
    ensures db.urlShorts == AfterDelete(old(db.urlShorts), code)
  {
    var pos := LivePositionByCode(db.urlShorts, code);
    if pos.Some? {
      db.SetUrlShort(pos.value, db.urlShorts[pos.value].(isDeleted := true));
    }
  }

  /** At most one live row carries `code`. */
  predicate LiveCodeUnique(rows: seq<UrlShort>, code: string)
  {
    forall i, j | 0 <= i < |rows| && 0 <= j < |rows| && rows[i].code == code && !rows[i].isDeleted
                                                    && rows[j].code == code && !rows[j].isDeleted :: i == j
  }

  /**
   * A delete marks exactly one row, the first live one with the code, and
   * touches no other row; with no such row it changes nothing.
   */
  lemma DeleteMarksOnlyThatRow(rows: seq<UrlShort>, code: string)
    ensures |AfterDelete(rows, code)| == |rows|
    ensures GetShortUrl(rows, code).None? ==> AfterDelete(rows, code) == rows
    ensures forall i | 0 <= i < |rows| ::
      || AfterDelete(rows, code)[i] == rows[i]
      || (rows[i].code == code && !rows[i].isDeleted && AfterDelete(rows, code)[i] == rows[i].(isDeleted := true))
  {
  }

  /** When at most one live row has the code, the code no longer resolves after a delete, and deleting twice is deleting once. */
  lemma {:induction false} DeleteIdempotent(rows: seq<UrlShort>, code: string)
    requires LiveCodeUnique(rows, code)
    ensures GetShortUrl(AfterDelete(rows, code), code).None?
    ensures AfterDelete(AfterDelete(rows, code), code) == AfterDelete(rows, code)
  {
    var after := AfterDelete(rows, code);
    match LivePositionByCode(rows, code)
    case None =>
    case Some(p) =>
      forall i | 0 <= i < |after|
        ensures after[i].code != code || after[i].isDeleted
      {
        assert rows[p].code == code && !rows[p].isDeleted;
        assert i != p ==> after[i] == rows[i];
      }
  }
}
