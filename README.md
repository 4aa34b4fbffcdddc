# ShortUrl core, modelled in Dafny

ShortUrl is an ASP.NET Core URL shortener. Users create short codes that
redirect to one or more weighted destinations. Each redirect records a click.
A code can carry Open Graph preview variants for social-media crawlers and a
password gate. Paying tiers (Basic, Professional, Enterprise, bought through
Stripe) unlock custom slugs, UTM tags, expiry, passwords and detailed
statistics. This project models the decision and bookkeeping code of that
system over an in-memory store, and proves what it does.

## Modules

| module | file | what it models |
|---|---|---|
| `Common` | `common.dfy` | .NET string helpers (white space, ASCII `ToLower`, `Split(..).FirstOrDefault()`), C#'s truncating `%`, first-match lookup and filtering over sequences |
| `Entities` | `entities.dfy` | the rows: `UrlShort` with its destinations and OG variants, `ClickStat`, `VCard`, `AuditLog`, users with their role sets, Stripe customer links, member subscriptions |
| `Store` | `store.dfy` | `Db`, a class holding one sequence per table plus the id counters the database assigns; `MemoryCache`, the sliding five-minute `IMemoryCache`; the owner-scoped URL queries the pages share |
| `Http` | `http.dfy` | what a redirect reads from the request and writes into a click, and the outbound query string |
| `Redirect` | `redirect.dfy` | `GET /{code}`, the weighted selector, `/api/check-slug`, `/api/update-screen-resolution`, the Stripe webhook's role replacement |
| `PasswordPage` | `password_page.dfy` | the redirect after a password, in `Password.cshtml.cs` |
| `UrlShortening` | `url_shortener_service.dfy` | `UrlShortenerService`: create, get, delete, base-62 codes |
| `RateLimiting` | `rate_limiter.dfy` | the fixed-window `RateLimiter` |
| `UrlLimiter` | `url_limiter.dfy` | the per-role quotas |
| `InputValidation` | `input_validation.dfy` | the slug, e-mail, password and URL-safety rules |
| `IndexPage`, `EditUrl`, `PreviewPage`, `StatsPage`, `VCardManager`, `ProfilePage` | one file each | the Razor page handlers that change or read the tables |
| `Analytics` | `analytics.dfy` | the grouping, the date window, the newest-first list, the day chart and the CSV export shared by the statistics and preview pages |
| `AuditService` | `audit_service.dfy` | `AuditService.LogAsync` |

## Modelling choices

- **Times are .NET ticks.** They are `nat` values, 864 000 000 000 per day.
  `DateTime.UtcNow` is a `now` parameter.
- **The random draw is an input.** `new Random().NextDouble()` becomes a `real`
  in [0, 1). The draw is that value times the total weight, as in the source.
- **Code generation draws are an input.** `Random.Next(62)` draws are a supplied
  sequence of numbers below 62. The retry loop consumes them six at a time.
- **Collaborators are function values.** These are `Uri.TryCreate`,
  `IPAddress.TryParse`, `int.TryParse`, the URL parser, BCrypt hash and verify,
  the geolocation lookup and UAParser. The model fixes how each result is used,
  not how it is computed.
- **The cache holds snapshots.** A cached `UrlShort` is a snapshot of the row.
  The source's tracked entity is shared between the cache and the database
  context. In the model, a change made to it reaches the table only when the
  row was loaded from the database on this request, which is when the context
  tracks it and `SaveChangesAsync` writes it (`Redirect.SavedRows`). On a cache
  hit, the change reaches only the cache entry.
- **The tier tests are kept per file.** Each file's own tier test is kept as
  written:
  - Professional or Enterprise for the redirect's click details and the Index
    page's gating;
  - Basic for the password page's click details;
  - Free without Basic for the service's free tier;
  - Basic, Professional or Enterprise for the preview page's recent clicks.
- **One record type per table.** The repository holds two `UrlShort` classes and
  two names for the click's URL id. The model uses one `UrlShort` and one
  `urlShortId`. The vCard carries the `IsDeleted`/`DeletedAt` columns that the
  page and its migration use.

### What the model shows about the source

These observations come from the model as written. They are not defects the
model corrects:

- **The preview page can show a deleted URL.** The preview page and the redirect
  share the cache key `ShortUrl_{code}`. The redirect caches a row even when it
  is soft-deleted, so a preview shortly afterwards shows that deleted row
  (`PreviewPage.SharedKeyPreviewsDeletedRow`).
- **Cursor writes are lost on a cache hit.** The redirect's OG-variant cursor
  advance (crawler path) survives in the table only when the row was not
  served from the cache.
- **Single-URL statistics cover only the newest clicks.** They count
  destinations and chart days over the 50 newest clicks of the window, not
  all of them (`StatsPage.UrlStatsCounts`).
- **Higher tiers alone get no quota.** A user whose roles were replaced by
  Professional or Enterprise alone gets a quota of 0 from `UrlLimiter`. The
  Index page therefore refuses every new URL for them
  (`IndexPage.HigherTierAloneIsLockedOut`).
- **Deleting does not free quota.** The Index page's quota counts
  soft-deleted rows (`IndexPage.DeleteKeepsQuotaUsed`). The vCard quota does
  not count them (`VCardManager.DeleteFreesQuota`).
- **Some deletes and edits leave the cache stale.** Deleting or editing
  through the Index or Edit pages leaves the `ShortUrl_{code}` cache entry in
  place. Only the preview page's delete and a resolved redirect remove it.

## Model

Source paths are relative to the repository root.

| member | source | states |
|---|---|---|
| `Redirect.FirstCovering` | ShortUrl/Program.cs:331-339 | the first destination from `from` on whose running weight reaches the draw; none when no running sum reaches it |
| `Redirect.SelectWeightedDestinationUrl` | ShortUrl/Program.cs:327-341 | the loop accumulating `currentWeight` returns exactly the weighted choice for the draw: the first covering destination, else the unguarded `DestinationUrls[CurrentDestinationIndex]` fallback (out of range when the cursor is) |
| `Redirect.ChoiceIsWeightSlice` | ShortUrl/Program.cs:331-339 | with non-negative weights, destination k is picked exactly when the draw lies in (P(k), P(k+1)] of the prefix sums, the first slice closed at 0, so each destination owns a slice as wide as its weight |
| `Redirect.PositiveWeightsNeverFallBack` | ShortUrl/Program.cs:329-340 | with at least one destination, all weights positive and a unit draw in [0,1), some destination covers the draw and the fallback is never reached |
| `Redirect.ZeroDrawPicksFirst` | ShortUrl/Program.cs:335 | a zero draw picks the first destination (`<=`, not `<`) |
| `Redirect.NegativeWeightReachesFallback` | ShortUrl/Program.cs:340 | a single destination of weight -1 makes the total negative; no running sum reaches the draw, and the fallback indexes position 3 of a one-element list |
| `Redirect.NextOgIndex` | ShortUrl/Program.cs:98 | the crawler's OG cursor: 0 with no variants, otherwise (old+1) mod count, inside [0, count) for a non-negative cursor |
| `Redirect.RotationCycles` | ShortUrl/Program.cs:115 | k advances of the destination cursor from a valid start land on (start+k) mod count and never leave [0, count) |
| `Redirect.ToLowerIdempotent` | ShortUrl/Program.cs:87 | lower-casing twice is lower-casing once |
| `Redirect.CrawlerDetection` | ShortUrl/Program.cs:87-92 | a user agent is a crawler iff its lower-cased form contains one of the five signatures; case never changes the answer |
| `Redirect.RouteOf` | ShortUrl/Program.cs:77-111 | the route a snapshot takes: invalid iff missing, deleted or expired; otherwise crawler preview iff a crawler; otherwise password gate iff a hash is stored; otherwise invalid for no destinations; the remaining case is resolvable |
| `Redirect.CrawlerBypassesPassword` | ShortUrl/Program.cs:94-106 | a crawler reaches the preview even for a password-protected entry, because the crawler test comes first |
| `Redirect.PositionByCode` | ShortUrl/Program.cs:70-74 | the row the redirect loads: one whose code matches, deleted or not; none only when no row has the code |
| `Redirect.SaveCursor` | ShortUrl/Program.cs:98-99 | the advanced row replaces the cache entry's value; the table changes only when the row came from the database |
| `Redirect.ResolveDestination` | ShortUrl/Program.cs:113-197 | fallback out of range: a server error with nothing written. Otherwise exactly one click with the picked destination's id, the cursor advanced by one modulo the count, the outbound redirect carrying that click's id, and the cache entry removed |
| `Redirect.RecordClick` | ShortUrl/Program.cs:165-193 | appends exactly one click, with the next id, built from the request, and redirects with that id |
| `Redirect.HandleRedirect` | ShortUrl/Program.cs:64-198 | the whole endpoint per route. Invalid, no-destination and password routes change nothing but the cache window. The crawler route advances the OG cursor, records no click and passes on the `var` of `Redirect.VariationIndex` (the parseable query value, else the cursor before the advance). The resolvable route records one click, advances the destination cursor and evicts the cache entry; its country and city come from `Http.GeoFor`, which gives none for a missing, empty or loopback address; its out-of-range fallback is a server error that writes nothing and only renews the cache window. Only the resolvable route records a click |
| `Redirect.ServeSnapshot` | ShortUrl/Program.cs:77-197 | the tests on the cached snapshot, in source order: invalid, no-destination and password routes write nothing; the crawler route saves the advanced OG cursor and answers the preview; the resolvable route appends one click with the next id, saves the advanced destination cursor, evicts the entry and redirects; a fallback out of range is a server error that writes nothing and leaves the cache as it was |
| `Redirect.CheckSlug` | ShortUrl/Program.cs:200-208 | a slug outside the whole-string pattern is refused as "Invalid slug format."; otherwise it is available iff no stored code, deleted ones included, equals it ignoring case, with the matching message (corrected reading — see Findings) |
| `Redirect.ClickPosition` | ShortUrl/Program.cs:212 | `FindAsync` by click id: a row with that id, or none when no row has it |
| `Redirect.UpdateScreenResolution` | ShortUrl/Program.cs:210-220 | found iff a click has the id; that click's screen resolution is set and every other row is unchanged |
| `Redirect.RoleForPrice` | ShortUrl/Program.cs:262-268 | a configured price id maps to its tier role (Basic first); any other id maps to none |
| `Redirect.RoleForSubscription` | ShortUrl/Program.cs:262-268 | the role a new subscription grants, read from its price id: defined exactly when that price id is configured; Basic for the basic price (corrected reading — see Findings) |
| `Redirect.SubscriptionIdNeverMatchesPrice` | ShortUrl/Program.cs:262-268 | with Stripe's `sub_`/`price_` id prefixes, the switch as written never grants a role, while switching on the price id grants one for every configured price |
| `Redirect.BasicPurchaseIgnored` | ShortUrl/Program.cs:262-268 | the concrete subscription "sub_1" on price "price_basic": no role as written, Basic when corrected |
| `Redirect.ReplaceRoles` | ShortUrl/Program.cs:271-276 | removing every current role and adding the new one leaves exactly `{newRole}` |
| `Redirect.UserPositionForCustomer` | ShortUrl/Program.cs:255-260 | the user of the FIRST link with that Stripe customer id: some position exactly when a user with the linked id exists, and that user carries the linked id; none when no link has the customer |
| `Redirect.HandleStripeWebhook` | ShortUrl/Program.cs:243-308 | a malformed event is a bad request. A created subscription whose price id is configured sets the linked user's roles to exactly that tier; a deleted one sets them to exactly `{"Free"}`. Every other user, and every other event, leaves the users unchanged (corrected reading — see Findings) |
| `Http.FirstLanguage` | ShortUrl/Program.cs:162 | the first entry of the Accept-Language header without its quality: a prefix holding no ',' and no ';', which is the whole header or is followed by a ',' or ';' |
| `Http.ClientDetailsOf` | ShortUrl/Program.cs:154-163 | the referrer is the header as sent; the language is `FirstLanguage` of the header; device is UAParser's device family; browser and OS are family, major and minor joined as "family major.minor" |
| `Http.RedirectClick` | ShortUrl/Program.cs:165-180 | the click carries the URL id, the picked destination id, the time and the address; no OG id and no screen resolution; country and city only from a geolocation; referrer, language, device, browser and OS copied from the client details when the tier allows them, all five null otherwise |
| `Http.BuildOutboundQuery` | ShortUrl/Program.cs:184-193 | the straight-line assignments on the parsed query (three guarded UTM sets, then `clickId`) yield the outbound query map |
| `Http.OutboundQueryProperties` | ShortUrl/Program.cs:184-193 | `clickId` is always set to the click's id; each `utm_*` is set only from a non-empty value and otherwise keeps any existing parameter; every other existing parameter is kept and nothing else is added |
| `PasswordPage.PostedEntryPosition` | ShortUrl/Pages/Password.cshtml.cs:63-66 | the live row with the posted code; none when every row with it is deleted |
| `PasswordPage.PasswordRouteOf` | ShortUrl/Pages/Password.cshtml.cs:58-81 | each route as an iff, in source order: the form again iff the model is invalid or the password blank; invalid iff the row is missing or expired; wrong password iff no hash is stored or it does not verify; invalid for no destinations iff the list is empty; resolvable iff all of those tests pass |
| `PasswordPage.NoHashNoEntry` | ShortUrl/Pages/Password.cshtml.cs:72-76 | an entry with no stored hash can never be resolved through the password page |
| `PasswordPage.OnPost` | ShortUrl/Pages/Password.cshtml.cs:56-175 | every non-resolving route changes nothing. A resolvable entry records one click, advances the destination cursor by one, and redirects with the click's id; the click records the address only with the `privacy-consent` cookie "accepted" (`PasswordPage.ConsentedIp`), its geolocation through `Http.GeoFor`, and the details only for Basic; the selector's out-of-range fallback is an error with nothing written |
| `UrlShortening.Base62Layout` | ShortUrl/Services/UrlShortenerService.cs:14 | the alphabet has 62 characters: 0-9, then A-Z, then a-z |
| `UrlShortening.Base62RoundTrip` | ShortUrl/Services/UrlShortenerService.cs:14 | the character at each position decodes back to that position |
| `UrlShortening.Base62Covers` | ShortUrl/Services/UrlShortenerService.cs:14 | every alphabet character sits at the position it decodes to |
| `UrlShortening.CodeFrom` | ShortUrl/Services/UrlShortenerService.cs:182-190 | a code has one alphabet character per draw |
| `UrlShortening.CodeFromInjective` | ShortUrl/Services/UrlShortenerService.cs:182-190 | different draw sequences give different codes |
| `UrlShortening.GeneratedCodeIsWellFormedSlug` | ShortUrl/Services/UrlShortenerService.cs:182-190 | a generated code of length at least one matches the slug pattern |
| `UrlShortening.GenerateCode` | ShortUrl/Services/UrlShortenerService.cs:182-190 | the loop filling the character array yields the code of its first `length` draws |
| `UrlShortening.FirstFreeCode` | ShortUrl/Services/UrlShortenerService.cs:108-114 | the retry loop's code, when the draws suffice: six alphabet characters, equal (case-sensitively) to no stored code |
| `UrlShortening.GenerateUniqueCode` | ShortUrl/Services/UrlShortenerService.cs:108-114 | the do-while loop returns exactly the first free code |
| `UrlShortening.FirstDestinationError` | ShortUrl/Services/UrlShortenerService.cs:69-81 | no error iff every destination is non-blank and secure; otherwise the error of some destination |
| `UrlShortening.ValidateDestinations` | ShortUrl/Services/UrlShortenerService.cs:69-81 | the foreach over the destinations returns exactly the first error |
| `UrlShortening.ChooseCodeProperties` | ShortUrl/Services/UrlShortenerService.cs:86-114 | a paying user's slug becomes the code iff it matches the whole-string pattern and no stored code equals it ignoring case; a generated code has six alphabet characters and is new to the table (corrected reading — see Findings) |
| `UrlShortening.ChooseNewCode` | ShortUrl/Services/UrlShortenerService.cs:86-114 | the service's branches compute exactly that choice (corrected reading — see Findings) |
| `UrlShortening.WithoutUtm` | ShortUrl/Services/UrlShortenerService.cs:126-131 | the free tier's downgrade: as many destinations, each keeping its id, URL and weight, none keeping a UTM value |
| `UrlShortening.ClearUtm` | ShortUrl/Services/UrlShortenerService.cs:126-131 | the foreach clearing UTM fields yields exactly that list |
| `UrlShortening.NewUrlShort` | ShortUrl/Services/UrlShortenerService.cs:116-155 | the new row: the caller as owner, both cursors 0, not deleted. A free user gets at most the first destination with no UTM, no OG variants, no expiry and no password. A paying user's password is stored as its hash, or not at all when empty |
| `UrlShortening.FreeUserKeepsFirstDestination` | ShortUrl/Services/UrlShortenerService.cs:117-131 | a free user's row keeps exactly one destination, with the first one's URL and weight and no UTM values |
| `UrlShortening.BuildUrlShort` | ShortUrl/Services/UrlShortenerService.cs:143-155 | the object initialiser builds exactly that row |
| `UrlShortening.CreateShortUrl` | ShortUrl/Services/UrlShortenerService.cs:38-161 | refusals, in order: the rate limit (refused for that reason iff the limiter and an HTTP context are present and the count reached exceeds the creation limit), then missing or unsafe destinations, then the code choice; each leaves the table unchanged. When every check passes, exactly one row is appended with the chosen code and the next id; the limiter counts the request exactly when it and an HTTP context are present |
| `UrlShortening.CreateAfterRateLimit` | ShortUrl/Services/UrlShortenerService.cs:63-161 | after the limiter: never a rate-limit refusal; the input error, else the code refusal, with the table unchanged; or exactly one new row with the chosen code and the next id |
| `UrlShortening.LivePositionByCode` | ShortUrl/Services/UrlShortenerService.cs:163-169 | the first live row with the code, none when there is none |
| `UrlShortening.GetShortUrl` | ShortUrl/Services/UrlShortenerService.cs:163-169 | a live row of the table with that code; none exactly when every row with it is deleted |
| `UrlShortening.DeleteShortUrl` | ShortUrl/Services/UrlShortenerService.cs:171-180 | the table after the soft delete of the first live row with the code |
| `UrlShortening.DeleteMarksOnlyThatRow` | ShortUrl/Services/UrlShortenerService.cs:171-180 | only a live row with the code is marked deleted; every other row is unchanged; with no live row nothing changes |
| `UrlShortening.DeleteIdempotent` | ShortUrl/Services/UrlShortenerService.cs:171-180 | with one live row per code, the code is gone after a delete and a second delete changes nothing |
| `RateLimiting.RateLimiter.AllowRedirection` | ShortUrl/Helpers/RateLimiter.cs:34-40 | counts the request under the redirection key of the address and allows it iff the count reached is within 60 (200 authenticated) |
| `RateLimiting.RateLimiter.AllowUrlCreation` | ShortUrl/Helpers/RateLimiter.cs:45-51 | the same with the creation key and 5 (20) |
| `RateLimiting.RateLimiter.AllowApiAccess` | ShortUrl/Helpers/RateLimiter.cs:56-62 | the same with the API key and 30 (100) |
| `RateLimiting.RateLimiter.AllowQrGeneration` | ShortUrl/Helpers/RateLimiter.cs:67-73 | the same with the QR key and 15 (50) |
| `RateLimiting.RateLimiter.IsRequestAllowed` | ShortUrl/Helpers/RateLimiter.cs:75-95 | a missing or expired key restarts at 0 with a one-minute window; every call increments the count, denied ones included; allowed iff the count after the increment is within the limit |
| `RateLimiting.CacheKeyInjective` | ShortUrl/Helpers/RateLimiter.cs:36 | equal counter keys mean the same traffic class and the same address, so classes and addresses never share a counter (authentication is not part of the key) |
| `RateLimiting.Verdicts` | ShortUrl/Helpers/RateLimiter.cs:75-95 | one verdict per request of a sequence |
| `RateLimiting.VerdictsWithinWindow` | ShortUrl/Helpers/RateLimiter.cs:85-94 | inside a live window the i-th further request is allowed iff the stored count plus i+1 is within the limit |
| `RateLimiting.FirstLimitRequestsAllowed` | ShortUrl/Helpers/RateLimiter.cs:78-94 | from a fresh window, requests within one minute are allowed exactly while fewer than `limit` came before them |
| `RateLimiting.RefusalPersistsWithinWindow` | ShortUrl/Helpers/RateLimiter.cs:80-94 | once refused, a key stays refused until its window expires |
| `RateLimiting.RequestTouchesOnlyItsKey` | ShortUrl/Helpers/RateLimiter.cs:78-85 | a request changes no other key's counter |
| `UrlLimiter.GetShortUrlLimitForUser` | ShortUrl/Helpers/UrlLimiter.cs:7-11 | never null: 200 iff Basic, 10 iff Free without Basic, 0 iff neither |
| `UrlLimiter.GetVCardLimitForUser` | ShortUrl/Helpers/UrlLimiter.cs:13-17 | never null: 50 iff Basic, 1 iff Free without Basic, 0 iff neither |
| `UrlLimiter.QuotasMonotone` | ShortUrl/Helpers/UrlLimiter.cs:7-17 | adding a role never lowers either quota |
| `InputValidation.SlugRegexAcceptsTrailingNewline` | ShortUrl/Helpers/InputValidation.cs:11 | the slug pattern as .NET evaluates it accepts "abc\n"; the whole-string reading refuses it |
| `InputValidation.SlugRegexDifference` | ShortUrl/Helpers/InputValidation.cs:10-11 | the two readings differ exactly on a valid slug followed by one '\n' |
| `InputValidation.SlugPatternExcludesWhiteSpace` | ShortUrl/Helpers/InputValidation.cs:10-11 | a string matching the slug pattern is not blank and holds no white space, so the blank test before it adds nothing |
| `InputValidation.IsValidSlug` | ShortUrl/Helpers/InputValidation.cs:10-11 | valid iff 1 to 50 characters, all from [A-Za-z0-9_-] (corrected reading — see Findings) |
| `InputValidation.IsValidPassword` | ShortUrl/Helpers/InputValidation.cs:109-114 | valid iff at least 6 characters with an upper-case letter, a lower-case letter and a digit |
| `InputValidation.EmailRegexAcceptsTrailingNewline` | ShortUrl/Helpers/InputValidation.cs:104-106 | the e-mail pattern as .NET evaluates it accepts "a@b.c\n"; the whole-string reading refuses it |
| `InputValidation.EmailPatternIsShape` | ShortUrl/Helpers/InputValidation.cs:104-106 | the pattern holds iff there is no white space, exactly one '@' with text before it, and a '.' that is neither the first nor the last character after it |
| `InputValidation.IsValidEmail` | ShortUrl/Helpers/InputValidation.cs:104-106 | valid iff the e-mail has that shape (corrected reading — see Findings) |
| `InputValidation.PrivateIpv4IsRfc1918` | ShortUrl/Helpers/InputValidation.cs:77-91 | an IPv4 address is private iff it lies in 10/8, 172.16/12 or 192.168/16, the ranges of section 3 of RFC 1918 |
| `InputValidation.PrivateAddressRule` | ShortUrl/Helpers/InputValidation.cs:68-101 | `IsPrivateIpAddress` as ranges: a host that is no IP address is not private; an IPv4 address is private iff it lies in an RFC 1918 block; an IPv6 address iff its first 16 bits lie in fe80::/10 (link-local) |
| `InputValidation.LocalhostIgnoresCase` | ShortUrl/Helpers/InputValidation.cs:60-65 | `IsLocalhost` ignores case as a whole: hosts equal up to ASCII case are both local or both not, although only "localhost" is compared ignoring case |
| `InputValidation.IsSecureUrl` | ShortUrl/Helpers/InputValidation.cs:20-57 | the foreach over the allow-list returns exactly the rule: an http(s) URL whose host is neither localhost nor private and, for a non-empty list, ends with a listed domain ignoring case |
| `Store.UserUrls` | ShortUrl/Pages/Index.cshtml.cs:52-61 | the list holds exactly the caller's rows that are not deleted; the statistics page scopes its aggregate to the same rows |
| `IndexPage.CollectOgVariants` | ShortUrl/Pages/Index.cshtml.cs:88-114 | the for-loop keeps, in order, exactly the variants with a non-blank title, description or image, each with its uploaded image path when a file was uploaded (`IndexPage.WithUploads`) |
| `IndexPage.Forward` | ShortUrl/Pages/Index.cshtml.cs:117-131 | slug and OG variants only for Professional or higher, expiry and password only for Enterprise; below Professional just the first destination with its UTM cleared |
| `IndexPage.OnPostShorten` | ShortUrl/Pages/Index.cshtml.cs:63-153 | a blank or empty destination list is a form error; the quota refuses iff the caller's rows, deleted included, reach the claim-based limit; past the quota the handler fails unhandled iff the user row is missing or the rate limiter refuses; the limiter counts the request iff the service is reached with an HTTP context; otherwise the service's input error, else its code refusal, else the new code; a created row carries what the gating forwarded; nothing but a creation changes the table |
| `IndexPage.HigherTierAloneIsLockedOut` | ShortUrl/Pages/Index.cshtml.cs:76-82 | a caller with neither Free nor Basic in their claims is always at or over the quota |
| `IndexPage.DeleteKeepsQuotaUsed` | ShortUrl/Pages/Index.cshtml.cs:75 | soft-deleting a row leaves the quota count unchanged |
| `IndexPage.OnPostDelete` | ShortUrl/Pages/Index.cshtml.cs:155-170 | found iff the caller owns a live row with the id; only that row is soft-deleted, and otherwise nothing changes |
| `Store.OwnedLivePosition` | ShortUrl/Pages/EditUrl.cshtml.cs:92-95 | the caller's live row with the posted id; none iff there is none (the Index page's delete looks rows up the same way) |
| `EditUrl.SlugVerdict` | ShortUrl/Pages/EditUrl.cshtml.cs:104-118 | the slug passes iff it is blank, unchanged, or matches the whole-string pattern and no other row, deleted included, has it ignoring case (corrected reading — see Findings) |
| `EditUrl.UploadErrorBefore` | ShortUrl/Pages/EditUrl.cshtml.cs:122-139 | no error iff every upload so far is an image of at most 2 MB; an error is one of those two |
| `EditUrl.UploadErrorMonotone` | ShortUrl/Pages/EditUrl.cshtml.cs:122-139 | the first upload error stays the error as later variants are read |
| `EditUrl.ProcessOgVariants` | ShortUrl/Pages/EditUrl.cshtml.cs:120-186 | the for-loop rejects iff some upload is rejected, with that upload's error; otherwise it keeps, in order, exactly the variants with content, each with its upload's stored image attached (`EditUrl.WithUploads`) |
| `EditUrl.ClampedWeight` | ShortUrl/Pages/EditUrl.cshtml.cs:205 | always a weight of at least 1: a positive posted weight is kept, a missing, zero or negative one becomes exactly 1 |
| `EditUrl.Edited` | ShortUrl/Pages/EditUrl.cshtml.cs:188-212 | the edited row: `Input.Code` unless null; the destinations replaced wholesale by the posted ones in order, unassigned ids, weights clamped to at least 1 (`EditUrl.ReplacedDestinations`); expiry only for Enterprise; password untouched unless Enterprise and posted, cleared when empty, else hashed; both cursors reset; identity, owner and deletion unchanged |
| `EditUrl.UpdatedMeansAllChecksPassed` | ShortUrl/Pages/EditUrl.cshtml.cs:75-139 | an update implies a valid model, 1 to 5 non-blank destinations, at most 5 variants, a live row of the caller's, an acceptable slug and accepted uploads |
| `EditUrl.EditVerdict` | ShortUrl/Pages/EditUrl.cshtml.cs:75-139 | the checks in source order, each as an iff: invalid input iff the model is invalid or the destination list empty or blank; too many entries iff over 5 destinations or 5 variants; unhandled iff the user is missing; not found iff the caller has no live row with the id; updated iff that row's slug check and every upload pass |
| `EditUrl.OnPost` | ShortUrl/Pages/EditUrl.cshtml.cs:75-225 | any refusal changes nothing; an update replaces just that row with the edited one and logs an audit record for Enterprise callers only |
| `EditUrl.ApplyEdit` | ShortUrl/Pages/EditUrl.cshtml.cs:188-221 | the row at the position becomes the edited row and the audit table grows by the Enterprise record only |
| `AuditService.UserByName` | ShortUrl/Services/AuditService.cs:39 | the user whose user NAME equals the given id; none iff no name matches |
| `AuditService.AuditEntry` | ShortUrl/Services/AuditService.cs:23-66 | the record carries the action, entity type, details and time given; no id gives an anonymous record; an unmatched name is kept as text; a matched name links that user's id. At most one user field is set, one is set iff an id was given, and a linked id names an existing user |
| `AuditService.Log` | ShortUrl/Services/AuditService.cs:16-67 | an empty action or entity type writes nothing; any other call appends exactly one record |
| `PreviewPage.LoadLive` | ShortUrl/Pages/Preview.cshtml.cs:66-75 | a live row with the code, none iff every row with it is deleted |
| `PreviewPage.PreviewOf` | ShortUrl/Pages/Preview.cshtml.cs:76-113 | never the blank-slug outcome; not found iff no snapshot; expired iff the snapshot is past its expiry; a preview shows that snapshot, its URL's click count, and the Basic-or-higher flag of the caller |
| `PreviewPage.OnGet` | ShortUrl/Pages/Preview.cshtml.cs:54-126 | a blank code touches no cache; otherwise the view is built from the cached-or-loaded snapshot, whose window is renewed; one audit record is appended in every case |
| `PreviewPage.PreviewFigures` | ShortUrl/Pages/Preview.cshtml.cs:91-113 | the total is the URL's click count; both groupings have exactly the keys present, a null id as 0 (`Analytics.DestinationKeys`, `Analytics.OgKeys`), each at least 1, summing to the total; recent clicks only for Basic or higher, at most 50, newest first, drawn from the URL's clicks |
| `PreviewPage.MissPreviewsLiveRow` | ShortUrl/Pages/Preview.cshtml.cs:65-82 | on a cache miss the preview shows only a live, unexpired row with that code, and "not found" iff no live row has it |
| `PreviewPage.SharedKeyPreviewsDeletedRow` | ShortUrl/Pages/Preview.cshtml.cs:65-75 | a deleted row cached by the redirect under the same key is previewed although the page's own query excludes it |
| `PreviewPage.DeleteVerdict` | ShortUrl/Pages/Preview.cshtml.cs:133-156 | a blank slug, no live row, or a caller neither owner nor Admin is refused; otherwise deleted |
| `PreviewPage.OnPostDelete` | ShortUrl/Pages/Preview.cshtml.cs:129-170 | a refusal changes neither table nor cache; a delete soft-deletes through the service and removes `ShortUrl_{code}`; one audit record either way |
| `PreviewPage.DeletedCodeIsNotPreviewed` | ShortUrl/Pages/Preview.cshtml.cs:158-160 | after that delete and eviction the code previews as not found |
| `StatsPage.IdKeyIsNotACodeKey` | ShortUrl/Pages/Stats.cshtml.cs:103 | the `UrlShort_{id}` key never collides with a `ShortUrl_{code}` key |
| `StatsPage.LoadLiveById` | ShortUrl/Pages/Stats.cshtml.cs:103-113 | a live row with the id, none iff there is none |
| `StatsPage.CollectClicks` | ShortUrl/Pages/Stats.cshtml.cs:68-81 | the foreach's `AddRange`s collect each URL's in-window clicks in URL order |
| `StatsPage.CountedClicks` | ShortUrl/Pages/Stats.cshtml.cs:71-78 | exactly the clicks of one of the URLs inside the date window |
| `StatsPage.AllClicksAreTheCountedClicks` | ShortUrl/Pages/Stats.cshtml.cs:68-84 | with distinct URL ids, the collected clicks are, as a multiset, exactly the counted clicks, each once |
| `StatsPage.OnGet` | ShortUrl/Pages/Stats.cshtml.cs:49-211 | no id or a non-positive id gives the all-URL view with the cache untouched; a positive id gives the single-URL view of the cached-or-loaded snapshot; one audit record either way |
| `StatsPage.ViewOneUrl` | ShortUrl/Pages/Stats.cshtml.cs:103-201 | the single-URL outcome of the snapshot, with its cache window renewed |
| `StatsPage.ViewAllUrls` | ShortUrl/Pages/Stats.cshtml.cs:56-101 | the foreach produces exactly the all-URL outcome |
| `StatsPage.AllStatsFigures` | ShortUrl/Pages/Stats.cshtml.cs:56-92 | the listed URLs are the caller's live rows; the total is the number of counted clicks; chart days ascend, one count each, summing to the total |
| `StatsPage.AllUrlsStats` | ShortUrl/Pages/Stats.cshtml.cs:56-101 | an error iff there is no caller id or no such user; otherwise the all-URL view of exactly the caller's live rows, flagged Professional-or-higher iff the user holds one of those roles |
| `StatsPage.UrlStatsOf` | ShortUrl/Pages/Stats.cshtml.cs:115-141 | the checks in source order, each as an iff: not found iff no snapshot; refused iff neither owner nor Admin; expired iff past expiry; an error iff the owner row is missing; otherwise the statistics of that snapshot |
| `StatsPage.UrlStatsList` | ShortUrl/Pages/Stats.cshtml.cs:143-156 | at most 50 clicks of the window, newest first, and no left-out click is newer than the last listed |
| `StatsPage.UrlStatsCounts` | ShortUrl/Pages/Stats.cshtml.cs:158-174 | destination counts and chart sum to the listed clicks (at most 50); OG counts sum to all the URL's clicks |
| `StatsPage.UrlStatsCsv` | ShortUrl/Pages/Stats.cshtml.cs:177-196 | the CSV splits into the header line followed by one row per listed click |
| `VCardManager.UserVCards` | ShortUrl/Pages/VCardManager.cshtml.cs:46-49 | exactly the caller's cards that are not deleted |
| `VCardManager.OwnedPosition` | ShortUrl/Pages/VCardManager.cshtml.cs:115-116 | the caller's card with the id; none iff there is none |
| `VCardManager.CardInForm` | ShortUrl/Pages/VCardManager.cshtml.cs:51-59 | the card loaded into the form is the caller's card with the requested id, or none |
| `VCardManager.PostedRow` | ShortUrl/Pages/VCardManager.cshtml.cs:74 | the posted card always carries the caller's id as owner |
| `VCardManager.PostVerdict` | ShortUrl/Pages/VCardManager.cshtml.cs:64-116 | each refusal as an iff: no caller id; an invalid form; a new card while the caller's live cards reach the tier limit (with that limit); an edit of an id the caller owns no card with. A save implies room in the quota for a new card, or the caller's card for an edit |
| `VCardManager.OnPost` | ShortUrl/Pages/VCardManager.cshtml.cs:64-128 | any refusal changes nothing; a new card is appended with the next id; an edit overwrites only the caller's card with that id |
| `VCardManager.LiveCountAppend` | ShortUrl/Pages/VCardManager.cshtml.cs:99 | appending a card raises the caller's live count by one exactly when it is the caller's live card |
| `VCardManager.NewCardKeepsQuota` | ShortUrl/Pages/VCardManager.cshtml.cs:96-111 | after an accepted new card the caller's live cards are within the tier limit |
| `VCardManager.AfterVCardDelete` | ShortUrl/Pages/VCardManager.cshtml.cs:134-137 | the same rows, in order; every card of the caller with that id is deleted afterwards, stamped now; no other card changes, and no card's id, owner or contact changes (its consequences for the listing and the quota are `DeleteLeavesTheRestListed` and `DeleteFreesQuota`) |
| `VCardManager.OnPostDelete` | ShortUrl/Pages/VCardManager.cshtml.cs:130-140 | the loop over the rows yields exactly that table |
| `VCardManager.DeleteLeavesTheRestListed` | ShortUrl/Pages/VCardManager.cshtml.cs:134-137 | after a delete the card is no longer listed and every other listed card still is |
| `VCardManager.DeleteFreesQuota` | ShortUrl/Pages/VCardManager.cshtml.cs:134-137 | deleting a live card lowers the caller's live count by one |
| `VCardManager.UnmatchedUnchanged` | ShortUrl/Pages/VCardManager.cshtml.cs:134 | a delete of an id no row has changes nothing |
| `ProfilePage.UserPosition` | ShortUrl/Pages/Account/Profile.cshtml.cs:35-40 | the user with the caller's id; none iff there is none |
| `ProfilePage.ActiveSubscription` | ShortUrl/Pages/Account/Profile.cshtml.cs:57-58 | the caller's first active subscription; none iff there is none |
| `ProfilePage.ProfileOf` | ShortUrl/Pages/Account/Profile.cshtml.cs:33-80 | not found iff no user has the caller's id; otherwise that user's name, the parsed "CreatedAt" claim or now, the first active subscription's billing date or none, the number of the caller's live URLs, the number of all the caller's vCards (deleted ones included), and the joined click count |
| `ProfilePage.VCardCountIncludesDeleted` | ShortUrl/Pages/Account/Profile.cshtml.cs:69-70 | the profile's vCard count is never below the quota's live count and equals it iff none of the caller's cards is deleted |
| `ProfilePage.JoinedOwnedUrlsIsIndicator` | ShortUrl/Pages/Account/Profile.cshtml.cs:73-79 | with distinct URL ids a click joins at most one row: one iff its URL is a live URL of the caller's |
| `ProfilePage.JoinedCountIsCountedClicks` | ShortUrl/Pages/Account/Profile.cshtml.cs:73-79 | the joined click count is the number of clicks on the caller's live URLs |
| `ProfilePage.ProfileTotalMatchesStats` | ShortUrl/Pages/Account/Profile.cshtml.cs:66-79 | the profile's total clicks equals the statistics page's all-URL total with no date window, and its URL count is the number of URLs that page lists |
| `ProfilePage.CancelLog` | ShortUrl/Pages/Account/Profile.cshtml.cs:97-104 | the cancel record is linked directly to the caller's id and stamped now |
| `ProfilePage.OnPostCancelSubscription` | ShortUrl/Pages/Account/Profile.cshtml.cs:84-112 | cancelled iff an active subscription exists; then only it is marked to cancel at period end and one record is appended; otherwise nothing changes |
| `ProfilePage.CancelKeepsSubscriptionUntilPeriodEnd` | ShortUrl/Pages/Account/Profile.cshtml.cs:94 | the subscription stays active with its billing date and stays the one found; cancelling twice is cancelling once |
| `Analytics.CountsSumToTotal` | ShortUrl/Pages/Preview.cshtml.cs:107-113 | the per-key occurrence counts (`Analytics.CountsFor`) over distinct keys that cover every item sum to the number of items |
| `Analytics.GroupKeys` | ShortUrl/Pages/Stats.cshtml.cs:158-164 | the distinct keys, exactly those present |
| `Analytics.GroupCounts` | ShortUrl/Pages/Preview.cshtml.cs:107-113 | `GroupBy(..).ToDictionary(.., Count())`: exactly the keys present, each mapped to its number of occurrences, every count at least 1, and the counts summing to the number of items |
| `Analytics.InsertDay` | ShortUrl/Pages/Stats.cshtml.cs:169-174 | inserting a day keeps the days strictly ascending and adds just that day |
| `Analytics.ChartDates` | ShortUrl/Pages/Stats.cshtml.cs:86-92 | the chart's dates ascend strictly and are exactly the days present |
| `Analytics.ChartProperties` | ShortUrl/Pages/Stats.cshtml.cs:86-92 | dates distinct and ascending, exactly the calendar days of the clicks (`Analytics.DaysOf`); one count per date, its number of clicks; counts summing to the clicks |
| `Analytics.DayBounds` | ShortUrl/Pages/Stats.cshtml.cs:145-151 | a tick lies between its day's midnight and that day's last tick |
| `Analytics.InWindowByDay` | ShortUrl/Pages/Stats.cshtml.cs:73-78 | a click is inside the window iff its day is on or after the start's day and on or before the end's day; an absent bound imposes nothing |
| `Analytics.ClicksOf` | ShortUrl/Pages/Preview.cshtml.cs:99-100 | exactly the clicks of that URL |
| `Analytics.ClicksInWindow` | ShortUrl/Pages/Stats.cshtml.cs:143-151 | exactly the clicks of that URL inside the window |
| `Analytics.InsertByTime` | ShortUrl/Pages/Stats.cshtml.cs:153-154 | insertion adds exactly that click |
| `Analytics.InsertByTimeOrder` | ShortUrl/Pages/Stats.cshtml.cs:153-154 | insertion keeps the list newest first |
| `Analytics.NewestFirst` | ShortUrl/Pages/Stats.cshtml.cs:153-154 | `OrderByDescending(ClickedAt)`: a permutation, newest first |
| `Analytics.RecentProperties` | ShortUrl/Pages/Stats.cshtml.cs:153-156 | `Take(50)` of that order: at most 50, newest first, drawn from the clicks, and no left-out click newer than the last kept |
| `Analytics.CsvFields` | ShortUrl/Pages/Stats.cshtml.cs:183-195 | one field per header column, each wrapped in double quotes with nothing escaped; inside the quotes, the click's values in header order (`Analytics.ExportedValues`), a null value written as "" |
| `Analytics.SplitJoin` | ShortUrl/Pages/Stats.cshtml.cs:177-196 | splitting lines joined with a separator they do not hold gives the lines back |
| `Analytics.CsvLines` | ShortUrl/Pages/Stats.cshtml.cs:177-196 | when no field holds a line break, the CSV is the header line followed by exactly one line per click, in order (`Analytics.CsvRows`) |
| `Analytics.HeaderHasNoLineBreak` | ShortUrl/Pages/Stats.cshtml.cs:177-182 | the header is a single line |
| `Analytics.RowHasNoLineBreak` | ShortUrl/Pages/Stats.cshtml.cs:183-195 | a row whose fields hold no line break is a single line |
| `Common.CsRem` | ShortUrl/Program.cs:115 | C#'s `%` on a non-negative left operand: between 0 and the divisor's magnitude, and Dafny's `%` for a positive divisor |
| `Common.ToLower` | ShortUrl/Program.cs:87 | the same length; no upper-case letter is left; every character that is not an ASCII upper-case letter is kept; an upper-case letter becomes its lower-case partner (code point + 32) |
| `Common.TakeUntil` | ShortUrl/Program.cs:162 | the prefix before the first separator: holds no separator and is followed by one unless it is the whole string |
| `Common.NatToString` | ShortUrl/Program.cs:192 | `clickStat.Id.ToString()`: a non-empty string of decimal digits, with no leading zero, whose decimal value is the number |
| `Common.NatToStringInjective` | ShortUrl/Program.cs:192 | distinct click ids render as distinct strings, so the outbound `clickId` names exactly one click |
| `Store.MemoryCache.GetOrCreate` | ShortUrl/Program.cs:66-75 | a live entry is returned; otherwise the loaded value is cached; either way the entry's sliding window restarts now |
| `Store.MemoryCache.WriteBack` | ShortUrl/Program.cs:98-99 | the cached snapshot is replaced by the updated row, leaving the other entries unchanged |
| `Store.MemoryCache.Remove` | ShortUrl/Program.cs:196 | removes just that key |
| `Store.Db.AddUrlShort` | ShortUrl/Services/UrlShortenerService.cs:157-158 | appends the row with the next id and advances the counter |
| `Store.Db.AddClick` | ShortUrl/Program.cs:181-182 | appends the click with the next id and advances the counter |
| `Store.Db.AddAuditLog` | ShortUrl/Services/AuditService.cs:65 | appends one audit record |

## Left out

- **Floating point.** The draw is an exact real. `NextDouble() * totalWeight`
  and the running `double` sums are not rounded.
- **32-bit arithmetic.** Integers are unbounded. No weight sum, counter or
  cursor wraps around as a 32-bit `int` would.
- **Culture.** `ToLower` and the case-insensitive comparisons fold ASCII
  letters only.
- **Date formatting.** The "g" format of the CSV's time column is a
  `formatTime` parameter. The "yyyy-MM-dd" chart labels are day numbers.
- **QR codes.** The QR endpoint (`Program.cs` lines 222-235) only looks up the
  code and renders an image with QRCoder. Image rendering is library code
  outside this model.
- **Stripe.** Signature checking and event parsing are left out. The webhook
  receives an already-parsed event, or none for a `StripeException`. The
  Register, Upgrade, CancelSubscription and SubscriptionSuccess pages call
  the Stripe API and are not part of this model.
- **Identity.** Login, role seeding and the authorization setup are left out.
  Roles are a set on the user row. A caller's claims are a separate set of
  roles.
- **Opaque collaborators.** The geolocation HTTP call, UAParser, BCrypt,
  `Uri.TryCreate`, `IPAddress.TryParse` and `UriBuilder` are function values.
  The outbound URL is the parsed URL plus the query map, not a string
  rendering.
- **Images and files.** SkiaSharp resizing and the upload file writes are
  left out. An upload is its content type, its size and the path it would be
  stored under.
- **Sanitisers.** The HtmlEncoder-based sanitisers (`SanitizeInput`,
  `SanitizeHtml`) are not part of this model.
- **Concurrency.** Calls run one at a time. The non-atomic counter increment
  and cursor updates racing across requests are not modelled.
- **Nested row ids.** Ids of destinations and OG variants inserted with a row
  are not assigned. Edited destinations carry id 0.
- **Unchecked exceptions.** The following become outcome values or are left
  out:
  - exceptions the source does not catch (a null user at a role test, a
    failed database call);
  - the unguarded fallback index;
  - `ToDictionary` on a duplicate key. `GroupBy` groups on the nullable
    id, and `?? 0` then gives the null group and a group of id 0 the same
    key, which makes the source throw. The database numbers destinations
    and OG variants from 1, so no stored click has id 0. In the model an
    edited destination carries id 0 (see "Nested row ids"), and
    `Analytics.GroupCounts` merges the two groups instead of failing.
- **Authorization attributes.** These are not modelled:
  - page-level policies;
  - the `[Authorize]` attribute on the preview page's delete handler, which
    ASP.NET Core ignores on handler methods.
- **Model binding.** Each handler takes its `Input` as bound. ASP.NET Core's
  binder turns an empty or whitespace-only field into null before the
  handler runs, so the Edit page never sees a whitespace-only `Input.Code`.
  The model does not restrict that input.
- **Page loading.** The `OnGet` handlers that only fill the forms
  (`EditUrl`, `Index`, `Password`) are not part of this model.
- **Audit entity id.** The entity id the pages pass to the audit interface
  is dropped, because `AuditService.LogAsync` takes no such parameter.
- **Navigation collections.** The preview and statistics pages count clicks
  from the clicks table. The snapshot's `ClickStats` navigation collection
  is not used.
- `UrlShortening.FirstFreeCode`: the retry loop is modelled over a finite
  supply of draws. When the supply runs out before a free code appears, the
  model reports `DrawsExhausted`. The source would keep drawing.

## Findings

| source | as written | input that shows it | evidently intended | confidence | as-written member | corrected member |
|---|---|---|---|---|---|---|
| ShortUrl/Helpers/InputValidation.cs:11 | the slug patterns end in `$`, which in .NET also matches before a final '\n'. The same patterns are at `Program.cs` line 202, `UrlShortenerService.cs` line 97 and `EditUrl.cshtml.cs` line 106 | the slug "abc\n" | the whole slug consists of `[A-Za-z0-9_-]` characters | high (regex semantics); not executed | `InputValidation.SlugRegexAcceptsTrailingNewline` | `InputValidation.IsValidSlug` |
| ShortUrl/Helpers/InputValidation.cs:104-106 | the e-mail pattern ends in `$` with the same effect | the e-mail "a@b.c\n" | the whole address has the `x@y.z` shape with no white space | high (regex semantics); not executed | `InputValidation.EmailRegexAcceptsTrailingNewline` | `InputValidation.EmailPatternIsShape` |
| ShortUrl/Program.cs:262-268 | the webhook compares the subscription's own id (`subscription.Id`) with the configured price ids | a subscription "sub_1" on price "price_basic" with Basic configured as "price_basic" | map the subscription's price id to its tier | high (Stripe's id prefixes differ); not executed | `Redirect.BasicPurchaseIgnored` | `Redirect.RoleForSubscription` |

For each finding, the corrected member is what the rest of the model uses:

- `Redirect.CheckSlug`, `UrlShortening.ChooseCode` and `EditUrl.SlugVerdict`
  use the whole-string slug pattern, `InputValidation.MatchesSlugPattern`.
- `InputValidation.IsValidEmail` uses the whole-string e-mail pattern.
- `Redirect.HandleStripeWebhook` grants roles through
  `Redirect.RoleForSubscription`, which reads the price id.

The as-written readings are kept as `InputValidation.SlugRegexAsWritten`,
`InputValidation.EmailRegexAsWritten` and
`Redirect.RoleForSubscriptionAsWritten`.
