/**
 * The edit page's POST (`EditUrlModel.OnPostAsync`): input limits, ownership,
 * the slug rule (unique ignoring case among the OTHER rows, deleted rows
 * included), image-upload checks, and the update itself: new code, expiry
 * and password for Enterprise only, destinations replaced with their weights
 * clamped to at least 1, OG variants replaced, both cursors reset, and an
 * audit record for Enterprise callers.
 *
 * The page does not touch the redirect cache: a cached snapshot of the old
 * row keeps being served until it expires.
 */
module EditUrl {
  import opened Common
  import opened Entities
  import opened Store
  import opened InputValidation
  import opened AuditService

  /** The bound form. */
  datatype EditInput = EditInput(
    id: int,
    code: Option<string>,
    destinationUrls: seq<DestinationUrl>,
    ogMetadataVariations: seq<OgMetadata>,
    expirationDate: Option<nat>,
    password: Option<string>)

  /** An uploaded OG image: its declared content type, its size and the path it is stored under. */
  datatype Upload = Upload(contentType: string, length: nat, storedPath: string)

  const MaxDestinations: nat := 5
  const MaxOgVariations: nat := 5
  const MaxImageBytes: nat := 2 * 1024 * 1024

  datatype EditOutcome =
    | InvalidInput        // "At least one valid destination URL is required."
    | TooManyEntries      // "You can have up to 5 destination URLs and 5 metadata variations."
    | Unhandled           // the caller has no user row: `IsInRoleAsync(null, …)` throws
    | NotFound            // "URL not found or you don't have permission to edit it."
    | InvalidSlugFormat   // "Invalid slug format."
    | SlugInUse           // "Slug is already in use."
    | ImageTypeRejected   // "Only image files are allowed for social media metadata."
    | ImageTooLarge       // "Image size must be less than 2MB."
    | Updated             // "URL updated successfully."

  predicate HasBlankUrl(ds: seq<DestinationUrl>)
  {
    exists i | 0 <= i < |ds| :: IsBlank(ds[i].url)
  }

  /** Some row other than `id`, deleted rows included, has this code ignoring case. */
  predicate CodeTakenByOther(rows: seq<UrlShort>, code: string, id: int)
  {
    exists i | 0 <= i < |rows| :: EqualsIgnoreCase(rows[i].code, code) && rows[i].id != id
  }

  /** The slug rule: a non-blank code that differs from the current one must be well-formed and unused by other rows. */
  function SlugVerdict(rows: seq<UrlShort>, input: EditInput, currentCode: string): (e: Option<EditOutcome>)
    ensures e.None? <==>
      IsNullOrWhiteSpace(input.code) || input.code.value == currentCode ||
      (MatchesSlugPattern(input.code.value) && !CodeTakenByOther(rows, input.code.value, input.id))
  {
    if !IsNullOrWhiteSpace(input.code) && input.code.value != currentCode then
      if !MatchesSlugPattern(input.code.value) then Some(InvalidSlugFormat)
      else if CodeTakenByOther(rows, input.code.value, input.id) then Some(SlugInUse)
      else None
    else None
  }

  /** What an upload's checks say: only a non-empty file is checked, its type before its size. */
  function UploadError(upload: Option<Upload>): Option<EditOutcome>
  {
    if upload.Some? && upload.value.length > 0 then
      if !StartsWith(upload.value.contentType, "image/") then Some(ImageTypeRejected)
      else if upload.value.length > MaxImageBytes then Some(ImageTooLarge)
      else None
    else None
  }

  /** The first failing upload among the first `n` variants. */
  function UploadErrorBefore(uploads: nat -> Option<Upload>, n: nat): (e: Option<EditOutcome>)
    ensures e.None? <==> forall i | 0 <= i < n :: UploadError(uploads(i)).None?
    ensures e.Some? ==> e.value == ImageTypeRejected || e.value == ImageTooLarge
  {
    if n == 0 then None
    else
      var earlier := UploadErrorBefore(uploads, n - 1);
      if earlier.Some? then earlier else UploadError(uploads(n - 1))
  }

  /** A variant with a non-empty uploaded file points at the stored image. */
  function Attached(og: OgMetadata, upload: Option<Upload>): OgMetadata
  {
    if upload.Some? && upload.value.length > 0 then og.(image := Some(upload.value.storedPath)) else og
  }

  function WithUploads(ogs: seq<OgMetadata>, uploads: nat -> Option<Upload>): (r: seq<OgMetadata>)
    ensures |r| == |ogs|
    ensures forall i | 0 <= i < |ogs| :: r[i] == Attached(ogs[i], uploads(i))
  {
    seq(|ogs|, i requires 0 <= i < |ogs| => Attached(ogs[i], uploads(i)))
  }

  /** This page keeps a variant whose title or description is not blank, or whose image is not empty. */
  predicate HasEditedOgContent(og: OgMetadata)
  {
    !IsBlank(og.title) || !IsBlank(og.description) || !IsNullOrEmpty(og.image)
  }

  datatype OgProcessing = OgKept(variations: seq<OgMetadata>) | OgRejected(error: EditOutcome)

  /** The for-loop over the posted variants: check and attach each upload, keep the variants that say anything. */
  method ProcessOgVariants(ogs: seq<OgMetadata>, uploads: nat -> Option<Upload>) returns (r: OgProcessing)
    ensures r.OgRejected? <==> UploadErrorBefore(uploads, |ogs|).Some?
    ensures r.OgRejected? ==> r.error == UploadErrorBefore(uploads, |ogs|).value
    ensures r.OgKept? ==> r.variations == Filter(WithUploads(ogs, uploads), HasEditedOgContent)
  {
    ghost var all := WithUploads(ogs, uploads);
    var kept := [];
    for i := 0 to |ogs|
      invariant UploadErrorBefore(uploads, i).None?
      invariant kept == Filter(all[..i], HasEditedOgContent)
    {
      var upload := uploads(i);
      if upload.Some? && upload.value.length > 0 {
        if !StartsWith(upload.value.contentType, "image/") {
          UploadErrorMonotone(uploads, i + 1, |ogs|);
          return OgRejected(ImageTypeRejected);
        }
        if upload.value.length > MaxImageBytes {
          UploadErrorMonotone(uploads, i + 1, |ogs|);
          return OgRejected(ImageTooLarge);
        }
      }
      var og := Attached(ogs[i], upload);
      assert all[..i + 1] == all[..i] + [og];
      FilterAppend(all[..i], og, HasEditedOgContent);
      if HasEditedOgContent(og) {
        kept := kept + [og];
      }
    }
    assert all[..|ogs|] == all;
    return OgKept(kept);
  }

  /** Once an upload has failed, the first failure stays the same however many more variants follow. */
  lemma {:induction false} UploadErrorMonotone(uploads: nat -> Option<Upload>, m: nat, n: nat)
    requires m <= n && UploadErrorBefore(uploads, m).Some?
    ensures UploadErrorBefore(uploads, n) == UploadErrorBefore(uploads, m)
    decreases n - m
  {
    if m < n {
      UploadErrorMonotone(uploads, m, n - 1);
    }
  }

  /** The replacement destinations: same URL and UTM values, a weight kept only when positive (null and non-positive become 1). */
  function ClampedWeight(weight: Option<int>): (w: Option<int>)
    ensures w.Some? && w.value >= 1
    ensures weight.Some? && weight.value > 0 ==> w == weight
    ensures !(weight.Some? && weight.value > 0) ==> w == Some(1)
  {
    if weight.Some? && weight.value > 0 then weight else Some(1)
  }

  function ReplacedDestinations(ds: seq<DestinationUrl>): (r: seq<DestinationUrl>)
    ensures |r| == |ds|
    // new rows (id unassigned) with the posted URL and UTM values, in order
    ensures forall i | 0 <= i < |ds| ::
      r[i].id == 0 && r[i].url == ds[i].url
      && r[i].utmSource == ds[i].utmSource && r[i].utmMedium == ds[i].utmMedium && r[i].utmCampaign == ds[i].utmCampaign
    // every stored weight is positive, and a positive posted weight is kept
    ensures forall i | 0 <= i < |ds| :: r[i].weight.Some? && r[i].weight.value >= 1
    ensures forall i | 0 <= i < |ds| :: ds[i].weight.Some? && ds[i].weight.value > 0 ==> r[i].weight == ds[i].weight
  {
    seq(|ds|, i requires 0 <= i < |ds| =>
      DestinationUrl(0, ds[i].url, ds[i].utmSource, ds[i].utmMedium, ds[i].utmCampaign, ClampedWeight(ds[i].weight)))
  }

  /** The edited row. */
  function Edited(u: UrlShort, input: EditInput, isEnterprise: bool, keptOg: seq<OgMetadata>,
                  hashPassword: string -> string): (e: UrlShort)
    // `Input.Code ?? urlShort.Code`: a whitespace-only code is stored as typed
    ensures e.code == (if input.code.Some? then input.code.value else u.code)
    ensures e.expirationDate == (if isEnterprise then input.expirationDate else u.expirationDate)
    ensures !isEnterprise || input.password.None? ==> e.password == u.password
    ensures isEnterprise && input.password == Some("") ==> e.password.None?
    ensures isEnterprise && input.password.Some? && input.password.value != "" ==> e.password == Some(hashPassword(input.password.value))
    ensures e.destinationUrls == ReplacedDestinations(input.destinationUrls) && e.ogMetadataVariations == keptOg
    ensures e.currentDestinationIndex == 0 && e.currentOgMetadataIndex == 0
    ensures e.id == u.id && e.userId == u.userId && e.isDeleted == u.isDeleted && e.createdAt == u.createdAt
  {
    var password := if isEnterprise && input.password.Some? then
                      (if input.password.value == "" then None else Some(hashPassword(input.password.value)))
                    else u.password;
    u.(code := if input.code.Some? then input.code.value else u.code,
       expirationDate := if isEnterprise then input.expirationDate else u.expirationDate,
       password := password,
       destinationUrls := ReplacedDestinations(input.destinationUrls),
       currentDestinationIndex := 0,
       ogMetadataVariations := keptOg,
       currentOgMetadataIndex := 0)
  }

  /** The audit text: "Updated slug from '<old>' to '<new>', <n> URLs, <m> OG variations." */
  function EditDetails(oldCode: string, newCode: string, urlCount: nat, ogCount: nat): string
  {
    "Updated slug from '" + oldCode + "' to '" + newCode + "', " + NatToString(urlCount) + " URLs, "
      + NatToString(ogCount) + " OG variations."
  }

  /** The form is bound and every posted destination has a URL. */
  predicate FormComplete(modelValid: bool, input: EditInput)
  {
    modelValid && input.destinationUrls != [] && !HasBlankUrl(input.destinationUrls)
  }

  predicate WithinLimits(input: EditInput)
  {
    |input.destinationUrls| <= MaxDestinations && |input.ogMetadataVariations| <= MaxOgVariations
  }

  /** The page's verdict, test by test in its order. */
  function EditVerdict(rows: seq<UrlShort>, users: seq<IdentityUser>, userId: string, modelValid: bool,
                       input: EditInput, uploads: nat -> Option<Upload>): (v: EditOutcome)
    ensures v == InvalidInput <==> !FormComplete(modelValid, input)
    ensures v == TooManyEntries <==> FormComplete(modelValid, input) && !WithinLimits(input)
    ensures v == Unhandled <==> FormComplete(modelValid, input) && WithinLimits(input) && !UserExists(users, userId)
    ensures v == NotFound <==>
      FormComplete(modelValid, input) && WithinLimits(input) && UserExists(users, userId) &&
      forall i | 0 <= i < |rows| :: rows[i].id != input.id || rows[i].userId != userId || rows[i].isDeleted
    // accepted only when every check passed, the slug rule on the caller's own row
    ensures v == Updated <==>
      FormComplete(modelValid, input) && WithinLimits(input) && UserExists(users, userId) &&
      exists i | 0 <= i < |rows| :: rows[i].id == input.id && rows[i].userId == userId && !rows[i].isDeleted
        && OwnedLivePosition(rows, userId, input.id) == Some(i)
        && SlugVerdict(rows, input, rows[i].code).None?
        && UploadErrorBefore(uploads, |input.ogMetadataVariations|).None?
  {
    if !modelValid || input.destinationUrls == [] || HasBlankUrl(input.destinationUrls) then InvalidInput
    else if |input.destinationUrls| > MaxDestinations || |input.ogMetadataVariations| > MaxOgVariations then TooManyEntries
    else if !UserExists(users, userId) then Unhandled
    else match OwnedLivePosition(rows, userId, input.id)
      case None => NotFound
      case Some(pos) =>
        var slugError := SlugVerdict(rows, input, rows[pos].code);
        if slugError.Some? then slugError.value
        else
          var uploadError := UploadErrorBefore(uploads, |input.ogMetadataVariations|);
          if uploadError.Some? then uploadError.value
          else Updated
  }

  /** An accepted edit was posted by the row's owner, on a live row, within the limits, with an acceptable slug. */
  lemma UpdatedMeansAllChecksPassed(rows: seq<UrlShort>, users: seq<IdentityUser>, userId: string, modelValid: bool,
                                    input: EditInput, uploads: nat -> Option<Upload>)
    requires EditVerdict(rows, users, userId, modelValid, input, uploads) == Updated
    ensures modelValid && 1 <= |input.destinationUrls| <= MaxDestinations && |input.ogMetadataVariations| <= MaxOgVariations
    ensures !HasBlankUrl(input.destinationUrls)
    ensures exists i | 0 <= i < |rows| :: rows[i].id == input.id && rows[i].userId == userId && !rows[i].isDeleted
    ensures !IsNullOrWhiteSpace(input.code) ==>
      (exists i | 0 <= i < |rows| :: rows[i].id == input.id && rows[i].code == input.code.value) ||
      (MatchesSlugPattern(input.code.value) && !CodeTakenByOther(rows, input.code.value, input.id))
    ensures forall i | 0 <= i < |input.ogMetadataVariations| :: UploadError(uploads(i)).None?
  {
    var pos := OwnedLivePosition(rows, userId, input.id).value;
    assert rows[pos].id == input.id;
  }

  /** `OnPostAsync` */
  method OnPost(db: Db, userId: string, modelValid: bool, input: EditInput, uploads: nat -> Option<Upload>,
                hashPassword: string -> string, now: nat)
    returns (outcome: EditOutcome)
    requires db.Valid()
    modifies db`urlShorts, db`auditLogs
    ensures db.Valid()
    ensures outcome == EditVerdict(old(db.urlShorts), db.users, userId, modelValid, input, uploads)
    ensures outcome != Updated ==> db.urlShorts == old(db.urlShorts) && db.auditLogs == old(db.auditLogs)
    ensures outcome == Updated ==>
      var pos := OwnedLivePosition(old(db.urlShorts), userId, input.id).value;
      var u := old(db.urlShorts)[pos];
      var isEnterprise := RoleEnterprise in RolesOf(db.users, userId);
      var e := Edited(u, input, isEnterprise, Filter(WithUploads(input.ogMetadataVariations, uploads), HasEditedOgContent), hashPassword);
      && db.urlShorts == old(db.urlShorts)[pos := e]
      && db.auditLogs == old(db.auditLogs) +
           (if isEnterprise
            then [AuditEntry(db.users, Some(userId), "Edit", "ShortUrl",
                             EditDetails(u.code, e.code, |e.destinationUrls|, |e.ogMetadataVariations|), now)]
            else [])
  {
    if !modelValid || input.destinationUrls == [] || HasBlankUrl(input.destinationUrls) {
      return InvalidInput;
    }
    if |input.destinationUrls| > MaxDestinations || |input.ogMetadataVariations| > MaxOgVariations {
      return TooManyEntries;
    }
    if !UserExists(db.users, userId) {
      return Unhandled;
    }
    var isEnterprise := RoleEnterprise in RolesOf(db.users, userId);

    var pos := OwnedLivePosition(db.urlShorts, userId, input.id);
    if pos.None? {
      return NotFound;
    }
    var urlShort := db.urlShorts[pos.value];

    var slugError := SlugVerdict(db.urlShorts, input, urlShort.code);
    if slugError.Some? {
      return slugError.value;
    }

    var og := ProcessOgVariants(input.ogMetadataVariations, uploads);
    if og.OgRejected? {
      return og.error;
    }

    ApplyEdit(db, userId, pos.value, input, isEnterprise, og.variations, hashPassword, now);
    return Updated;
  }

  /** The accepted edit: the row is rewritten in place, and an Enterprise caller's edit is audited. */
  method ApplyEdit(db: Db, userId: string, pos: nat, input: EditInput, isEnterprise: bool, keptOg: seq<OgMetadata>,
                   hashPassword: string -> string, now: nat)
    requires db.Valid() && pos < |db.urlShorts|
    modifies db`urlShorts, db`auditLogs
    ensures db.Valid()
    ensures var u := old(db.urlShorts)[pos];
      var e := Edited(u, input, isEnterprise, keptOg, hashPassword);
      && db.urlShorts == old(db.urlShorts)[pos := e]
      && db.auditLogs == old(db.auditLogs) +
           (if isEnterprise
            then [AuditEntry(db.users, Some(userId), "Edit", "ShortUrl",
                             EditDetails(u.code, e.code, |e.destinationUrls|, |e.ogMetadataVariations|), now)]
            else [])
  {
    var urlShort := db.urlShorts[pos];
    var oldCode := urlShort.code;
    var edited := Edited(urlShort, input, isEnterprise, keptOg, hashPassword);
    db.SetUrlShort(pos, edited);

    if isEnterprise {
      var _ := Log(db, Some(userId), "Edit", "ShortUrl",
                   EditDetails(oldCode, edited.code, |edited.destinationUrls|, |edited.ogMetadataVariations|), now);
    }
  }
}
