/**
 * The rows of the application's tables. The repository declares the short
 * URL twice (two classes named `UrlShort`) and refers to the click's owner
 * both as `ShortUrlId` and `UrlShortId`; this module keeps one record per
 * entity, with the union of the fields the handlers use.
 *
 * Times are .NET ticks (100 ns units since 0001-01-01), so they are natural numbers.
 */
module Entities {
  import opened Common

  const RoleFree := "Free"
  const RoleBasic := "Basic"
  const RoleProfessional := "Professional"
  const RoleEnterprise := "Enterprise"
  const RoleAdmin := "Admin"

  const TicksPerMinute: nat := 600_000_000
  const TicksPerDay: nat := 864_000_000_000

  /** One weighted destination of a short URL; `weight` None is the nullable `int?` left null. */
  datatype DestinationUrl = DestinationUrl(
    id: nat,
    url: string,
    utmSource: Option<string>,
    utmMedium: Option<string>,
    utmCampaign: Option<string>,
    weight: Option<int>)

  /** One Open Graph preview variant served to social-media crawlers. */
  datatype OgMetadata = OgMetadata(id: nat, title: string, description: string, image: Option<string>)

  /** The aggregate root: a short code, its owner, its lists and its two rotation cursors. */
  datatype UrlShort = UrlShort(
    id: nat,
    code: string,
    userId: string,
    createdAt: nat,
    expirationDate: Option<nat>,
    password: Option<string>,      // BCrypt hash, never the clear text
    currentDestinationIndex: int,
    currentOgMetadataIndex: int,
    isDeleted: bool,
    deletedAt: Option<nat>,
    destinationUrls: seq<DestinationUrl>,
    ogMetadataVariations: seq<OgMetadata>)

  /** One recorded redirect. */
  datatype ClickStat = ClickStat(
    id: nat,
    urlShortId: nat,
    destinationUrlId: Option<nat>,
    ogMetadataId: Option<nat>,
    clickedAt: nat,
    ipAddress: Option<string>,
    country: Option<string>,
    city: Option<string>,
    referrer: Option<string>,
    device: Option<string>,
    browser: Option<string>,
    language: Option<string>,
    operatingSystem: Option<string>,
    screenResolution: Option<string>)

  /** The contact fields of a vCard; no handler inspects them. */
  datatype VCardContact = VCardContact(
    firstName: string, lastName: string, organization: string, jobTitle: string,
    email: string, phone: string, website: string, address: string, note: string)

  datatype VCard = VCard(
    id: nat,
    userId: string,
    contact: VCardContact,
    createdAt: nat,
    isDeleted: bool,
    deletedAt: Option<nat>)

  /** An audit record: `UserId` points at a user row, `UserIdString` keeps an unmatched name. */
  datatype AuditLog = AuditLog(
    userId: Option<string>,
    userIdString: Option<string>,
    action: string,
    entityType: string,
    details: string,
    timestamp: nat)

  datatype MemberSubscription = MemberSubscription(
    id: nat,
    userId: string,
    planType: string,
    isActive: bool,
    nextBillingDate: Option<nat>,
    cancelAtPeriodEnd: bool)

  /** An Identity user together with the names of the roles it holds. */
  datatype IdentityUser = IdentityUser(id: string, userName: string, roles: set<string>)

  datatype UserStripeInfo = UserStripeInfo(userId: string, stripeCustomerId: string)

  /** The roles the Identity tables give a user id (none for an unknown id). */
  function RolesOf(users: seq<IdentityUser>, userId: string): set<string>
  {
    if users == [] then {}
    else if users[0].id == userId then users[0].roles
    else RolesOf(users[1..], userId)
  }

  predicate UserExists(users: seq<IdentityUser>, userId: string)
  {
    exists i | 0 <= i < |users| :: users[i].id == userId
  }

  /** `ExpirationDate.HasValue && ExpirationDate.Value < now` */
  predicate IsExpired(u: UrlShort, now: nat)
  {
    u.expirationDate.Some? && u.expirationDate.value < now
  }

  /** Some stored code, deleted rows included, equals `code` exactly. */
  predicate CodeTaken(rows: seq<UrlShort>, code: string)
  {
    exists i | 0 <= i < |rows| :: rows[i].code == code
  }

  /** Some stored code, deleted rows included, equals `slug` ignoring case. */
  predicate CodeTakenIgnoringCase(rows: seq<UrlShort>, slug: string)
  {
    exists i | 0 <= i < |rows| :: EqualsIgnoreCase(rows[i].code, slug)
  }
}
