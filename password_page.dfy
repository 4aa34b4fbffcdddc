/**
 * The password page's POST (`PasswordModel.OnPostAsync`): the same resolution
 * as `GET /{code}` once the visitor has typed the link's password. It reads
 * the table directly (no cache), records the client address only with the
 * visitor's privacy consent, and gates the client details on the owner
 * holding the Basic role.
 */
module PasswordPage {
  import opened Common
  import opened Entities
  import opened Store
  import opened Http
  import opened Redirect
  import UrlShortening

  /** What the page answers. */
  datatype PasswordOutcome =
    | ShowForm                      // Page() with no error
    | IncorrectPassword             // Page() with "Incorrect password."
    | InvalidUrl                    // RedirectToPage("/InvalidUrl")
    | Redirected(url: ParsedUrl)    // Redirect(outbound URL)
    | PageError                     // an unhandled exception

  /** Position of the first non-deleted row whose code equals the posted code (a null code matches none). */
  function PostedEntryPosition(rows: seq<UrlShort>, code: Option<string>): (pos: Option<nat>)
    ensures pos.Some? ==> pos.value < |rows| && code == Some(rows[pos.value].code) && !rows[pos.value].isDeleted
    ensures pos.None? ==> forall i | 0 <= i < |rows| :: code != Some(rows[i].code) || rows[i].isDeleted
  {
    if code.None? then None else UrlShortening.LivePositionByCode(rows, code.value)
  }

  /** The owner has a user row holding Basic (the tier test of this page). */
  predicate OwnerIsBasic(users: seq<IdentityUser>, userId: string)
  {
    UserExists(users, userId) && RoleBasic in RolesOf(users, userId)
  }

  /** The address this page records: the connection's, and only with the consent cookie set to "accepted". */
  function ConsentedIp(req: Request): (ip: Option<string>)
    ensures req.consentCookie != Some("accepted") ==> ip.None?
    ensures req.consentCookie == Some("accepted") ==> ip == req.remoteIp
  {
    if req.consentCookie == Some("accepted") then req.remoteIp else None
  }

  datatype PasswordRoute = FormRoute | InvalidRoute | WrongPasswordRoute | NoDestinationsRoute | ResolveRoute

  /** The page's tests, in source order. */
  function PasswordRouteOf(modelValid: bool, password: Option<string>, row: Option<UrlShort>, now: nat,
                           verifyPassword: (string, string) -> bool): (route: PasswordRoute)
    ensures route == FormRoute <==> !modelValid || IsNullOrWhiteSpace(password)
    ensures route == InvalidRoute <==> route != FormRoute && (row.None? || IsExpired(row.value, now))
    // past those two: no stored hash or a hash the password fails is refused, then an empty destination list
    ensures route == WrongPasswordRoute <==>
      route !in {FormRoute, InvalidRoute}
      && (IsNullOrEmpty(row.value.password) || !verifyPassword(password.value, row.value.password.value))
    ensures route == NoDestinationsRoute <==>
      route !in {FormRoute, InvalidRoute, WrongPasswordRoute} && |row.value.destinationUrls| == 0
    ensures route == ResolveRoute <==>
      && modelValid && !IsNullOrWhiteSpace(password) && password.Some? && row.Some? && !IsExpired(row.value, now)
      && !IsNullOrEmpty(row.value.password) && verifyPassword(password.value, row.value.password.value)
      && |row.value.destinationUrls| > 0
  {
    if !modelValid || IsNullOrWhiteSpace(password) then FormRoute
    else if row.None? || IsExpired(row.value, now) then InvalidRoute
    else if IsNullOrEmpty(row.value.password) || !verifyPassword(password.value, row.value.password.value) then WrongPasswordRoute
    else if |row.value.destinationUrls| == 0 then NoDestinationsRoute
    else ResolveRoute
  }

  /** A link with no stored hash never resolves through this page, whatever is typed. */
  lemma NoHashNoEntry(modelValid: bool, password: Option<string>, row: UrlShort, now: nat, verifyPassword: (string, string) -> bool)
    requires IsNullOrEmpty(row.password)
    ensures PasswordRouteOf(modelValid, password, Some(row), now, verifyPassword) in {FormRoute, InvalidRoute, WrongPasswordRoute}
  {
  }

  /**
   * `OnPostAsync`. Every refusal changes nothing. A resolved post advances the
   * tracked row's cursor, records one click and redirects with the UTM
   * parameters and the click id.
   */
  method OnPost(db: Db, modelValid: bool, inputCode: Option<string>, inputPassword: Option<string>,
                req: Request, env: Env, now: nat, unit: real)
    returns (outcome: PasswordOutcome)
    requires db.Valid()
    modifies db`urlShorts, db`clickStats, db`nextClickId
    ensures db.Valid()
    ensures var pos := PostedEntryPosition(old(db.urlShorts), inputCode);
      var row := if pos.Some? then Some(old(db.urlShorts)[pos.value]) else None;
      var route := PasswordRouteOf(modelValid, inputPassword, row, now, env.verifyPassword);
      && (route == FormRoute ==> outcome == ShowForm)
      && (route == InvalidRoute || route == NoDestinationsRoute ==> outcome == InvalidUrl)
      && (route == WrongPasswordRoute ==> outcome == IncorrectPassword)
      && (route != ResolveRoute ==>
            db.urlShorts == old(db.urlShorts) && db.clickStats == old(db.clickStats) && db.nextClickId == old(db.nextClickId))
    ensures var pos := PostedEntryPosition(old(db.urlShorts), inputCode);
      var row := if pos.Some? then Some(old(db.urlShorts)[pos.value]) else None;
      PasswordRouteOf(modelValid, inputPassword, row, now, env.verifyPassword) == ResolveRoute ==>
        var u := row.value;
        var pick := WeightedChoice(u.destinationUrls, u.currentDestinationIndex, Draw(u.destinationUrls, unit));
        && (pick.IndexOutOfRange? ==>
              outcome == PageError && db.urlShorts == old(db.urlShorts) && db.clickStats == old(db.clickStats))
        && (pick.Picked? ==>
              var d := u.destinationUrls[pick.index];
              var details := if OwnerIsBasic(db.users, u.userId) then Some(ClientDetailsOf(req, env.parseUserAgent)) else None;
              var click := RedirectClick(u.id, d.id, now, ConsentedIp(req), GeoFor(ConsentedIp(req), env.geoLookup), details);
              && db.urlShorts == old(db.urlShorts)[pos.value := u.(currentDestinationIndex := NextRotationIndex(u.currentDestinationIndex, |u.destinationUrls|))]
              && db.clickStats == old(db.clickStats) + [click.(id := old(db.nextClickId))]
              && outcome == Redirected(DestinationRedirect(d, old(db.nextClickId), env.parseUrl).url))
  {
    if !modelValid || IsNullOrWhiteSpace(inputPassword) {
      return ShowForm;
    }

    var pos := PostedEntryPosition(db.urlShorts, inputCode);
    if pos.None? || IsExpired(db.urlShorts[pos.value], now) {
      return InvalidUrl;
    }
    var urlShort := db.urlShorts[pos.value];

    if IsNullOrEmpty(urlShort.password) || !env.verifyPassword(inputPassword.value, urlShort.password.value) {
      return IncorrectPassword;
    }

    if |urlShort.destinationUrls| == 0 {
      return InvalidUrl;
    }
    var pick := SelectWeightedDestinationUrl(urlShort.destinationUrls, urlShort.currentDestinationIndex, unit);
    if pick.IndexOutOfRange? {
      return PageError;
    }
    var destinationUrl := urlShort.destinationUrls[pick.index];
    var advanced := urlShort.(currentDestinationIndex := NextRotationIndex(urlShort.currentDestinationIndex, |urlShort.destinationUrls|));
    db.SetUrlShort(pos.value, advanced);

    var ipAddress := ConsentedIp(req);
    var isBasicOrHigher := OwnerIsBasic(db.users, urlShort.userId);
    var result := RecordClick(db, urlShort.id, destinationUrl, ipAddress, isBasicOrHigher, req, env, now);
    return Redirected(result.url);
  }
}
