/**
 * What the redirect handlers receive from outside: the request's headers and
 * connection, and the collaborators they call but whose internals are not
 * modelled (integer parsing, the geolocation web service, the user-agent
 * parser, URL/query-string parsing, BCrypt). Also the pieces both redirect
 * handlers build the same way: the click's client details and the outbound
 * query string.
 */
module Http {
  import opened Common
  import opened Entities

  /** A geolocation answer that arrived with `Error == false`. */
  datatype GeoResult = GeoResult(country: Option<string>, city: Option<string>)

  /** The fields of UAParser's result the handlers read (null parts rendered as ""). */
  datatype UserAgentInfo = UserAgentInfo(
    deviceFamily: string,
    browserFamily: string, browserMajor: string, browserMinor: string,
    osFamily: string, osMajor: string, osMinor: string)

  /** `UriBuilder(url)` with `HttpUtility.ParseQueryString(uriBuilder.Query)`: the URL without its query, and the query's parameters. */
  datatype ParsedUrl = ParsedUrl(base: string, query: map<string, string>)

  datatype Env = Env(
    tryParseInt: string -> Option<int>,
    geoLookup: string -> Option<GeoResult>,     // None: the call threw, returned null or reported an error
    parseUserAgent: string -> UserAgentInfo,
    parseUrl: string -> ParsedUrl,
    hashPassword: string -> string,              // BCrypt.HashPassword
    verifyPassword: (string, string) -> bool)    // BCrypt.Verify(clear, hash)

  datatype Request = Request(
    userAgent: string,              // the User-Agent header ("" when absent)
    referer: string,                // the Referer header ("" when absent)
    acceptLanguage: string,         // the Accept-Language header ("" when absent)
    varQuery: Option<string>,       // the first `var` query value
    remoteIp: Option<string>,       // Connection.RemoteIpAddress?.ToString()
    consentCookie: Option<string>)  // the `privacy-consent` cookie

  /** The signed-in caller as the sign-in cookie describes it: the NameIdentifier claim (the user id), the Name claim and the role claims. */
  datatype Principal = Principal(userId: Option<string>, name: Option<string>, roles: set<string>)

  /** The first language tag of an Accept-Language header: the text before the first ',' and then before the first ';'. */
  function FirstLanguage(header: string): (lang: string)
    ensures ',' !in lang && ';' !in lang
    ensures StartsWith(header, lang)
    // the tag runs up to the first ',' or ';', not shorter
    ensures |lang| < |header| ==> header[|lang|] == ',' || header[|lang|] == ';'
  {
    var tag := TakeUntil(header, ',');
    var lang := TakeUntil(tag, ';');
    assert header[..|lang|] == tag[..|lang|];
    lang
  }

  /** Geolocation is asked only for a non-empty address other than "::1" and "127.0.0.1"; a failed call leaves it null. */
  function GeoFor(ip: Option<string>, geoLookup: string -> Option<GeoResult>): (geo: Option<GeoResult>)
    ensures ip.None? || ip.value == "" || ip.value == "::1" || ip.value == "127.0.0.1" ==> geo.None?
    ensures !IsNullOrEmpty(ip) && ip.value != "::1" && ip.value != "127.0.0.1" ==> geo == geoLookup(ip.value)
  {
    if !IsNullOrEmpty(ip) && ip.value != "::1" && ip.value != "127.0.0.1" then geoLookup(ip.value) else None
  }

  /** What a paid tier's click records about the client. */
  datatype ClientDetails = ClientDetails(referrer: string, device: string, browser: string, language: string, operatingSystem: string)

  function ClientDetailsOf(req: Request, parseUserAgent: string -> UserAgentInfo): (details: ClientDetails)
    ensures details.referrer == req.referer
    ensures details.language == FirstLanguage(req.acceptLanguage)
    ensures ',' !in details.language && ';' !in details.language && StartsWith(req.acceptLanguage, details.language)
    ensures |details.language| < |req.acceptLanguage| ==>
      req.acceptLanguage[|details.language|] == ',' || req.acceptLanguage[|details.language|] == ';'
    ensures var ua := parseUserAgent(req.userAgent);
      && details.device == ua.deviceFamily
      && details.browser == ua.browserFamily + " " + ua.browserMajor + "." + ua.browserMinor
      && details.operatingSystem == ua.osFamily + " " + ua.osMajor + "." + ua.osMinor
  {
    var ua := parseUserAgent(req.userAgent);
    ClientDetails(
      req.referer,
      ua.deviceFamily,
      ua.browserFamily + " " + ua.browserMajor + "." + ua.browserMinor,
      FirstLanguage(req.acceptLanguage),
      ua.osFamily + " " + ua.osMajor + "." + ua.osMinor)
  }

  /**
   * The click a resolved redirect records (its id is assigned when it is stored).
   * The client details are present only when the owner's tier allows them.
   */
  function RedirectClick(urlShortId: nat, destinationId: nat, now: nat, ip: Option<string>, geo: Option<GeoResult>, details: Option<ClientDetails>): (c: ClickStat)
    ensures c.urlShortId == urlShortId && c.destinationUrlId == Some(destinationId) && c.clickedAt == now && c.ipAddress == ip
    ensures c.ogMetadataId.None? && c.screenResolution.None?
    ensures c.country == (if geo.Some? then geo.value.country else None)
    ensures c.city == (if geo.Some? then geo.value.city else None)
    ensures details.None? ==> c.referrer.None? && c.device.None? && c.browser.None? && c.language.None? && c.operatingSystem.None?
    ensures details.Some? ==> c.referrer == Some(details.value.referrer) && c.language == Some(details.value.language)
    ensures details.Some? ==>
      c.device == Some(details.value.device) && c.browser == Some(details.value.browser)
      && c.operatingSystem == Some(details.value.operatingSystem)
  {
    var country := if geo.Some? then geo.value.country else None;
    var city := if geo.Some? then geo.value.city else None;
    match details
    case None =>
      ClickStat(0, urlShortId, Some(destinationId), None, now, ip, country, city, None, None, None, None, None, None)
    case Some(d) =>
      ClickStat(0, urlShortId, Some(destinationId), None, now, ip, country, city,
        Some(d.referrer), Some(d.device), Some(d.browser), Some(d.language), Some(d.operatingSystem), None)
  }

  /** A UTM parameter is set from the destination only when its value is non-empty; otherwise the parameter is as it was. */
  predicate UtmApplied(query: map<string, string>, existing: map<string, string>, key: string, value: Option<string>)
  {
    if !IsNullOrEmpty(value) then key in query && query[key] == value.value
    else (key in query <==> key in existing) && (key in existing ==> query[key] == existing[key])
  }

  predicate IsOutboundKey(k: string)
  {
    k == "utm_source" || k == "utm_medium" || k == "utm_campaign" || k == "clickId"
  }

  /** The outbound query: the destination's own parameters, its non-empty UTM values, and the click id. */
  function OutboundQuery(existing: map<string, string>, d: DestinationUrl, clickId: nat): map<string, string>
  {
    var q1 := if !IsNullOrEmpty(d.utmSource) then existing["utm_source" := d.utmSource.value] else existing;
    var q2 := if !IsNullOrEmpty(d.utmMedium) then q1["utm_medium" := d.utmMedium.value] else q1;
    var q3 := if !IsNullOrEmpty(d.utmCampaign) then q2["utm_campaign" := d.utmCampaign.value] else q2;
    q3["clickId" := NatToString(clickId)]
  }

  /** Sets the UTM parameters and `clickId` on the parsed query, one assignment at a time. */
  method BuildOutboundQuery(existing: map<string, string>, d: DestinationUrl, clickId: nat) returns (query: map<string, string>)
    ensures query == OutboundQuery(existing, d, clickId)
  {
    query := existing;
    if !IsNullOrEmpty(d.utmSource) {
      query := query["utm_source" := d.utmSource.value];
    }
    if !IsNullOrEmpty(d.utmMedium) {
      query := query["utm_medium" := d.utmMedium.value];
    }
    if !IsNullOrEmpty(d.utmCampaign) {
      query := query["utm_campaign" := d.utmCampaign.value];
    }
    query := query["clickId" := NatToString(clickId)];
  }

  /**
   * The outbound query keeps every other existing parameter, sets each UTM
   * parameter only for a non-empty value, always carries the click id, and
   * adds no other key.
   */
  lemma OutboundQueryProperties(existing: map<string, string>, d: DestinationUrl, clickId: nat)
    ensures var q := OutboundQuery(existing, d, clickId);
      && "clickId" in q && q["clickId"] == NatToString(clickId)
      && UtmApplied(q, existing, "utm_source", d.utmSource)
      && UtmApplied(q, existing, "utm_medium", d.utmMedium)
      && UtmApplied(q, existing, "utm_campaign", d.utmCampaign)
      && (forall k | k in existing && !IsOutboundKey(k) :: k in q && q[k] == existing[k])
      && (forall k | k in q :: k in existing || IsOutboundKey(k))
  {
  }
}
