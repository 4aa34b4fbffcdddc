/**
 * The per-IP request limiter (`RateLimiter`). Each traffic class keeps one
 * counter per client address in the memory cache; the counter is created with
 * an absolute one-minute expiry, every request increments it, and a request is
 * refused once the count passes the class's limit. Whether the caller is
 * signed in picks the limit, not the counter: both share one key.
 */
module RateLimiting {
  import opened Common
  import opened Entities

  datatype TrafficClass = Redirection | UrlCreation | ApiAccess | QrGeneration

  /** Requests per minute, anonymous and signed-in. */
  function Limit(traffic: TrafficClass, isAuthenticated: bool): nat
  {
    match traffic
    case Redirection => if isAuthenticated then 200 else 60
    case UrlCreation => if isAuthenticated then 20 else 5
    case ApiAccess => if isAuthenticated then 100 else 30
    case QrGeneration => if isAuthenticated then 50 else 15
  }

  function KeyPrefix(traffic: TrafficClass): string
  {
    match traffic
    case Redirection => "redirection_limit_"
    case UrlCreation => "url_creation_limit_"
    case ApiAccess => "api_limit_"
    case QrGeneration => "qr_limit_"
  }

  /** The cache key of a class's counter for one client address. */
  function CacheKey(traffic: TrafficClass, ipAddress: string): string
  {
    KeyPrefix(traffic) + ipAddress
  }

  /** Different classes or different addresses never share a counter. */
  lemma {:induction false} CacheKeyInjective(t1: TrafficClass, ip1: string, t2: TrafficClass, ip2: string)
    requires CacheKey(t1, ip1) == CacheKey(t2, ip2)
    ensures t1 == t2 && ip1 == ip2
  {
    // the four prefixes start with four different letters
    assert CacheKey(t1, ip1)[0] == KeyPrefix(t1)[0];
    assert CacheKey(t2, ip2)[0] == KeyPrefix(t2)[0];
    assert t1 == t2;
    var n := |KeyPrefix(t1)|;
    assert ip1 == CacheKey(t1, ip1)[n..];
    assert ip2 == CacheKey(t2, ip2)[n..];
  }

  /** The counter's absolute expiry, in ticks. */
  const Window: nat := TicksPerMinute

  datatype RequestInfo = RequestInfo(count: int, firstRequestTime: nat, expiresAt: nat)

  /** The key holds a counter whose minute has not run out. */
  predicate IsLive(entries: map<string, RequestInfo>, key: string, now: nat)
  {
    key in entries && now < entries[key].expiresAt
  }

  /** What `GetOrCreate` hands back: the live counter, or a new one at 0 expiring a minute from now. */
  function CurrentInfo(entries: map<string, RequestInfo>, key: string, now: nat): RequestInfo
  {
    if IsLive(entries, key, now) then entries[key] else RequestInfo(0, now, now + Window)
  }

  /** The counter after this request's increment. */
  function Counted(entries: map<string, RequestInfo>, key: string, now: nat): RequestInfo
  {
    var info := CurrentInfo(entries, key, now);
    info.(count := info.count + 1)
  }

  /** The cache after one request on `key`: only that key's counter changes. */
  function AfterRequest(entries: map<string, RequestInfo>, key: string, now: nat): map<string, RequestInfo>
  {
    entries[key := Counted(entries, key, now)]
  }

  class RateLimiter {
    var entries: map<string, RequestInfo>

    constructor ()
      ensures entries == map[]
    {
      entries := map[];
    }

    method AllowRedirection(ipAddress: string, isAuthenticated: bool, now: nat) returns (allowed: bool)
      modifies this
      ensures var key := CacheKey(Redirection, ipAddress);
        && entries == AfterRequest(old(entries), key, now)
        && allowed == (Counted(old(entries), key, now).count <= Limit(Redirection, isAuthenticated))
    {
      allowed := IsRequestAllowed(CacheKey(Redirection, ipAddress), Limit(Redirection, isAuthenticated), now);
    }

    method AllowUrlCreation(ipAddress: string, isAuthenticated: bool, now: nat) returns (allowed: bool)
      modifies this
      ensures var key := CacheKey(UrlCreation, ipAddress);
        && entries == AfterRequest(old(entries), key, now)
        && allowed == (Counted(old(entries), key, now).count <= Limit(UrlCreation, isAuthenticated))
    {
      allowed := IsRequestAllowed(CacheKey(UrlCreation, ipAddress), Limit(UrlCreation, isAuthenticated), now);
    }

    method AllowApiAccess(ipAddress: string, isAuthenticated: bool, now: nat) returns (allowed: bool)
      modifies this
      ensures var key := CacheKey(ApiAccess, ipAddress);
        && entries == AfterRequest(old(entries), key, now)
        && allowed == (Counted(old(entries), key, now).count <= Limit(ApiAccess, isAuthenticated))
    {
      allowed := IsRequestAllowed(CacheKey(ApiAccess, ipAddress), Limit(ApiAccess, isAuthenticated), now);
    }

    method AllowQrGeneration(ipAddress: string, isAuthenticated: bool, now: nat) returns (allowed: bool)
      modifies this
      ensures var key := CacheKey(QrGeneration, ipAddress);
        && entries == AfterRequest(old(entries), key, now)
        && allowed == (Counted(old(entries), key, now).count <= Limit(QrGeneration, isAuthenticated))
    {
      allowed := IsRequestAllowed(CacheKey(QrGeneration, ipAddress), Limit(QrGeneration, isAuthenticated), now);
    }

    /** Fetch or create the counter, increment it in place, refuse once it exceeds `limit`. */
    method IsRequestAllowed(key: string, limit: int, now: nat) returns (allowed: bool)
      modifies this
      ensures entries == AfterRequest(old(entries), key, now)
      ensures allowed == (Counted(old(entries), key, now).count <= limit)
    {
      var info: RequestInfo;
      if key in entries && now < entries[key].expiresAt {
        info := entries[key];
      } else {
        info := RequestInfo(0, now, now + Window);
      }
      info := info.(count := info.count + 1);
      entries := entries[key := info];
      allowed := !(info.count > limit);
    }
  }

  /** The verdicts a run of requests on one key receives, at the given times. */
  function Verdicts(entries: map<string, RequestInfo>, key: string, limit: int, times: seq<nat>): (verdicts: seq<bool>)
    ensures |verdicts| == |times|
    decreases |times|
  {
    if times == [] then []
    else
      var first := Counted(entries, key, times[0]).count <= limit;
      [first] + Verdicts(AfterRequest(entries, key, times[0]), key, limit, times[1..])
  }

  /** Inside a live counter's minute, the i-th further request sees count + i + 1. */
  lemma {:induction false} VerdictsWithinWindow(entries: map<string, RequestInfo>, key: string, limit: int, times: seq<nat>)
    requires key in entries
    requires forall i | 0 <= i < |times| :: times[i] < entries[key].expiresAt
    ensures forall i | 0 <= i < |times| ::
      Verdicts(entries, key, limit, times)[i] == (entries[key].count + i + 1 <= limit)
    decreases |times|
  {
    if times != [] {
      var next := AfterRequest(entries, key, times[0]);
      assert next[key] == entries[key].(count := entries[key].count + 1);
      VerdictsWithinWindow(next, key, limit, times[1..]);
      var v := Verdicts(entries, key, limit, times);
      assert v == [entries[key].count + 1 <= limit] + Verdicts(next, key, limit, times[1..]);
      forall i | 1 <= i < |times|
        ensures v[i] == (entries[key].count + i + 1 <= limit)
      {
        assert v[i] == Verdicts(next, key, limit, times[1..])[i - 1];
      }
    }
  }

  /**
   * A client with no live counter gets exactly `limit` requests through in the
   * minute after its first one; every later request in that minute is refused.
   */
  lemma {:induction false} FirstLimitRequestsAllowed(entries: map<string, RequestInfo>, key: string, limit: int, times: seq<nat>)
    requires |times| >= 1 && !IsLive(entries, key, times[0])
    requires forall i | 0 <= i < |times| :: times[i] < times[0] + Window
    ensures forall i | 0 <= i < |times| :: Verdicts(entries, key, limit, times)[i] == (i < limit)
  {
    var next := AfterRequest(entries, key, times[0]);
    assert next[key] == RequestInfo(1, times[0], times[0] + Window);
    VerdictsWithinWindow(next, key, limit, times[1..]);
    var v := Verdicts(entries, key, limit, times);
    assert v == [1 <= limit] + Verdicts(next, key, limit, times[1..]);
    forall i | 1 <= i < |times|
      ensures v[i] == (i < limit)
    {
      assert v[i] == Verdicts(next, key, limit, times[1..])[i - 1];
    }
  }

  /** Once a request is refused, the next one on the same key inside the minute is refused too. */
  lemma RefusalPersistsWithinWindow(entries: map<string, RequestInfo>, key: string, limit: int, t1: nat, t2: nat)
    requires Counted(entries, key, t1).count > limit
    requires t2 < Counted(entries, key, t1).expiresAt
    ensures Counted(AfterRequest(entries, key, t1), key, t2).count > limit
  {
  }

  /** A request on one key leaves every other client's and class's counter as it was. */
  lemma RequestTouchesOnlyItsKey(entries: map<string, RequestInfo>, key: string, other: string, now: nat)
    requires other != key
    ensures other in AfterRequest(entries, key, now) <==> other in entries
    ensures other in entries ==> AfterRequest(entries, key, now)[other] == entries[other]
  {
  }
}
