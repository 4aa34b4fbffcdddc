/**
 * The application's database context and its in-process memory cache.
 *
 * `Db` holds one sequence per table (rows are values; a handler that changes
 * a row writes the new value back at that row's position) and the identity
 * counters the database would use to number new rows.
 *
 * `MemoryCache` keeps, per key, a snapshot of the short URL a handler loaded
 * (or the null it found) and the time of its last access, for the 5-minute
 * sliding expiration the handlers configure.
 */
module Store {
  import opened Common
  import opened Entities

  /** The caller's URLs that are not soft-deleted, in table order (the page listings and the statistics scope). */
  function UserUrls(rows: seq<UrlShort>, userId: string): (urls: seq<UrlShort>)
    ensures forall i | 0 <= i < |urls| :: urls[i] in rows && urls[i].userId == userId && !urls[i].isDeleted
    ensures forall i | 0 <= i < |rows| && rows[i].userId == userId && !rows[i].isDeleted :: rows[i] in urls
  {
    Filter(rows, (u: UrlShort) => u.userId == userId && !u.isDeleted)
  }

  /** The position of the caller's live row with this id, as the edit and delete handlers look it up. */
  function OwnedLivePosition(rows: seq<UrlShort>, userId: string, id: int): (pos: Option<nat>)
    ensures pos.Some? ==> pos.value < |rows| && rows[pos.value].id == id && rows[pos.value].userId == userId && !rows[pos.value].isDeleted
    ensures pos.None? <==> forall i | 0 <= i < |rows| :: rows[i].id != id || rows[i].userId != userId || rows[i].isDeleted
  {
    FirstWhere(rows, (u: UrlShort) => u.id == id && u.userId == userId && !u.isDeleted)
  }

  class Db {
    var urlShorts: seq<UrlShort>
    var clickStats: seq<ClickStat>
    var vCards: seq<VCard>
    var auditLogs: seq<AuditLog>
    var memberSubscriptions: seq<MemberSubscription>
    var users: seq<IdentityUser>
    var userStripeInfos: seq<UserStripeInfo>
    // identity columns: the next value the database hands out
    var nextUrlId: nat
    var nextClickId: nat
    var nextVCardId: nat
    var nextDestinationId: nat
    var nextOgId: nat

    /** Stored ids are positive, distinct and below the identity counter, so a new id is fresh. */
    ghost predicate Valid()
      reads this
    {
      && (forall i | 0 <= i < |urlShorts| :: 1 <= urlShorts[i].id < nextUrlId)
      && (forall i, j | 0 <= i < j < |urlShorts| :: urlShorts[i].id != urlShorts[j].id)
      && (forall i | 0 <= i < |clickStats| :: 1 <= clickStats[i].id < nextClickId)
      && (forall i, j | 0 <= i < j < |clickStats| :: clickStats[i].id != clickStats[j].id)
      && (forall i | 0 <= i < |vCards| :: 1 <= vCards[i].id < nextVCardId)
      && (forall i, j | 0 <= i < j < |vCards| :: vCards[i].id != vCards[j].id)
      && nextUrlId >= 1 && nextClickId >= 1 && nextVCardId >= 1
      && nextDestinationId >= 1 && nextOgId >= 1
    }

    constructor ()
      ensures Valid()
      ensures urlShorts == [] && clickStats == [] && vCards == [] && auditLogs == []
      ensures memberSubscriptions == [] && users == [] && userStripeInfos == []
    {
      urlShorts, clickStats, vCards, auditLogs := [], [], [], [];
      memberSubscriptions, users, userStripeInfos := [], [], [];
      nextUrlId, nextClickId, nextVCardId, nextDestinationId, nextOgId := 1, 1, 1, 1, 1;
    }

    /** `ShortUrls.Add` + `SaveChanges`: the row gets the next identity value. */
    method AddUrlShort(u: UrlShort) returns (id: nat)
      requires Valid()
      modifies this`urlShorts, this`nextUrlId
      ensures Valid()
      ensures id == old(nextUrlId) && nextUrlId == id + 1
      ensures urlShorts == old(urlShorts) + [u.(id := id)]
    {
      id := nextUrlId;
      urlShorts := urlShorts + [u.(id := id)];
      nextUrlId := nextUrlId + 1;
    }

    /** Writes a changed short URL back over its own row (the id is kept). */
    method SetUrlShort(pos: nat, u: UrlShort)
      requires Valid()
      requires pos < |urlShorts| && u.id == urlShorts[pos].id
      modifies this`urlShorts
      ensures Valid()
      ensures urlShorts == old(urlShorts)[pos := u]
    {
      urlShorts := urlShorts[pos := u];
    }

    /** `ClickStats.Add` + `SaveChanges`: the click gets the next identity value. */
    method AddClick(c: ClickStat) returns (id: nat)
      requires Valid()
      modifies this`clickStats, this`nextClickId
      ensures Valid()
      ensures id == old(nextClickId) && nextClickId == id + 1
      ensures clickStats == old(clickStats) + [c.(id := id)]
    {
      id := nextClickId;
      clickStats := clickStats + [c.(id := id)];
      nextClickId := nextClickId + 1;
    }

    method SetClick(pos: nat, c: ClickStat)
      requires Valid()
      requires pos < |clickStats| && c.id == clickStats[pos].id
      modifies this`clickStats
      ensures Valid()
      ensures clickStats == old(clickStats)[pos := c]
    {
      clickStats := clickStats[pos := c];
    }

    /** `VCards.Add` + `SaveChanges`: the card gets the next identity value. */
    method AddVCard(v: VCard) returns (id: nat)
      requires Valid()
      modifies this`vCards, this`nextVCardId
      ensures Valid()
      ensures id == old(nextVCardId) && nextVCardId == id + 1
      ensures vCards == old(vCards) + [v.(id := id)]
    {
      id := nextVCardId;
      vCards := vCards + [v.(id := id)];
      nextVCardId := nextVCardId + 1;
    }

    method SetVCard(pos: nat, v: VCard)
      requires Valid()
      requires pos < |vCards| && v.id == vCards[pos].id
      modifies this`vCards
      ensures Valid()
      ensures vCards == old(vCards)[pos := v]
    {
      vCards := vCards[pos := v];
    }

    method AddAuditLog(log: AuditLog)
      modifies this`auditLogs
      ensures auditLogs == old(auditLogs) + [log]
    {
      auditLogs := auditLogs + [log];
    }

    method SetUser(pos: nat, u: IdentityUser)
      requires pos < |users|
      modifies this`users
      ensures users == old(users)[pos := u]
    {
      users := users[pos := u];
    }

    method SetSubscription(pos: nat, m: MemberSubscription)
      requires pos < |memberSubscriptions|
      modifies this`memberSubscriptions
      ensures memberSubscriptions == old(memberSubscriptions)[pos := m]
    {
      memberSubscriptions := memberSubscriptions[pos := m];
    }
  }

  /** Ticks after its last access at which a cache entry is dropped. */
  const SlidingExpiration: nat := 5 * TicksPerMinute

  datatype CacheEntry = CacheEntry(value: Option<UrlShort>, lastAccess: nat)

  /** The entry for `key` exists and its sliding window has not run out. */
  predicate IsLive(entries: map<string, CacheEntry>, key: string, now: nat)
  {
    key in entries && now < entries[key].lastAccess + SlidingExpiration
  }

  /** What `GetOrCreateAsync` hands back: the live snapshot, or what the factory loaded. */
  function CachedOrLoaded(entries: map<string, CacheEntry>, key: string, now: nat, loaded: Option<UrlShort>): Option<UrlShort>
  {
    if IsLive(entries, key, now) then entries[key].value else loaded
  }

  class MemoryCache {
    var entries: map<string, CacheEntry>

    constructor ()
      ensures entries == map[]
    {
      entries := map[];
    }

    /**
     * `GetOrCreateAsync(key, factory)`: a live entry is returned and its window
     * slides; otherwise the factory's result (`loaded`, null included) is stored.
     */
    method GetOrCreate(key: string, now: nat, loaded: Option<UrlShort>) returns (value: Option<UrlShort>, hit: bool)
      modifies this
      ensures hit == IsLive(old(entries), key, now)
      ensures value == CachedOrLoaded(old(entries), key, now, loaded)
      ensures !hit ==> value == loaded
      ensures entries == old(entries)[key := CacheEntry(value, now)]
    {
      if key in entries && now < entries[key].lastAccess + SlidingExpiration {
        value, hit := entries[key].value, true;
      } else {
        value, hit := loaded, false;
      }
      entries := entries[key := CacheEntry(value, now)];
    }

    /**
     * The cached object is the very instance a handler mutates: writing a
     * field on it changes the snapshot the cache holds.
     */
    method WriteBack(key: string, value: UrlShort)
      requires key in entries
      modifies this
      ensures entries == old(entries)[key := old(entries)[key].(value := Some(value))]
    {
      entries := entries[key := entries[key].(value := Some(value))];
    }

    /** `cache.Remove(key)` */
    method Remove(key: string)
      modifies this
      ensures entries == old(entries) - {key}
    {
      entries := entries - {key};
    }
  }
}
