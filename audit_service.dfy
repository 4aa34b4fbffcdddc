/**
 * `AuditService.LogAsync`: appends one audit record per call, linked to a
 * user row when the given name matches one, kept as a plain string when it
 * does not, and anonymous when no name is given. The interface the pages
 * call also passes an entity id, which this implementation does not take;
 * the model drops it the same way.
 */
module AuditService {
  import opened Common
  import opened Entities
  import opened Store

  /** `Users.FirstOrDefault(x => x.UserName == userId)`: compared with the user NAME, not the id. */
  function UserByName(users: seq<IdentityUser>, name: string): (pos: Option<nat>)
    ensures pos.Some? ==> pos.value < |users| && users[pos.value].userName == name
    ensures pos.None? <==> forall i | 0 <= i < |users| :: users[i].userName != name
  {
    FirstWhere(users, (u: IdentityUser) => u.userName == name)
  }

  /** The record a valid call appends. */
  function AuditEntry(users: seq<IdentityUser>, userId: Option<string>, action: string, entityType: string,
                      details: string, now: nat): (log: AuditLog)
    ensures log.action == action && log.entityType == entityType && log.details == details && log.timestamp == now
    // anonymous
    ensures IsNullOrEmpty(userId) ==> log.userId.None? && log.userIdString.None?
    // an unknown name is kept as text
    ensures !IsNullOrEmpty(userId) && UserByName(users, userId.value).None? ==>
      log.userId.None? && log.userIdString == userId
    // a known name is linked to that user's id
    ensures !IsNullOrEmpty(userId) && UserByName(users, userId.value).Some? ==>
      log.userId == Some(users[UserByName(users, userId.value).value].id) && log.userIdString.None?
    // at most one user field is set, one is set exactly when a name was given, and a link names a real user
    ensures !(log.userId.Some? && log.userIdString.Some?)
    ensures log.userId.Some? || log.userIdString.Some? <==> !IsNullOrEmpty(userId)
    ensures log.userId.Some? ==> UserExists(users, log.userId.value)
  {
    if IsNullOrEmpty(userId) then AuditLog(None, None, action, entityType, details, now)
    else match UserByName(users, userId.value)
      case None => AuditLog(None, userId, action, entityType, details, now)
      case Some(i) => AuditLog(Some(users[i].id), None, action, entityType, details, now)
  }

  /** `LogAsync`; `false` is the ArgumentException for an empty action or entity type. */
  method Log(db: Db, userId: Option<string>, action: string, entityType: string, details: string, now: nat)
    returns (ok: bool)
    modifies db`auditLogs
    ensures ok <==> action != "" && entityType != ""
    ensures !ok ==> db.auditLogs == old(db.auditLogs)
    ensures ok ==> db.auditLogs == old(db.auditLogs) + [AuditEntry(db.users, userId, action, entityType, details, now)]
  {
    if action == "" || entityType == "" {
      return false;
    }
    if IsNullOrEmpty(userId) {
      db.AddAuditLog(AuditLog(None, None, action, entityType, details, now));
      return true;
    }
    var userForeign := UserByName(db.users, userId.value);
    if userForeign.None? {
      db.AddAuditLog(AuditLog(None, userId, action, entityType, details, now));
      return true;
    }
    db.AddAuditLog(AuditLog(Some(db.users[userForeign.value].id), None, action, entityType, details, now));
    return true;
  }
}
