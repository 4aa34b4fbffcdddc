/**
 * The two quota tables (`UrlLimiter`): how many short URLs and vCards a
 * caller's roles entitle it to. Only Basic and Free appear in them; a caller
 * holding neither (Professional or Enterprise alone included) gets 0.
 */
module UrlLimiter {
  import opened Common
  import opened Entities

  /** `GetShortUrlLimitForUser`: Basic wins over Free; the result is never null. */
  function GetShortUrlLimitForUser(roles: set<string>): (limit: Option<int>)
    ensures limit.Some?
    ensures limit.value == 200 <==> RoleBasic in roles
    ensures limit.value == 10 <==> RoleFree in roles && RoleBasic !in roles
    ensures limit.value == 0 <==> RoleFree !in roles && RoleBasic !in roles
  {
    if RoleBasic in roles then Some(200)
    else if RoleFree in roles then Some(10)
    else Some(0)
  }

  /** `GetVCardLimitForUser`: Basic wins over Free; the result is never null. */
  function GetVCardLimitForUser(roles: set<string>): (limit: Option<int>)
    ensures limit.Some?
    ensures limit.value == 50 <==> RoleBasic in roles
    ensures limit.value == 1 <==> RoleFree in roles && RoleBasic !in roles
    ensures limit.value == 0 <==> RoleFree !in roles && RoleBasic !in roles
  {
    if RoleBasic in roles then Some(50)
    else if RoleFree in roles then Some(1)
    else Some(0)
  }

  /** Adding a role never lowers either quota. */
  lemma QuotasMonotone(roles: set<string>, extra: string)
    ensures GetShortUrlLimitForUser(roles).value <= GetShortUrlLimitForUser(roles + {extra}).value
    ensures GetVCardLimitForUser(roles).value <= GetVCardLimitForUser(roles + {extra}).value
  {
  }
}
