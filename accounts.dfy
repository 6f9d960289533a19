/** Role validation of `create_user` (be/main.py): only an admin may create
    users, and the new user's city and ward ids are made to fit its role
    before it is stored. Hashing the password and the INSERT are not part of
    this model. */
module Accounts {
  import opened Wrappers

  /** A Python int field is truthy when present and not 0. */
  predicate IdGiven(id: Option<int>)
  {
    id.Some? && id.value != 0
  }

  /** The `UserCreate` request body, whose id fields `create_user` overwrites. */
  class UserCreate {
    var username: string
    var password: string
    var role: string
    var wardId: Option<int>
    var cityId: Option<int>

    constructor (username: string, password: string, role: string, wardId: Option<int>, cityId: Option<int>)
      ensures this.username == username && this.password == password && this.role == role
      ensures this.wardId == wardId && this.cityId == cityId
    {
      this.username := username;
      this.password := password;
      this.role := role;
      this.wardId := wardId;
      this.cityId := cityId;
    }
  }

  /** The outcome of the checks: the ids to store, or the HTTP status raised. */
  datatype Decision = Store(cityId: Option<int>, wardId: Option<int>) | Reject(status: int)

  /** What the checks decide for a caller of role `callerRole` asking for a
      user of role `role` with the given ids: anyone but an admin is refused
      with 403, and whatever is stored fits its role. */
  function Decide(callerRole: string, role: string, cityId: Option<int>, wardId: Option<int>): (d: Decision)
    ensures callerRole != "admin" ==> d == Reject(403)
    ensures d.Store? ==> callerRole == "admin" && FitsRole(role, d.cityId, d.wardId)
    ensures d.Reject? ==> d.status in {400, 403}
  {
    if callerRole != "admin" then Reject(403)
    else if role == "admin" then Store(None, None)
    else if role == "city" then (if IdGiven(cityId) then Store(cityId, None) else Reject(400))
    else if role == "ward" then (if IdGiven(cityId) && IdGiven(wardId) then Store(cityId, wardId) else Reject(400))
    else Reject(400)
  }

  /** The users that may be stored: an admin has no ids, a city user a city
      and no ward, a ward user both. */
  predicate FitsRole(role: string, cityId: Option<int>, wardId: Option<int>)
  {
    || (role == "admin" && cityId.None? && wardId.None?)
    || (role == "city" && IdGiven(cityId) && wardId.None?)
    || (role == "ward" && IdGiven(cityId) && IdGiven(wardId))
  }

  /** The validation step of `create_user`: rejects with 403 or 400, or
      rewrites the request's ids in place to the ones to store; a rejected
      request is left as it was. */
  method ValidateNewUser(callerRole: string, userData: UserCreate) returns (d: Decision)
    modifies userData
    ensures d == Decide(callerRole, old(userData.role), old(userData.cityId), old(userData.wardId))
    ensures userData.username == old(userData.username) && userData.password == old(userData.password)
    ensures userData.role == old(userData.role)
    ensures d.Store? ==> userData.cityId == d.cityId && userData.wardId == d.wardId
    ensures d.Reject? ==> userData.cityId == old(userData.cityId) && userData.wardId == old(userData.wardId)
  {
    if callerRole != "admin" {
      return Reject(403);
    }
    if userData.role == "admin" {
      userData.cityId := None;
      userData.wardId := None;
    } else if userData.role == "city" {
      if !IdGiven(userData.cityId) {
        return Reject(400);
      }
      userData.wardId := None;
    } else if userData.role == "ward" {
      if !IdGiven(userData.cityId) || !IdGiven(userData.wardId) {
        return Reject(400);
      }
    } else {
      return Reject(400);
    }
    d := Store(userData.cityId, userData.wardId);
  }

  /** For an admin caller a request is stored exactly when it can be made to
      fit: its role is one of the three and the ids that role needs are given
      (0 counting as missing); the ids a role needs are kept as given. */
  lemma AdminRequestStored(callerRole: string, role: string, cityId: Option<int>, wardId: Option<int>)
    ensures var d := Decide(callerRole, role, cityId, wardId);
      && (callerRole == "admin" ==>
            (d.Store? <==> (role == "admin" || (role == "city" && IdGiven(cityId)) || (role == "ward" && IdGiven(cityId) && IdGiven(wardId)))))
      && (d.Store? && role != "admin" ==> d.cityId == cityId)
      && (d.Store? && role == "ward" ==> d.wardId == wardId)
      && (d.Reject? ==> d.status == (if callerRole != "admin" then 403 else 400))
  {
  }

  /** A request that already fits its role is stored unchanged: the checks
      are idempotent. */
  lemma FittingRequestKept(role: string, cityId: Option<int>, wardId: Option<int>)
    requires FitsRole(role, cityId, wardId)
    ensures Decide("admin", role, cityId, wardId) == Store(cityId, wardId)
  {
  }
}
