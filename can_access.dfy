/** src/middlewares/canAccess.ts: the role gate placed in front of a route. */
module CanAccess {
  import opened Common
  import opened Entities

  const NO_PERMISSION: string := "You don't have permission!"

  /** What the middleware does with the request: `next()` or `next(err)`. */
  datatype Verdict = Continue | Deny(error: Error)

  /** `canAccess(roles)` applied to a request whose token carries `role`:
      continue exactly when that role is listed for the route; otherwise
      deny with 403. */
  function CanAccess(roles: seq<string>, role: string): (v: Verdict)
    ensures v == Continue <==> exists i :: 0 <= i < |roles| && roles[i] == role
    ensures v != Continue ==> v == Deny(HttpError(403, NO_PERMISSION))
  {
    if role in roles then Continue else Deny(HttpError(403, NO_PERMISSION))
  }

  /** No hierarchy: an admin is refused on a route that lists only manager. */
  lemma AdminIsNotManager()
    ensures CanAccess([MANAGER], ADMIN) == Deny(HttpError(403, NO_PERMISSION))
  {
  }

  /** A route that lists no role admits nobody. */
  lemma EmptyListDeniesEveryone(role: string)
    ensures CanAccess([], role).Deny?
  {
  }

  /** The verdict depends on the set of listed roles only, not on their
      order or repetition. */
  lemma OnlyMembershipMatters(roles: seq<string>, roles': seq<string>, role: string)
    requires (set r | r in roles) == (set r | r in roles')
    ensures CanAccess(roles, role) == CanAccess(roles', role)
  {
    var listed, listed' := set r | r in roles, set r | r in roles';
    assert role in roles <==> role in listed;
    assert role in roles' <==> role in listed';
  }
}
