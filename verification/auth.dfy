/** The permission check of the authentication context (`hasPermission`). */
module Auth {

  import opened Wrappers
  import opened Types

  /** A permission grants `action` on `resource` when both of its literals match. */
  predicate Grants(p: Permission, resource: string, action: string) {
    ResourceName(p.resource) == resource && ActionName(p.action) == action
  }

  /** `ps.some(p => p.resource === resource && p.action === action)`. */
  function AnyGrants(ps: seq<Permission>, resource: string, action: string): (r: bool)
    ensures r <==> exists i :: 0 <= i < |ps| && Grants(ps[i], resource, action)
  {
    if |ps| == 0 then false
    else Grants(ps[0], resource, action) || AnyGrants(ps[1..], resource, action)
  }

  /** `hasPermission(resource, action)` for the signed-in user, if any. */
  function HasPermission(user: Option<User>, resource: string, action: string): (r: bool)
    ensures user.None? ==> !r
    ensures user.Some? ==> (r <==> exists p :: p in user.value.permissions && Grants(p, resource, action))
  {
    match user
    case None => false
    case Some(u) => AnyGrants(u.permissions, resource, action)
  }

  /** A permission for the right resource but another action grants nothing. */
  lemma ResourceAloneDoesNotGrant(u: User, resource: string, action: string)
    requires forall p :: p in u.permissions && ResourceName(p.resource) == resource ==> ActionName(p.action) != action
    ensures !HasPermission(Some(u), resource, action)
  {
  }

  /** Granting a user more permissions never revokes an access they had. */
  lemma HasPermissionMonotone(u: User, v: User, resource: string, action: string)
    requires forall p :: p in u.permissions ==> p in v.permissions
    ensures HasPermission(Some(u), resource, action) ==> HasPermission(Some(v), resource, action)
  {
  }

  /** The order of a user's permissions does not matter. */
  lemma HasPermissionOrderIrrelevant(u: User, v: User, resource: string, action: string)
    requires multiset(u.permissions) == multiset(v.permissions)
    ensures HasPermission(Some(u), resource, action) == HasPermission(Some(v), resource, action)
  {
    forall p | p in u.permissions ensures p in v.permissions {
      assert p in multiset(u.permissions);
    }
    forall p | p in v.permissions ensures p in u.permissions {
      assert p in multiset(v.permissions);
    }
    HasPermissionMonotone(u, v, resource, action);
    HasPermissionMonotone(v, u, resource, action);
  }
}
