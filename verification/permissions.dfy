/** Role-based permission classes of the API (accounts/permissions.py). */
module Permissions {
  import opened Roles
  import opened Records

  /** Who is making a request: an anonymous visitor or an authenticated user. */
  datatype Principal = Anonymous | Member(user: User)

  /** `IsAdmin`, `IsDoctor`, `IsNurse`, `IsReceptionist`, `IsPatient`, `IsPharmacist`, `IsLab`:
      the permission for role `r` is granted when the request has a user,
      that user is authenticated, and its role is exactly `r`. */
  predicate RolePermission(r: Role, p: Principal) {
    p.Member? && p.user.role == r
  }

  /** Anonymous requests are refused by every role permission, and an
      authenticated user passes exactly the permission of its own role. */
  lemma RolePermissionDecision(p: Principal)
    ensures p.Anonymous? ==> forall r: Role :: !RolePermission(r, p)
    ensures p.Member? ==> RolePermission(p.user.role, p)
    ensures forall r1: Role, r2: Role :: RolePermission(r1, p) && RolePermission(r2, p) ==> r1 == r2
  {
  }

  /** The HTTP methods that do not change anything. */
  const SafeMethods: seq<string> := ["GET", "HEAD", "OPTIONS"]

  /** `ReadOnly`: granted exactly for the safe methods, whoever asks. */
  predicate ReadOnly(verb: string) {
    verb in SafeMethods
  }

  lemma ReadOnlyDecision()
    ensures forall verb :: ReadOnly(verb) <==> verb == "GET" || verb == "HEAD" || verb == "OPTIONS"
    ensures ReadOnly("GET") && ReadOnly("HEAD") && ReadOnly("OPTIONS")
    ensures !ReadOnly("POST") && !ReadOnly("PUT") && !ReadOnly("PATCH") && !ReadOnly("DELETE")
    ensures !ReadOnly("get")
  {
  }

  /** User management (`IsAuthenticated` and `IsAdmin`). The contract records
      that `IsAuthenticated` adds nothing: `IsAdmin` already refuses anonymous users. */
  function CanManageUsers(p: Principal): (granted: bool)
    ensures granted <==> RolePermission(Admin, p)
  {
    p.Member? && RolePermission(Admin, p)
  }
}
