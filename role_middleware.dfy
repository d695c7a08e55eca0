/** The `role` middleware: lets a request through only when the authenticated
    user's role is in the route's allow-list. It reads the request and never
    writes it. */
module RoleMiddleware {
  import opened Common
  import opened Accounts

  const Unauthorized := "UNAUTHORIZED"
  const Forbidden := "FORBIDDEN"

  datatype RoleDecision = Proceed | Reject(status: int, code: string, message: string)

  /** `Role.handle`: no user is 401 UNAUTHORIZED, a role outside `roles` is 403
      FORBIDDEN, anything else calls `next`. */
  function Decide(user: Option<User>, roles: seq<string>): (r: RoleDecision)
  {
    if user.None? then Reject(401, Unauthorized, "Usuário não autenticado")
    else if user.value.role !in roles then Reject(403, Forbidden, "Acesso negado. Papel não autorizado")
    else Proceed
  }

  /** `next` runs exactly when a user is present and its role is allowed. */
  lemma ProceedIff(user: Option<User>, roles: seq<string>)
    ensures Decide(user, roles) == Proceed <==> user.Some? && user.value.role in roles
  {
  }

  /** A missing user is refused as unauthenticated whatever the allow-list, so
      UNAUTHORIZED takes precedence over FORBIDDEN; FORBIDDEN means a present
      user with a role not allowed. */
  lemma UnauthorizedFirst(user: Option<User>, roles: seq<string>)
    ensures user.None? ==> Decide(user, roles).Reject? && Decide(user, roles).code == Unauthorized
    ensures Decide(user, roles).Reject? && Decide(user, roles).code == Forbidden <==>
      user.Some? && user.value.role !in roles
    ensures Decide(user, roles).Reject? ==> Decide(user, roles).status in {401, 403}
  {
  }
}
