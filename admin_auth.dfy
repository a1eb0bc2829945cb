/**
 * The admin session guards: the role predicates, the CSRF token check and
 * the login guard. The session is the part of `$_SESSION` they read: the
 * logged-in user's record and the token stored at login.
 */
module AdminAuth {
  import opened Outcomes

  /** `$_SESSION['admin_user']`; `role` is None when the record has no role entry. */
  datatype AdminUser = AdminUser(role: Option<string>)

  /** `csrfToken` is None when `$_SESSION['csrf_token']` is not set. */
  datatype Session = Session(adminUser: Option<AdminUser>, csrfToken: Option<string>)

  const AdminRole := "admin"
  const SuperAdminRole := "super_admin"
  const TokenMismatch := "Unauthorized action. Security token mismatch."
  const Forbidden := 403
  const LoginPage := "login.php"

  /** The logged-in user's role is exactly `role` (a strict `===` comparison). */
  predicate RoleIs(s: Session, role: string) {
    s.adminUser.Some? && s.adminUser.value.role == Some(role)
  }

  /** `isAdmin`. */
  predicate IsAdmin(s: Session) {
    s.adminUser.Some? && (s.adminUser.value.role == Some(AdminRole) || s.adminUser.value.role == Some(SuperAdminRole))
  }

  /** `isSuperAdmin`. */
  predicate IsSuperAdmin(s: Session) {
    s.adminUser.Some? && s.adminUser.value.role == Some(SuperAdminRole)
  }

  /**
   * Every super administrator is an administrator; the administrators are
   * exactly the users whose role is "admin" or "super_admin", so a
   * "moderator" (or a user with no role) is neither; without a logged-in
   * user both predicates are false.
   */
  lemma RoleHierarchy(s: Session)
    ensures IsSuperAdmin(s) ==> IsAdmin(s)
    ensures IsAdmin(s) <==> RoleIs(s, AdminRole) || RoleIs(s, SuperAdminRole)
    ensures IsSuperAdmin(s) <==> RoleIs(s, SuperAdminRole)
    ensures RoleIs(s, "moderator") ==> !IsAdmin(s) && !IsSuperAdmin(s)
    ensures s.adminUser.Some? && s.adminUser.value.role.None? ==> !IsAdmin(s)
    ensures s.adminUser.None? ==> !IsAdmin(s) && !IsSuperAdmin(s)
  {
  }

  /** What a guard does with the request: let it through, end it with a status and a body, or redirect. */
  datatype Guard = Continue | Halt(status: int, body: string) | Redirect(location: string)

  /**
   * `verifyCSRFToken($token)`: `token` is None when the argument is not a
   * string (a missing form field). The request goes on only when the
   * session holds a token and the argument is strictly that token;
   * otherwise it ends with 403 and the mismatch message.
   */
  function VerifyCsrfToken(s: Session, token: Option<string>): (g: Guard)
    ensures g.Continue? <==> s.csrfToken.Some? && token == s.csrfToken
    ensures !g.Continue? ==> g == Halt(Forbidden, TokenMismatch)
  {
    if s.csrfToken.None? || token != s.csrfToken then Halt(Forbidden, TokenMismatch) else Continue
  }

  /** `requireLogin`: without a logged-in user the request is redirected to the login page. */
  function RequireLogin(s: Session): (g: Guard)
    ensures g.Continue? <==> s.adminUser.Some?
    ensures !g.Continue? ==> g == Redirect(LoginPage)
  {
    if s.adminUser.None? then Redirect(LoginPage) else Continue
  }

  /**
   * A session without a stored token rejects every argument, the empty
   * string included; a session's own token is always accepted.
   */
  lemma TokenCheckCases(s: Session, token: Option<string>)
    ensures s.csrfToken.None? ==> VerifyCsrfToken(s, token) == Halt(Forbidden, TokenMismatch)
    ensures s.csrfToken.Some? ==> VerifyCsrfToken(s, s.csrfToken) == Continue
    ensures s.csrfToken.Some? && token.Some? && token.value != s.csrfToken.value ==> VerifyCsrfToken(s, token).Halt?
  {
  }
}
