/**
 * The `auth(...requiredRoles)` middleware (src/app/middlewares/auth.ts): a
 * token must be present and verify, and when roles are required the verified
 * role must be one of them. It sets `req.user` and calls `next` once. The
 * token library is a parameter: it yields the payload or throws.
 */
module Auth {
  import opened Wrappers
  import opened Errors

  /** The claims of a verified token that the services read. */
  datatype Payload = Payload(userId: Option<string>, role: Option<string>)

  /** How `next` was called: with no argument, or with the error. */
  datatype NextArg = Proceed | Fail(error: Thrown)

  /** The ApiErrors the gate throws; their stack traces are not modelled. */
  const Unauthorized := Thrown(Api(401), "You are not authorized", None)
  const Forbidden := Thrown(Api(403), "Forbidden user", None)

  /** `!token`: no Authorization header, or an empty one. */
  predicate MissingToken(authorization: Option<string>) {
    authorization.None? || authorization.value == ""
  }

  /** `requiredRoles.length && !requiredRoles.includes(role)`. */
  predicate RoleRefused(requiredRoles: seq<string>, role: Option<string>) {
    |requiredRoles| > 0 && (role.None? || role.value !in requiredRoles)
  }

  /** The outcome for one request: the `req.user` it sets, if any, and the argument `next` gets. */
  datatype Decision = Decision(user: Option<Payload>, next: NextArg)

  /** The gate's decision, branch by branch. */
  function Gate(authorization: Option<string>, requiredRoles: seq<string>, verify: string -> Result<Payload, Thrown>)
    : (d: Decision)
    ensures d.next.Proceed? <==>
      !MissingToken(authorization) && verify(authorization.value).Success? &&
      !RoleRefused(requiredRoles, verify(authorization.value).value.role)
    ensures d.user.Some? <==> !MissingToken(authorization) && verify(authorization.value).Success?
    ensures d.user.Some? ==> d.user.value == verify(authorization.value).value
    ensures d.next.Fail? && d.user.None? && MissingToken(authorization) ==> d.next.error == Unauthorized
    ensures d.next.Fail? && d.user.None? && !MissingToken(authorization) ==> d.next.error == verify(authorization.value).error
    ensures d.next.Fail? && d.user.Some? ==> d.next.error == Forbidden
  {
    if MissingToken(authorization) then Decision(None, Fail(Unauthorized))
    else
      var verified := verify(authorization.value);
      if verified.Failure? then Decision(None, Fail(verified.error))
      else if RoleRefused(requiredRoles, verified.value.role) then Decision(Some(verified.value), Fail(Forbidden))
      else Decision(Some(verified.value), Proceed)
  }

  /** One request passing through the middleware: its Authorization header, `req.user`, and the calls made to `next`. */
  class Exchange {
    const authorization: Option<string>
    var user: Option<Payload>
    var nextCalls: seq<NextArg>

    constructor(authorization: Option<string>)
      ensures this.authorization == authorization && user == None && nextCalls == []
    {
      this.authorization := authorization;
      user := None;
      nextCalls := [];
    }

    /** The middleware body: `req.user` is written before the role check, and `next` is called exactly once. */
    method Authenticate(requiredRoles: seq<string>, verify: string -> Result<Payload, Thrown>)
      modifies this
      ensures |nextCalls| == |old(nextCalls)| + 1 && nextCalls[..|old(nextCalls)|] == old(nextCalls)
      ensures nextCalls[|nextCalls| - 1] == Gate(authorization, requiredRoles, verify).next
      ensures user == if Gate(authorization, requiredRoles, verify).user.Some? then Gate(authorization, requiredRoles, verify).user else old(user)
    {
      var token := authorization;
      if MissingToken(token) {
        nextCalls := nextCalls + [Fail(Unauthorized)];
        return;
      }
      var verified := verify(token.value);
      if verified.Failure? {
        nextCalls := nextCalls + [Fail(verified.error)];
        return;
      }
      user := Some(verified.value);
      if RoleRefused(requiredRoles, verified.value.role) {
        nextCalls := nextCalls + [Fail(Forbidden)];
        return;
      }
      nextCalls := nextCalls + [Proceed];
    }
  }

  // ---- Lemmas ----

  /** A missing or empty token is refused with 401 before any verification: the outcome does not depend on the token library. */
  lemma MissingTokenNotVerified(authorization: Option<string>, requiredRoles: seq<string>, v1: string -> Result<Payload, Thrown>, v2: string -> Result<Payload, Thrown>)
    requires MissingToken(authorization)
    ensures Gate(authorization, requiredRoles, v1) == Gate(authorization, requiredRoles, v2) == Decision(None, Fail(Unauthorized))
  {
  }

  /** With no required roles, every verified token passes. */
  lemma NoRolesAdmitAll(token: string, verify: string -> Result<Payload, Thrown>)
    requires token != "" && verify(token).Success?
    ensures Gate(Some(token), [], verify) == Decision(Some(verify(token).value), Proceed)
  {
  }

  /** A refused role still leaves `req.user` set to the verified payload. */
  lemma ForbiddenKeepsUser(token: string, requiredRoles: seq<string>, verify: string -> Result<Payload, Thrown>)
    requires token != "" && verify(token).Success?
    requires requiredRoles != [] && verify(token).value.role !in Optionals(requiredRoles)
    ensures Gate(Some(token), requiredRoles, verify) == Decision(Some(verify(token).value), Fail(Forbidden))
  {
  }

  /** The roles as possibly undefined values, for stating that a role is not among them. */
  function Optionals(roles: seq<string>): (r: set<Option<string>>)
    ensures forall o :: o in r <==> o.Some? && o.value in roles
  {
    set x | x in roles :: Some(x)
  }

  /**
   * What the client receives through the error handler: 401 and 403 with their
   * one-entry message lists, and a token the library rejects with a plain
   * Error as 500 with that error's message.
   */
  lemma GateResponses(h: Handlers, env: string, e: Thrown)
    requires e.kind.PlainError?
    ensures var r := GlobalErrorHandler(Unauthorized, h, env);
      r.statusCode == 401 && r.message == "You are not authorized" && r.errorMessages == [ErrorMessage("", "You are not authorized")]
    ensures var r := GlobalErrorHandler(Forbidden, h, env);
      r.statusCode == 403 && r.message == "Forbidden user" && r.errorMessages == [ErrorMessage("", "Forbidden user")]
    ensures var r := GlobalErrorHandler(e, h, env);
      r.statusCode == 500 && r.message == e.message && !r.success
  {
  }
}
