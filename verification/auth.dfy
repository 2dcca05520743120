/** The token gate in front of every `/api/v1` route, and the route-level
    brand capability check `requireBrands`. The signature check of the JWT
    library is an oracle `verify(token, secret)` that yields the decoded
    identity or nothing. */
module Auth {

  import opened Wrappers
  import opened Schema

  /** The identity carried by a session token. */
  datatype UserPayload = UserPayload(id: Id, role: Role, brandIds: seq<BrandId>, exp: int)

  /** Requests whose path starts with this are let through without a token. */
  const IngestPrefix: string := "/api/v1/ingest"

  /** The cookie that carries the session token. */
  const SessionCookie: string := "novus_auth"

  const NoTokenError: string := "Unauthorized: No token provided"
  const InvalidTokenError: string := "Unauthorized: Invalid token"

  /** The gate's decision: go on to the route (with the decoded identity, or
      with none on the ingest bypass), or answer 401. */
  datatype GateResult = Proceed(user: Option<UserPayload>) | Unauthorized(error: string) {
    function Status(): int {
      if Proceed? then 200 else 401
    }
  }

  /** A string present and non-empty: JavaScript truthiness of an optional
      string. */
  predicate Filled(s: Option<string>) {
    s.Some? && s.value != ""
  }

  /** `authMiddleware`: `token` is the `novus_auth` cookie and `secret` the
      configured `JWT_SECRET`. */
  function AuthGate(path: string, token: Option<string>, secret: Option<string>,
                    verify: (string, string) -> Option<UserPayload>): (r: GateResult)
    ensures IngestPrefix <= path ==> r == Proceed(None)
    ensures !(IngestPrefix <= path) && !Filled(token) ==> r == Unauthorized(NoTokenError)
    ensures !(IngestPrefix <= path) && Filled(token) && !Filled(secret) ==> r == Unauthorized(InvalidTokenError)
    ensures !(IngestPrefix <= path) ==>
      (r.Proceed? <==> Filled(token) && Filled(secret) && verify(token.value, secret.value).Some?)
    ensures !(IngestPrefix <= path) && r.Proceed? ==>
      r.user == verify(token.value, secret.value) && r.user.Some?
  {
    if IngestPrefix <= path then Proceed(None)
    else if !Filled(token) then Unauthorized(NoTokenError)
    else if !Filled(secret) then Unauthorized(InvalidTokenError)
    else match verify(token.value, secret.value)
      case None => Unauthorized(InvalidTokenError)
      case Some(u) => Proceed(Some(u))
  }

  /** The gate fails closed: outside the ingest prefix, nothing reaches a
      route without an identity the oracle vouched for, and without a token
      nothing reaches a route at all, whatever the oracle would say. */
  lemma GateFailsClosed(path: string, token: Option<string>, secret: Option<string>,
                        verify: (string, string) -> Option<UserPayload>)
    requires !(IngestPrefix <= path)
    ensures AuthGate(path, token, secret, verify).Proceed? ==>
      exists u :: verify(token.value, secret.value) == Some(u) && AuthGate(path, token, secret, verify).user == Some(u)
    ensures !Filled(token) ==> AuthGate(path, token, secret, verify).Status() == 401
  {
    var r := AuthGate(path, token, secret, verify);
    if r.Proceed? {
      var u := r.user.value;
      assert verify(token.value, secret.value) == Some(u);
    }
  }

  /** The bypass is a plain prefix test: any path that merely begins with the
      ingest prefix skips token verification too. */
  lemma IngestBypassIsPrefixOnly(verify: (string, string) -> Option<UserPayload>)
    ensures AuthGate("/api/v1/ingest/events", None, None, verify) == Proceed(None)
    ensures AuthGate("/api/v1/ingestion-report", None, None, verify) == Proceed(None)
    ensures AuthGate("/api/v1/leads", None, None, verify) == Unauthorized(NoTokenError)
  {
    assert IngestPrefix <= "/api/v1/ingest/events";
    assert IngestPrefix <= "/api/v1/ingestion-report";
    assert "/api/v1/leads"[11] != IngestPrefix[11];
  }

  // ---------------------------------------------------------------- requireBrands

  const ForbiddenError: string := "Forbidden: You do not have access to this brand scope"

  datatype BrandCheck =
    | Allowed
    | NoUser
    | Forbidden(error: string, required: seq<BrandId>, yours: seq<BrandId>)
  {
    function Status(): int {
      match this
      case Allowed => 200
      case NoUser => 401
      case Forbidden(_, _, _) => 403
    }
  }

  /** `held.some(b => required.includes(b))`. */
  function AnyHeld(held: seq<BrandId>, required: seq<BrandId>): (r: bool)
    ensures r <==> exists b :: b in held && b in required
  {
    if |held| == 0 then false
    else if held[0] in required then true
    else
      assert forall b :: b in held[1..] ==> b in held;
      assert forall b :: b in held && b != held[0] ==> b in held[1..];
      AnyHeld(held[1..], required)
  }

  /** `requireBrands(required)` applied to the identity the gate attached. */
  function RequireBrands(required: seq<BrandId>, user: Option<UserPayload>): (r: BrandCheck)
    ensures r == NoUser <==> user.None?
    ensures user.Some? && user.value.role == Admin ==> r == Allowed
    ensures user.Some? && user.value.role != Admin ==>
      (r == Allowed <==> exists b :: b in user.value.brandIds && b in required)
    ensures r.Forbidden? ==>
      r.error == ForbiddenError && r.required == required && r.yours == user.value.brandIds
  {
    if user.None? then NoUser
    else if user.value.role == Admin then Allowed
    else if AnyHeld(user.value.brandIds, required) then Allowed
    else Forbidden(ForbiddenError, required, user.value.brandIds)
  }

  /** An empty requirement lets no one but an Admin through, and an Admin is
      let through whatever brands the Admin holds, even none. */
  lemma EmptyRequirementOnlyAdmins(user: UserPayload)
    ensures RequireBrands([], Some(user)) == Allowed <==> user.role == Admin
    ensures user.role == Admin ==> RequireBrands([], Some(user.(brandIds := []))) == Allowed
  {
  }
}
