/** The `auth` middleware of middleware/auth.js: it reads the `x-auth-token`
    header, verifies it, and either answers 401 or records the token's user
    on the request and passes the request on. Verification (signature,
    secret, expiry against the clock) is a parameter `verify` that gives the
    decoded payload, or `None` where `jwt.verify` throws. */
module Auth {
  import opened Js
  import opened Http

  /** The `user` object of a payload. */
  datatype UserClaim = UserClaim(id: UserId)

  /** A decoded payload; `user` is `None` when the payload has no such key. */
  datatype Payload = Payload(user: Option<UserClaim>)

  /** The payload the login and registration routes sign: `{ user: { id } }`. */
  function IssuedPayload(id: UserId): (p: Payload)
    ensures p.user.Some? && p.user.value.id == id
  {
    Payload(Some(UserClaim(id)))
  }

  /** What the middleware decides: answer with a failure, or pass the request
      on with `req.user` set to the given value. */
  datatype Verdict = Deny(failure: Failure) | Admit(user: Option<UserClaim>)

  /** The decision, as a function of the header value and the verifier. */
  function Check(token: Option<string>, verify: string -> Option<Payload>): (v: Verdict)
    ensures v == Deny(Unauthorized(NoToken)) <==> !Truthy(token)
    ensures v == Deny(Unauthorized(TokenNotValid)) <==> Truthy(token) && verify(token.value).None?
    ensures v.Admit? <==> Truthy(token) && verify(token.value).Some?
    ensures v.Admit? ==> v.user == verify(token.value).value.user
    ensures v.Deny? ==> Status(v.failure) == 401
  {
    if !Truthy(token) then Deny(Unauthorized(NoToken))
    else
      match verify(token.value)
      case None => Deny(Unauthorized(TokenNotValid))
      case Some(decoded) => Admit(decoded.user)
  }

  /** A token the verifier maps back to the payload issued for `id` lets the
      request through with `req.user.id == id`. */
  lemma IssuedTokenAdmitsIssuer(id: UserId, token: string, verify: string -> Option<Payload>)
    requires token != "" && verify(token) == Some(IssuedPayload(id))
    ensures Check(Some(token), verify) == Admit(Some(UserClaim(id)))
  {
  }

  /** A request on its way through the middleware: the header value, the
      `req.user` it carries, the failure answered (if any), and how many times
      `next()` was called. */
  class Exchange {
    const token: Option<string>
    var user: Option<UserClaim>
    var reply: Option<Failure>
    var nextCalls: nat

    constructor (token: Option<string>)
      ensures this.token == token && user.None? && reply.None? && nextCalls == 0
    {
      this.token := token;
      user, reply, nextCalls := None, None, 0;
    }
  }

  /** Runs the middleware on `x`: either a 401 answer is recorded and the
      request stops, or `req.user` is set and the request is passed on. */
  method Authenticate(x: Exchange, verify: string -> Option<Payload>) returns (v: Verdict)
    modifies x
    ensures v == Check(x.token, verify)
    ensures v.Deny? ==> x.reply == Some(v.failure) && x.nextCalls == old(x.nextCalls) && x.user == old(x.user)
    ensures v.Admit? ==> x.reply == old(x.reply) && x.nextCalls == old(x.nextCalls) + 1 && x.user == v.user
  {
    if !Truthy(x.token) {
      x.reply := Some(Unauthorized(NoToken));
      return Deny(Unauthorized(NoToken));
    }
    var decoded := verify(x.token.value);
    if decoded.None? {
      x.reply := Some(Unauthorized(TokenNotValid));
      return Deny(Unauthorized(TokenNotValid));
    }
    x.user := decoded.value.user;
    x.nextCalls := x.nextCalls + 1;
    v := Admit(x.user);
  }
}
