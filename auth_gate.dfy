/** The `auth` middleware in front of every note route and of logout: it
    takes the token from the `Authorization` header, verifies it, loads the
    user it names and attaches user and token to the request; otherwise it
    answers one of three 401s and the route handler never runs. */
module AuthGate {
  import opened Common
  import opened Crypto
  import opened UserModel
  import opened Database

  const AuthenticationRequired: string := "Authentication required"
  const InvalidToken: string := "Invalid token"
  const PleaseAuthenticate: string := "Please authenticate"

  /** `req.header('Authorization')?.replace('Bearer ', '')`: the first
      `"Bearer "` anywhere in the header is deleted; no header, no token. */
  function ExtractToken(header: Option<string>): (token: Option<string>)
    ensures token.Some? <==> header.Some?
    ensures header.Some? && IndexOf(header.value, "Bearer ").None? ==> token == header
  {
    match header
    case None => None
    case Some(h) => Some(ReplaceFirst(h, "Bearer ", ""))
  }

  /** `"Bearer " + t` yields `t`. */
  lemma {:induction false} ExtractBearer(t: string)
    ensures ExtractToken(Some("Bearer " + t)) == Some(t)
  {
    ReplaceFirstOfPrefix("Bearer ", t);
  }

  datatype GateOutcome = Authenticated(user: User, token: string) | Rejected(message: string)

  /** The decision of the gate. `jwt.verify` throwing (expired, bad
      signature, malformed) and a failing user lookup (store call 0) both
      land in the catch-all 401. A payload without `userId` looks up
      `undefined`, which finds nobody without querying the store. */
  function Gate(header: Option<string>, jwt: Jwt, db: Db, now: int, faults: Faults): (o: GateOutcome)
    reads db
    ensures o == Rejected(AuthenticationRequired) <==> !Truthy(ExtractToken(header))
    ensures o.Authenticated? <==>
      && Truthy(ExtractToken(header))
      && var v := jwt.verify(ExtractToken(header).value, now);
      && v.Verified? && v.userId.Some? && !faults.Hits(0) && v.userId.value in db.users
    ensures o.Authenticated? ==>
      && o.token == ExtractToken(header).value
      && o.user == db.users[jwt.verify(o.token, now).userId.value]
    ensures o == Rejected(InvalidToken) <==>
      && Truthy(ExtractToken(header))
      && var v := jwt.verify(ExtractToken(header).value, now);
      && v.Verified? && (v.userId.None? || (!faults.Hits(0) && v.userId.value !in db.users))
    ensures o.Rejected? ==> o.message in {AuthenticationRequired, InvalidToken, PleaseAuthenticate}
  {
    var token := ExtractToken(header);
    if !Truthy(token) then Rejected(AuthenticationRequired)
    else match jwt.verify(token.value, now)
      case Expired => Rejected(PleaseAuthenticate)
      case Malformed => Rejected(PleaseAuthenticate)
      case Verified(None) => Rejected(InvalidToken)
      case Verified(Some(id)) =>
        if faults.Hits(0) then Rejected(PleaseAuthenticate)
        else match db.FindUserByPk(id)
          case Some(u) => Authenticated(u, token.value)
          case None => Rejected(InvalidToken)
  }

  /** A token issued for an existing user, sent as `Bearer <token>` within
      its 24 hours, lets the request through with that user attached. */
  lemma IssuedTokenAuthenticates(jwt: Jwt, db: Db, u: nat, iat: int, now: int)
    requires SoundJwt(jwt) && u in db.users && now < iat + TokenLifetime
    ensures Gate(Some("Bearer " + jwt.sign(u, iat)), jwt, db, now, NoFault)
            == Authenticated(db.users[u], jwt.sign(u, iat))
  {
    ExtractBearer(jwt.sign(u, iat));
  }

  /** From its 24th hour on, the same token is turned away. */
  lemma ExpiredTokenRejected(jwt: Jwt, db: Db, u: nat, iat: int, now: int, faults: Faults)
    requires SoundJwt(jwt) && now >= iat + TokenLifetime
    ensures Gate(Some("Bearer " + jwt.sign(u, iat)), jwt, db, now, faults) == Rejected(PleaseAuthenticate)
  {
    ExtractBearer(jwt.sign(u, iat));
  }

  /** The request object as far as the gate touches it. */
  class Request {
    const authorization: Option<string>
    var user: Option<User>
    var token: Option<string>
    var status: Option<nat>
    var message: Option<string>
    var nextCalls: nat

    constructor(authorization: Option<string>)
      ensures this.authorization == authorization
      ensures user == None && token == None && status == None && message == None && nextCalls == 0
    {
      this.authorization := authorization;
      user, token, status, message, nextCalls := None, None, None, None, 0;
    }
  }

  /** `auth(req, res, next)`: on success `req.user` and `req.token` are set
      and `next` runs once with no response written; otherwise a 401 with
      the gate's message is written and `next` does not run. Only the request
      changes: the store is read, never written. */
  method Auth(req: Request, jwt: Jwt, db: Db, now: int, faults: Faults)
    modifies req
    ensures var o := Gate(req.authorization, jwt, db, now, faults);
      match o
      case Authenticated(u, t) =>
        && req.user == Some(u) && req.token == Some(t)
        && req.nextCalls == old(req.nextCalls) + 1
        && req.status == old(req.status) && req.message == old(req.message)
      case Rejected(m) =>
        && req.status == Some(401) && req.message == Some(m)
        && req.nextCalls == old(req.nextCalls)
        && req.user == old(req.user) && req.token == old(req.token)
  {
    var o := Gate(req.authorization, jwt, db, now, faults);
    match o {
      case Authenticated(u, t) =>
        req.user := Some(u);
        req.token := Some(t);
        req.nextCalls := req.nextCalls + 1;
      case Rejected(m) =>
        req.status := Some(401);
        req.message := Some(m);
    }
  }
}
