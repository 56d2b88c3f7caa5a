/** The handlers mounted under `/api/auth`: `signup`, `login` and `logout`.
    Signup checks the e-mail against the table before creating the user;
    login answers the same 401 whether the address is unknown or the
    password wrong; both hand out a 24-hour token for the user's id and the
    public projection `{ id, name, email }` and nothing else of the row. */
module AuthController {
  import opened Common
  import opened Crypto
  import opened UserModel
  import opened Database
  import AuthGate

  /** What made a handler answer 500: a store call that threw, bcrypt
      throwing, or reading `req.user.id` when no user is attached (the
      `TypeError` of a property read on `undefined`). */
  datatype Cause = Store(error: StoreError) | CompareThrew | NoRequestUser

  datatype AuthReply =
    | SignedUp(token: string, user: PublicUser)  // 201 { message, token, user }
    | LoggedIn(token: string, user: PublicUser)  // 200 { message, token, user }
    | LoggedOut                                  // 200 { message }
    | EmailTaken                                 // 400 { message }
    | InvalidCredentials                         // 401 { message }
    | Failed(message: string, cause: Cause)      // 500 { message, error: error.message }
  {
    function Status(): nat {
      match this
      case SignedUp(_, _) => 201
      case EmailTaken => 400
      case InvalidCredentials => 401
      case Failed(_, _) => 500
      case _ => 200
    }

    function Message(): string {
      match this
      case SignedUp(_, _) => "User created successfully"
      case LoggedIn(_, _) => "Login successful"
      case LoggedOut => "Logged out successfully"
      case EmailTaken => "Email already registered"
      case InvalidCredentials => "Invalid credentials"
      case Failed(m, _) => m
    }
  }

  /** Some user of the table has this address. */
  ghost predicate Registered(db: Db, email: string)
    reads db
  {
    exists id :: id in db.users && db.users[id].email == email
  }

  /** `signup`. Store call 0 is the `findOne` on the address (it throws when
      the body has no `email`), call 1 the `create`. The token is issued at
      second `now`, for the new row's id. */
  method Signup(db: Db, h: Hasher, jwt: Jwt, body: Body, salt: string, now: int, faults: Faults)
    returns (reply: AuthReply)
    requires db.Valid()
    modifies db
    ensures db.Valid()
    ensures db.notes == old(db.notes)
    ensures var email := Field(body, "email");
      reply == EmailTaken <==> !faults.Hits(0) && email.Some? && old(Registered(db, email.value))
    ensures var email := Field(body, "email");
      reply.SignedUp? <==>
        && !faults.Hits(0) && !faults.Hits(1)
        && email.Some? && !old(Registered(db, email.value))
        && Violations(Field(body, "name"), email, Field(body, "password")) == []
    ensures reply.SignedUp? ==>
      var u := User(old(db.nextUserId), body["name"], body["email"],
                    HashOnCreate(h, body["password"], salt), now);
      && u.id !in old(db.users)
      && db.users == old(db.users)[u.id := u]
      && |db.users| == |old(db.users)| + 1
      && reply.user == Public(u)
      && reply.token == jwt.sign(u.id, now)
    ensures !reply.SignedUp? ==> db.users == old(db.users) && db.nextUserId == old(db.nextUserId)
    ensures reply.Failed? ==> reply.message == "Error creating user"
    ensures reply.SignedUp? || reply == EmailTaken || reply.Failed?
  {
    var email := Field(body, "email");
    if faults.Hits(0) {
      return Failed("Error creating user", Store(Fault(faults.message)));
    }
    if email.None? {
      return Failed("Error creating user", Store(UndefinedWhere("email")));
    }
    var existing := db.FindUserByEmail(email.value);
    if existing.Some? {
      return EmailTaken;
    }
    if faults.Hits(1) {
      return Failed("Error creating user", Store(Fault(faults.message)));
    }
    var created := db.CreateUser(h, Field(body, "name"), email, Field(body, "password"), salt, now);
    if created.Err? {
      return Failed("Error creating user", Store(created.error));
    }
    var u := created.value;
    reply := SignedUp(jwt.sign(u.id, now), Public(u));
  }

  /** `login`. Store call 0 is the `findOne` on the address; the comparison
      is `isValidPassword`, whose exception (no `password` in the body, a
      malformed stored hash) is a 500, never a 401. */
  function Login(db: Db, h: Hasher, jwt: Jwt, body: Body, now: int, faults: Faults): (reply: AuthReply)
    reads db
    requires db.Valid()
    ensures reply.LoggedIn? || reply == InvalidCredentials || reply.Failed?
    ensures reply.Failed? ==> reply.message == "Error logging in"
    ensures reply.Failed? <==>
      || faults.Hits(0) || "email" !in body
      || (db.FindUserByEmail(body["email"]).Some?
          && ("password" !in body || h.compare(body["password"], db.FindUserByEmail(body["email"]).value.password).None?))
    ensures reply == InvalidCredentials <==>
      && !faults.Hits(0) && "email" in body
      && match db.FindUserByEmail(body["email"])
         case None => true
         case Some(u) => "password" in body && h.compare(body["password"], u.password) == Some(false)
    ensures reply.LoggedIn? ==>
      && !faults.Hits(0) && "email" in body && "password" in body
      && var u := db.FindUserByEmail(body["email"]).value;
      && h.compare(body["password"], u.password) == Some(true)
      && reply.user == Public(u)
      && reply.token == jwt.sign(u.id, now)
  {
    if faults.Hits(0) then Failed("Error logging in", Store(Fault(faults.message)))
    else match Field(body, "email")
      case None => Failed("Error logging in", Store(UndefinedWhere("email")))
      case Some(email) =>
        match db.FindUserByEmail(email)
        case None => InvalidCredentials
        case Some(u) =>
          match Field(body, "password")
          case None => Failed("Error logging in", CompareThrew)
          case Some(password) =>
            match IsValidPassword(h, u, password)
            case None => Failed("Error logging in", CompareThrew)
            case Some(false) => InvalidCredentials
            case Some(true) => LoggedIn(jwt.sign(u.id, now), Public(u))
  }

  /** An unknown address and a wrong password for a known one get the very
      same response, so a caller cannot tell which addresses are registered. */
  lemma UnknownEmailLooksLikeWrongPassword(db: Db, h: Hasher, jwt: Jwt, unknown: Body, wrong: Body, now: int)
    requires db.Valid()
    requires "email" in unknown && !Registered(db, unknown["email"])
    requires "email" in wrong && "password" in wrong && Registered(db, wrong["email"])
    requires h.compare(wrong["password"], db.FindUserByEmail(wrong["email"]).value.password) == Some(false)
    ensures Login(db, h, jwt, unknown, now, NoFault) == Login(db, h, jwt, wrong, now, NoFault)
    ensures Login(db, h, jwt, unknown, now, NoFault).Status() == 401
  {
  }

  /** The token of a successful login names the user and is accepted for
      exactly 24 hours from the login. */
  lemma LoginTokenLifetime(db: Db, h: Hasher, jwt: Jwt, body: Body, now: int, later: int, faults: Faults)
    requires db.Valid() && SoundJwt(jwt)
    requires Login(db, h, jwt, body, now, faults).LoggedIn?
    ensures var r := Login(db, h, jwt, body, now, faults);
      jwt.verify(r.token, later).Verified? <==> later < now + TokenLifetime
    ensures var r := Login(db, h, jwt, body, now, faults);
      later < now + TokenLifetime ==> jwt.verify(r.token, later) == Verified(Some(r.user.id))
  {
    var r := Login(db, h, jwt, body, now, faults);
    IssuedTokenLifetime(jwt, r.user.id, now, later);
  }

  /** `logout` with `req.user` as the gate left it: tokens are not tracked
      on the server, so it only logs the user's id and answers; without an
      attached user that read throws and the catch answers 500. */
  function Logout(user: Option<User>): (reply: AuthReply)
    ensures reply.Status() == 200 <==> user.Some?
    ensures reply.Status() == 200 ==> reply.Message() == "Logged out successfully"
    ensures reply.Status() != 200 ==> reply == Failed("Error logging out", NoRequestUser)
  {
    match user
    case Some(_) => LoggedOut
    case None => Failed("Error logging out", NoRequestUser)
  }

  /** Behind the auth gate, logout always succeeds: the gate lets a request
      through only with a user attached, and that user is the row of the
      table under its own id, so the `req.user.id` that `logout` logs is a
      registered id. */
  lemma LogoutBehindGate(header: Option<string>, jwt: Jwt, db: Db, now: int, faults: Faults)
    requires db.Valid()
    requires AuthGate.Gate(header, jwt, db, now, faults).Authenticated?
    ensures var u := AuthGate.Gate(header, jwt, db, now, faults).user;
      && u.id in db.users && db.users[u.id] == u
      && Logout(Some(u)) == LoggedOut
  {
  }

  /** Signing up and then logging in with the same body: the login finds the
      new row, accepts the password and issues a token for the new id; the
      stored password is not the plaintext. */
  method SignupThenLogin(db: Db, h: Hasher, jwt: Jwt, body: Body, salt: string, now: int, later: int)
    returns (signup: AuthReply, login: AuthReply)
    requires db.Valid() && SoundHasher(h) && SoundJwt(jwt)
    requires "password" in body && body["password"] != ""
    modifies db
    ensures signup.SignedUp? ==>
      && login.LoggedIn? && login.user == signup.user
      && signup.user.id in db.users && db.users[signup.user.id].password != body["password"]
      && jwt.verify(login.token, later) == Verified(Some(signup.user.id))
  {
    signup := Signup(db, h, jwt, body, salt, now, NoFault);
    login := Login(db, h, jwt, body, later, NoFault);
    if signup.SignedUp? {
      var u := db.users[signup.user.id];
      assert db.users[u.id].email == body["email"];
      StoredIsPlaintextOnlyWhenEmpty(h, body["password"], salt);
      CreatedPasswordIsValid(h, u, body["password"], salt);
      IssuedTokenLifetime(jwt, u.id, later, later);
    }
  }
}
