/** The service layer of the main client: one axios instance whose request
    interceptor attaches the stored token, an `authService` that keeps the
    token and the signed-in user in `localStorage`, and a `noteService`
    whose calls hand back the response data. */
module ClientApi {
  import opened Common
  import opened Crypto
  import opened UserModel
  import opened Database
  import opened Browser
  import opened JsonUser
  import AuthGate

  /** The request interceptor: `Authorization: Bearer <token>` when a
      truthy token is stored, the headers as they were otherwise. */
  method InterceptRequest(config: RequestConfig, storage: Storage)
    modifies config
    ensures config.headers == WithBearer(old(config.headers), storage.GetItem("token"))
  {
    var token := storage.GetItem("token");
    if Truthy(token) {
      config.headers := config.headers["Authorization" := "Bearer " + token.value];
    }
  }

  /** The header the interceptor writes, read by the server's gate, gives
      back the stored token. */
  lemma {:induction false} BearerRoundTrip(headers: map<string, string>, token: string)
    requires token != ""
    ensures var sent := WithBearer(headers, Some(token));
      "Authorization" in sent && AuthGate.ExtractToken(Some(sent["Authorization"])) == Some(token)
  {
    AuthGate.ExtractBearer(token);
  }

  /** A token the server issued, stored and sent by the interceptor within
      its 24 hours, passes the gate as the user it was issued for. */
  lemma IssuedTokenSentIsAccepted(headers: map<string, string>, jwt: Jwt, db: Db, u: nat, iat: int, now: int)
    requires SoundJwt(jwt) && u in db.users && now < iat + TokenLifetime
    ensures var sent := WithBearer(headers, Some(jwt.sign(u, iat)));
      && "Authorization" in sent
      && AuthGate.Gate(Some(sent["Authorization"]), jwt, db, now, NoFault)
         == AuthGate.Authenticated(db.users[u], jwt.sign(u, iat))
  {
    AuthGate.IssuedTokenAuthenticates(jwt, db, u, iat, now);
  }

  /** The response data of signup and login: `token` and `user`, each
      possibly absent. */
  datatype AuthData = AuthData(token: Option<string>, user: Option<PublicUser>)

  /** What `setItem('user', JSON.stringify(user))` stores: an absent user
      stringifies to `undefined`, which `setItem` stores as that text. */
  function StoredUser(user: Option<PublicUser>): (stored: string)
    ensures ParseUser(stored) == user
  {
    match user
    case Some(u) => ParseStringify(u); Stringify(u)
    case None => UndefinedIsUnreadable(); "undefined"
  }

  /** The storage after `login` settled with `outcome`. */
  function LoginItems(items: map<string, string>, outcome: HttpOutcome<AuthData>): (r: map<string, string>)
    ensures outcome.Resolved? && Truthy(outcome.data.token) ==>
      && "token" in r && r["token"] == outcome.data.token.value
      && "user" in r && r["user"] == StoredUser(outcome.data.user)
    ensures SameItemsExcept(r, items, {"token", "user"})
    ensures !(outcome.Resolved? && Truthy(outcome.data.token)) ==> r == items
  {
    if outcome.Resolved? && Truthy(outcome.data.token) then
      items["token" := outcome.data.token.value]["user" := StoredUser(outcome.data.user)]
    else items
  }

  /** The storage after `logout`, however the request ended. */
  function LogoutItems(items: map<string, string>): (r: map<string, string>)
    ensures "token" !in r && "user" !in r
    ensures SameItemsExcept(r, items, {"token", "user"})
  {
    items - {"token", "user"}
  }

  datatype CurrentUser = NoUser | SignedIn(user: PublicUser) | Unreadable

  /** `getCurrentUser` on stored items: nothing for an absent or empty
      entry, the parsed user otherwise; `Unreadable` when `JSON.parse`
      throws or yields something that is not a stored user. */
  function CurrentUserOf(items: map<string, string>): (r: CurrentUser)
    ensures "user" !in items || items["user"] == "" ==> r == NoUser
    ensures "user" in items && items["user"] != "" ==>
      r == match ParseUser(items["user"]) case Some(u) => SignedIn(u) case None => Unreadable
  {
    if "user" in items && items["user"] != "" then
      match ParseUser(items["user"])
      case Some(u) => SignedIn(u)
      case None => Unreadable
    else NoUser
  }

  /** After a login whose response carried a token and a user, that user is
      the current user and the token is what the interceptor will send. */
  lemma LoginThenCurrentUser(items: map<string, string>, token: string, u: PublicUser)
    requires token != ""
    ensures var after := LoginItems(items, Resolved(AuthData(Some(token), Some(u))));
      && CurrentUserOf(after) == SignedIn(u)
      && "token" in after && after["token"] == token
  {
    ParseStringify(u);
  }

  /** A login response without a token leaves storage as it was. */
  lemma LoginWithoutTokenStoresNothing(items: map<string, string>, outcome: HttpOutcome<AuthData>)
    requires outcome.Rejected? || !Truthy(outcome.data.token)
    ensures LoginItems(items, outcome) == items
  {
  }

  /** After logout there is no current user and no token to send. */
  lemma LogoutClearsSession(items: map<string, string>)
    ensures CurrentUserOf(LogoutItems(items)) == NoUser
    ensures "token" !in LogoutItems(items)
  {
  }

  /** `authService.signup`: posts and hands back the response data; the
      caller's storage is not written. */
  method Signup(config: RequestConfig, storage: Storage, outcome: HttpOutcome<AuthData>)
    returns (r: HttpOutcome<AuthData>)
    modifies config
    ensures config.headers == WithBearer(old(config.headers), storage.GetItem("token"))
    ensures r == outcome
  {
    InterceptRequest(config, storage);
    r := outcome;
  }

  /** `authService.login`: on a response with a truthy token, stores the
      token and the stringified user; the outcome is passed on. */
  method Login(config: RequestConfig, storage: Storage, outcome: HttpOutcome<AuthData>)
    returns (r: HttpOutcome<AuthData>)
    modifies config, storage
    ensures config.headers == WithBearer(old(config.headers), old(storage.GetItem("token")))
    ensures storage.items == LoginItems(old(storage.items), outcome)
    ensures r == outcome
  {
    InterceptRequest(config, storage);
    if outcome.Resolved? && Truthy(outcome.data.token) {
      storage.SetItem("token", outcome.data.token.value);
      storage.SetItem("user", StoredUser(outcome.data.user));
    }
    r := outcome;
  }

  /** `authService.logout`: both keys are removed in a `finally`, so also
      when the request fails, and the failure is still passed on. */
  method Logout(config: RequestConfig, storage: Storage, outcome: HttpOutcome<()>)
    returns (r: HttpOutcome<()>)
    modifies config, storage
    ensures config.headers == WithBearer(old(config.headers), old(storage.GetItem("token")))
    ensures storage.items == LogoutItems(old(storage.items))
    ensures r == outcome
  {
    InterceptRequest(config, storage);
    storage.RemoveItem("token");
    storage.RemoveItem("user");
    r := outcome;
  }

  /** `authService.getCurrentUser`. */
  function GetCurrentUser(storage: Storage): (r: CurrentUser)
    reads storage
    ensures !Truthy(storage.GetItem("user")) ==> r == NoUser
    ensures Truthy(storage.GetItem("user")) ==> (r == Unreadable <==> ParseUser(storage.items["user"]).None?)
    ensures Truthy(storage.GetItem("user")) && ParseUser(storage.items["user"]).Some? ==>
      r == SignedIn(ParseUser(storage.items["user"]).value)
  {
    CurrentUserOf(storage.items)
  }

  /** Every `noteService` call: the request carries the stored token, the
      response data comes back unchanged and a rejection propagates. */
  method NoteCall<T>(config: RequestConfig, storage: Storage, outcome: HttpOutcome<T>) returns (r: HttpOutcome<T>)
    modifies config
    ensures config.headers == WithBearer(old(config.headers), storage.GetItem("token"))
    ensures r == outcome
  {
    InterceptRequest(config, storage);
    r := outcome;
  }
}
