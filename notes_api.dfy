/** The service layer of the `notes` client: the same bearer-token request
    interceptor, and a response interceptor that on a 401 drops the stored
    token and sends the browser to the login page before failing the call. */
module NotesApi {
  import opened Common
  import opened Browser

  /** The request interceptor. */
  method InterceptRequest(config: RequestConfig, storage: Storage)
    modifies config
    ensures config.headers == WithBearer(old(config.headers), storage.GetItem("token"))
  {
    var token := storage.GetItem("token");
    if Truthy(token) {
      config.headers := config.headers["Authorization" := "Bearer " + token.value];
    }
  }

  /** `error.response?.status === 401`. */
  predicate Unauthorized<T>(outcome: HttpOutcome<T>) {
    outcome.Rejected? && outcome.error.status == Some(401)
  }

  /** The storage after the response interceptor saw `outcome`: only the
      token goes, only on a 401. */
  function ItemsAfter<T>(items: map<string, string>, outcome: HttpOutcome<T>): (r: map<string, string>)
    ensures forall k :: k in r <==> k in items && (k != "token" || !Unauthorized(outcome))
    ensures forall k :: k in r ==> r[k] == items[k]
  {
    if Unauthorized(outcome) then items - {"token"} else items
  }

  /** `window.location.href` after the response interceptor saw `outcome`. */
  function HrefAfter<T>(href: string, outcome: HttpOutcome<T>): (r: string)
    ensures Unauthorized(outcome) ==> r == "/login"
    ensures !Unauthorized(outcome) ==> r == href
  {
    if Unauthorized(outcome) then "/login" else href
  }

  /** A 401 logs the client out only half-way: the token is gone but the
      stored user stays; any other outcome touches nothing. */
  lemma UnauthorizedKeepsUser<T>(items: map<string, string>, outcome: HttpOutcome<T>)
    ensures "token" !in ItemsAfter(items, outcome) <==> Unauthorized(outcome) || "token" !in items
    ensures forall k :: k != "token" ==>
      (k in ItemsAfter(items, outcome) <==> k in items)
    ensures forall k :: k != "token" && k in items ==> ItemsAfter(items, outcome)[k] == items[k]
    ensures !Unauthorized(outcome) ==> ItemsAfter(items, outcome) == items
  {
  }

  /** The response interceptor: successes pass through, every failure is
      rejected again after the 401 handling. */
  method InterceptResponse<T>(storage: Storage, window: Window, outcome: HttpOutcome<T>) returns (r: HttpOutcome<T>)
    modifies storage, window
    ensures r == outcome
    ensures storage.items == ItemsAfter(old(storage.items), outcome)
    ensures window.href == HrefAfter(old(window.href), outcome)
  {
    if outcome.Rejected? && outcome.error.status == Some(401) {
      storage.RemoveItem("token");
      window.href := "/login";
    }
    r := outcome;
  }
}
