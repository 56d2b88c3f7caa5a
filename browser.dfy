/** The browser objects the client code mutates: `localStorage`, the
    `window.location` it redirects through, an axios request configuration
    and the two ways an axios call settles. */
module Browser {
  import opened Common

  /** `localStorage`: a map from key to stored text. */
  class Storage {
    var items: map<string, string>

    constructor(items: map<string, string>)
      ensures this.items == items
    {
      this.items := items;
    }

    /** `getItem(key)`: `null` (here `None`) for a key never set. */
    function GetItem(key: string): (r: Option<string>)
      reads this
      ensures r.Some? <==> key in items
      ensures r.Some? ==> r.value == items[key]
    {
      if key in items then Some(items[key]) else None
    }

    method SetItem(key: string, value: string)
      modifies this
      ensures items == old(items)[key := value]
    {
      items := items[key := value];
    }

    /** `removeItem(key)`: removing an absent key changes nothing. */
    method RemoveItem(key: string)
      modifies this
      ensures items == old(items) - {key}
    {
      items := items - {key};
    }
  }

  /** `window.location`: assigning `href` navigates. */
  class Window {
    var href: string

    constructor(href: string)
      ensures this.href == href
    {
      this.href := href;
    }
  }

  /** An axios request configuration; only its headers are modelled. */
  class RequestConfig {
    var headers: map<string, string>

    constructor(headers: map<string, string>)
      ensures this.headers == headers
    {
      this.headers := headers;
    }
  }

  /** An axios error: `error.response?.status` and
      `error.response?.data?.message`, each absent when there was no
      response or no such field. */
  datatype HttpError = HttpError(status: Option<int>, message: Option<string>)

  /** How an axios call settles: resolved with the response data, or
      rejected with an error. */
  datatype HttpOutcome<T> = Resolved(data: T) | Rejected(error: HttpError)

  /** `headers` with `Authorization: Bearer <token>` added exactly when a
      truthy token is stored. */
  function WithBearer(headers: map<string, string>, token: Option<string>): (r: map<string, string>)
    ensures Truthy(token) ==> r == headers["Authorization" := "Bearer " + token.value]
    ensures !Truthy(token) ==> r == headers
  {
    if Truthy(token) then headers["Authorization" := "Bearer " + token.value] else headers
  }

  /** The stored items `after` and `before` agree on every key outside
      `keys`: the same keys are present, with the same values. */
  ghost predicate SameItemsExcept(after: map<string, string>, before: map<string, string>, keys: set<string>) {
    forall k :: k !in keys ==> (k in after <==> k in before) && (k in after ==> after[k] == before[k])
  }
}
