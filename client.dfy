/**
 * The API client's credential store and request preparation
 * (`OpenProjectClient` in src/lib/api/client.ts, duplicated in `OpenProjectAPI`, src/lib/api.ts).
 */
module Client {
  import opened Wrappers
  import opened OpenProject
  import opened Strings

  /** The localStorage entry the credentials are persisted under. */
  const StorageKey: string := "openproject_credentials"

  /**
   * The browser's localStorage, one object shared by every client instance. Entries are stored
   * as JSON text; the JSON round trip is the identity, so an entry holds the credentials.
   */
  class LocalStorage {
    var items: map<string, Credentials>

    constructor()
      ensures items == map[]
    {
      items := map[];
    }
  }

  /** A request as handed to `fetch`: URL and headers (other init options pass through unchanged). */
  datatype HttpRequest = HttpRequest(url: string, headers: map<string, string>)

  /** What `fetch` yields: a response, or a rejection (network failure). */
  datatype FetchOutcome =
    | Response(ok: bool, status: nat, statusText: string, body: string)
    | NetworkError(message: string)

  datatype ApiError =
    | CredentialsNotSet
    | RequestFailed(status: nat, statusText: string)
    | Transport(message: string)

  /** The `Error` message each failure is thrown with. */
  function ErrorMessage(e: ApiError): (m: string)
    ensures e.RequestFailed? ==> IsPrefix("API request failed: ", m)
  {
    match e
    case CredentialsNotSet => "API credentials not set"
    case RequestFailed(status, statusText) => "API request failed: " + NatToString(status) + " " + statusText
    case Transport(message) => message
  }

  /** The status code and text can be read back from a failure message. */
  lemma RequestFailedMessage(status: nat, statusText: string)
    ensures var m := ErrorMessage(RequestFailed(status, statusText));
      var digits := NatToString(status);
      && |m| == |"API request failed: "| + |digits| + 1 + |statusText|
      && m[|"API request failed: "|..|"API request failed: "| + |digits|] == digits
      && m[|"API request failed: "| + |digits|] == ' '
      && DigitsValue(digits) == status
      && m[|m| - |statusText|..] == statusText
  {
    NatToStringRoundTrip(status);
  }

  /** URL `${url}/api/v3/${endpoint}` and the default headers, overridden by the caller's. */
  function BuildRequest(c: Credentials, endpoint: string, callerHeaders: map<string, string>): (req: HttpRequest)
    ensures req.url == c.url + "/api/v3/" + endpoint
    ensures req.headers.Keys == {"Content-Type", "Authorization"} + callerHeaders.Keys
    ensures forall k :: k in callerHeaders ==> req.headers[k] == callerHeaders[k]
    ensures "Authorization" !in callerHeaders ==> req.headers["Authorization"] == "Bearer " + c.apiKey
    ensures "Content-Type" !in callerHeaders ==> req.headers["Content-Type"] == "application/json"
  {
    var defaults := map["Content-Type" := "application/json", "Authorization" := "Bearer " + c.apiKey];
    HttpRequest(c.url + "/api/v3/" + endpoint, defaults + callerHeaders)
  }

  /**
   * `request` once the credentials have been read: without them it fails before any fetch;
   * with them it sends the built request and accepts only an ok response.
   * The result pairs the outcome with the request that was sent, if any.
   */
  function RequestOutcome(creds: Option<Credentials>, endpoint: string, callerHeaders: map<string, string>,
                          fetch: HttpRequest -> FetchOutcome): (out: (Result<string, ApiError>, Option<HttpRequest>))
    ensures creds.None? ==> out == (Failure(CredentialsNotSet), None)
    ensures creds.Some? ==> out.1 == Some(BuildRequest(creds.value, endpoint, callerHeaders))
    ensures creds.Some? ==>
      var resp := fetch(BuildRequest(creds.value, endpoint, callerHeaders));
      && (out.0.Success? <==> resp.Response? && resp.ok)
      && (out.0.Success? ==> out.0.value == resp.body)
      && (resp.Response? && !resp.ok ==> out.0 == Failure(RequestFailed(resp.status, resp.statusText)))
      && (resp.NetworkError? ==> out.0 == Failure(Transport(resp.message)))
  {
    if creds.None? then (Failure(CredentialsNotSet), None)
    else
      var req := BuildRequest(creds.value, endpoint, callerHeaders);
      match fetch(req)
      case NetworkError(message) => (Failure(Transport(message)), Some(req))
      case Response(ok, status, statusText, body) =>
        if !ok then (Failure(RequestFailed(status, statusText)), Some(req))
        else (Success(body), Some(req))
  }

  class OpenProjectClient {
    /** The in-memory slot; `null` in the source is `None`. */
    var credentials: Option<Credentials>
    /** The localStorage this instance persists to. */
    const storage: LocalStorage

    constructor(storage: LocalStorage)
      ensures credentials == None && this.storage == storage
    {
      credentials := None;
      this.storage := storage;
    }

    /** The persisted slot. */
    function Stored(): Option<Credentials>
      reads storage
    {
      if StorageKey in storage.items then Some(storage.items[StorageKey]) else None
    }

    /** What `getCredentials` returns in the current state: memory first, then storage. */
    function Effective(): Option<Credentials>
      reads this, storage
    {
      if credentials.Some? then credentials else Stored()
    }

    method SetCredentials(c: Credentials)
      modifies this, storage
      ensures credentials == Some(c) && Stored() == Some(c)
      ensures storage.items == old(storage.items)[StorageKey := c]
      ensures Effective() == Some(c)
    {
      credentials := Some(c);
      storage.items := storage.items[StorageKey := c];
    }

    /** Returns the cached credentials, else loads the stored ones into memory. */
    method GetCredentials() returns (r: Option<Credentials>)
      modifies this
      ensures r == old(Effective())
      ensures credentials == old(Effective())
      ensures old(credentials).Some? ==> credentials == old(credentials)
      ensures old(credentials).None? ==> credentials == old(Stored())
      ensures Effective() == old(Effective())
    {
      if credentials.Some? {
        return credentials;
      }
      if StorageKey in storage.items {
        credentials := Some(storage.items[StorageKey]);
        return credentials;
      }
      return None;
    }

    method ClearCredentials()
      modifies this, storage
      ensures credentials == None && Stored() == None
      ensures storage.items == old(storage.items) - {StorageKey}
      ensures Effective() == None
    {
      credentials := None;
      storage.items := storage.items - {StorageKey};
    }

    method IsAuthenticated() returns (b: bool)
      modifies this
      ensures b == old(Effective()).Some?
      ensures credentials == old(Effective())
      ensures Effective() == old(Effective())
    {
      var c := GetCredentials();
      b := c.Some?;
    }

    /**
     * `request(endpoint, { headers })`; `fetch` stands for the network and is consulted only
     * when credentials are available.
     */
    method Request(endpoint: string, callerHeaders: map<string, string>, fetch: HttpRequest -> FetchOutcome)
      returns (result: Result<string, ApiError>, sent: Option<HttpRequest>)
      modifies this
      ensures (result, sent) == RequestOutcome(old(Effective()), endpoint, callerHeaders, fetch)
      ensures credentials == old(Effective())
      ensures Effective() == old(Effective())
    {
      var creds := GetCredentials();
      if creds.None? {
        return Failure(CredentialsNotSet), None;
      }
      var req := BuildRequest(creds.value, endpoint, callerHeaders);
      sent := Some(req);
      var outcome := fetch(req);
      match outcome {
        case NetworkError(message) =>
          result := Failure(Transport(message));
        case Response(ok, status, statusText, body) =>
          if !ok {
            result := Failure(RequestFailed(status, statusText));
          } else {
            result := Success(body);
          }
      }
    }
  }

  /**
   * Logging out through one instance clears the shared storage and that instance's memory
   * only: another instance keeps whatever it had already cached.
   */
  method LogoutThrough(a: OpenProjectClient, b: OpenProjectClient)
    requires a != b && a.storage == b.storage
    modifies a, a.storage
    ensures a.Effective() == None
    ensures b.Effective() == old(b.credentials)
  {
    a.ClearCredentials();
  }

  /**
   * The facade and its services are separate instances over one localStorage. After a login
   * through the facade, a service that already loaded the credentials stays authenticated
   * after a logout through the facade, while a service that never loaded them is not.
   */
  method SharedStorageScenario(c: Credentials)
    returns (facade: Option<Credentials>, loadedService: Option<Credentials>, idleService: Option<Credentials>)
    ensures facade == None
    ensures loadedService == Some(c)
    ensures idleService == None
  {
    var storage := new LocalStorage();
    var api := new OpenProjectClient(storage);
    var workPackages := new OpenProjectClient(storage);
    var members := new OpenProjectClient(storage);
    api.SetCredentials(c);
    var loaded := workPackages.GetCredentials();
    api.ClearCredentials();
    facade := api.GetCredentials();
    loadedService := workPackages.GetCredentials();
    idleService := members.GetCredentials();
  }
}
