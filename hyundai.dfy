/** The alternate telematics provider (`MyBlueLinkProvider` in
    `app/services/telematics/hyundai_kia.py`): a session token that
    `login` stores and `_ensure_session` re-validates before each status
    request. Every request its HTTP client sends is appended to `sent`. */
module HyundaiKia {
  import opened PyJson
  import opened Http

  const BaseUrl: string := "https://mybluelink.ca/tods/api"
  const LoginUrl: string := BaseUrl + "/lgn"
  const VerifyUrl: string := BaseUrl + "/vrfyacctkn"
  const StatusUrl: string := BaseUrl + "/rltmvhclsts"

  /** The exceptions that escape the provider (none is caught). */
  datatype ProviderError =
    | Transport            // httpx.RequestError
    | HttpStatus(status: int)  // httpx.HTTPStatusError from raise_for_status()
    | InvalidJson          // JSONDecodeError from r.json()
    | NotAnObject          // AttributeError: `data.get` on a non-dict

  /** What `fetch_latest_status` returns: a record carrying only the raw
      payload. */
  datatype StatusCreate = StatusCreate(rawPayload: Json)

  /** The effect of `_ensure_session`: its outcome, the session token it
      leaves and the requests it sends, in order. */
  datatype Session = Session(outcome: Result<(), ProviderError>, token: Json, requests: seq<Request>)

  /** `_auth_header()`: no header without a truthy token, otherwise
      exactly the bearer header. */
  function AuthHeader(token: Json): (h: map<string, string>)
    ensures !Truthy(token) ==> h == map[]
    ensures Truthy(token) ==> h.Keys == {"Authorization"} && h["Authorization"] == "Bearer " + PyStr(token)
  {
    if Truthy(token) then map["Authorization" := "Bearer " + PyStr(token)] else map[]
  }

  function OptionalString(s: Option<string>): Json {
    match s
    case None => JNull
    case Some(v) => JStr(v)
  }

  /** The POST to `/lgn`: the credentials only, without the pin or any
      authorisation header. */
  function LoginRequest(username: Option<string>, password: Option<string>): Request {
    Request(Post, LoginUrl, map[],  map[],
            Some(JObj(map["username" := OptionalString(username), "password" := OptionalString(password)])))
  }

  function VerifyRequest(token: Json): Request {
    Request(Post, VerifyUrl, AuthHeader(token), map[], None)
  }

  function StatusRequest(token: Json, externalId: string): Request {
    Request(Get, StatusUrl, AuthHeader(token), map["vehicle_id" := externalId], None)
  }

  /** `raise_for_status()` and `r.json()` on an answer. */
  function JsonFrom(o: Outcome): (r: Result<Json, ProviderError>)
    ensures r.Ok? <==> o.Response? && HttpxStatusOk(o.status) && o.body.JsonBody?
    ensures r.Ok? ==> r.value == o.body.value
  {
    match o
    case NetworkFailure => Err(Transport)
    case Response(status, body) =>
      if !HttpxStatusOk(status) then Err(HttpStatus(status))
      else
        match body
        case NotJson => Err(InvalidJson)
        case JsonBody(j) => Ok(j)
  }

  /** The token `login` stores: `data.get("token")`, which is null when
      the field is missing; nothing is stored when the call fails. */
  function TokenFrom(o: Outcome): (r: Result<Json, ProviderError>)
    ensures r.Ok? <==> JsonFrom(o).Ok? && JsonFrom(o).value.JObj?
    ensures r.Ok? ==> r.value == DictGet(JsonFrom(o).value.fields, "token", JNull)
  {
    match JsonFrom(o)
    case Err(e) => Err(e)
    case Ok(data) => if data.JObj? then Ok(DictGet(data.fields, "token", JNull)) else Err(NotAnObject)
  }

  /** `verify_token()` on a sent request: whether the status is exactly 200. */
  function VerifyFrom(o: Outcome): (r: Result<bool, ProviderError>)
    ensures r.Err? <==> o.NetworkFailure?
    ensures r.Ok? ==> (r.value <==> o.status == 200)
  {
    match o
    case NetworkFailure => Err(Transport)
    case Response(status, _) => Ok(status == 200)
  }

  /** A login after the requests `before`. */
  function LoginStep(token: Json, username: Option<string>, password: Option<string>,
                     server: Server, before: seq<Request>): Session
  {
    var request := LoginRequest(username, password);
    match TokenFrom(server(request))
    case Err(e) => Session(Err(e), token, before + [request])
    case Ok(t) => Session(Ok(()), t, before + [request])
  }

  /** `_ensure_session()` from the token held: log in when there is no
      token, verify it otherwise, and log in again when it fails
      verification. */
  function EnsureSessionSpec(token: Json, username: Option<string>, password: Option<string>,
                             server: Server): Session
  {
    if !Truthy(token) then LoginStep(token, username, password, server, [])
    else
      var check := VerifyRequest(token);
      match VerifyFrom(server(check))
      case Err(e) => Session(Err(e), token, [check])
      case Ok(valid) =>
        if valid then Session(Ok(()), token, [check])
        else LoginStep(token, username, password, server, [check])
  }

  class Provider {
    const username: Option<string>
    const password: Option<string>
    const pin: Option<string>
    var sessionToken: Json
    var sent: seq<Request>

    /** A new provider holds no token and has sent nothing. */
    constructor(username: Option<string>, password: Option<string>, pin: Option<string>)
      ensures this.username == username && this.password == password && this.pin == pin
      ensures sessionToken == JNull && sent == []
    {
      this.username := username;
      this.password := password;
      this.pin := pin;
      sessionToken := JNull;
      sent := [];
    }

    /** `login()`: returns and stores the token of a successful answer;
        a failed call leaves the token as it was. */
    method Login(server: Server) returns (r: Result<Json, ProviderError>)
      modifies this
      ensures sent == old(sent) + [LoginRequest(username, password)]
      ensures r == TokenFrom(server(LoginRequest(username, password)))
      ensures r.Ok? ==> sessionToken == r.value
      ensures r.Err? ==> sessionToken == old(sessionToken)
    {
      var request := LoginRequest(username, password);
      sent := sent + [request];
      r := TokenFrom(server(request));
      if r.Ok? {
        sessionToken := r.value;
      }
    }

    /** `verify_token()`: false without any request when there is no
        token; otherwise whether the server answers 200. */
    method VerifyToken(server: Server) returns (r: Result<bool, ProviderError>)
      modifies this
      ensures sessionToken == old(sessionToken)
      ensures !Truthy(sessionToken) ==> r == Ok(false) && sent == old(sent)
      ensures Truthy(sessionToken) ==>
                sent == old(sent) + [VerifyRequest(sessionToken)]
                && r == VerifyFrom(server(VerifyRequest(sessionToken)))
    {
      if !Truthy(sessionToken) {
        return Ok(false);
      }
      var request := VerifyRequest(sessionToken);
      sent := sent + [request];
      r := VerifyFrom(server(request));
    }

    /** `_ensure_session()`. */
    method EnsureSession(server: Server) returns (r: Result<(), ProviderError>)
      modifies this
      ensures var s := EnsureSessionSpec(old(sessionToken), username, password, server);
              r == s.outcome && sessionToken == s.token && sent == old(sent) + s.requests
    {
      if !Truthy(sessionToken) {
        var login := Login(server);
        r := if login.Ok? then Ok(()) else Err(login.error);
        return;
      }
      var valid := VerifyToken(server);
      if valid.Err? {
        return Err(valid.error);
      }
      if !valid.value {
        var login := Login(server);
        r := if login.Ok? then Ok(()) else Err(login.error);
        return;
      }
      r := Ok(());
    }

    /** `_realtime_status_raw(external_id)`: the session is ensured first,
        then the status is fetched with the token it leaves and the
        vehicle id as the query parameter. */
    method RealtimeStatusRaw(externalId: string, server: Server) returns (r: Result<Json, ProviderError>)
      modifies this
      ensures var s := EnsureSessionSpec(old(sessionToken), username, password, server);
              sessionToken == s.token
              && (s.outcome.Err? ==> r == Err(s.outcome.error) && sent == old(sent) + s.requests)
              && (s.outcome.Ok? ==>
                    sent == old(sent) + s.requests + [StatusRequest(s.token, externalId)]
                    && r == JsonFrom(server(StatusRequest(s.token, externalId))))
    {
      var session := EnsureSession(server);
      if session.Err? {
        return Err(session.error);
      }
      var request := StatusRequest(sessionToken, externalId);
      sent := sent + [request];
      r := JsonFrom(server(request));
    }

    /** `fetch_latest_status(vehicle_external_id)`: the raw status, kept
        whole as the record's payload. */
    method FetchLatestStatus(externalId: string, server: Server) returns (r: Result<StatusCreate, ProviderError>)
      modifies this
      ensures var s := EnsureSessionSpec(old(sessionToken), username, password, server);
              sessionToken == s.token
              && (s.outcome.Err? ==> r == Err(s.outcome.error) && sent == old(sent) + s.requests)
              && (s.outcome.Ok? ==>
                    var raw := JsonFrom(server(StatusRequest(s.token, externalId)));
                    sent == old(sent) + s.requests + [StatusRequest(s.token, externalId)]
                    && (r.Ok? <==> raw.Ok?) && (r.Ok? ==> r.value == StatusCreate(raw.value))
                    && (r.Err? ==> r.error == raw.error))
    {
      var raw := RealtimeStatusRaw(externalId, server);
      if raw.Err? {
        return Err(raw.error);
      }
      r := Ok(StatusCreate(raw.value));
    }
  }

  // ---------------------------------------------------------------------
  // Properties
  // ---------------------------------------------------------------------

  /** The three endpoints are distinct, so the request log tells logins,
      verifications and status requests apart. */
  lemma EndpointsDistinct()
    ensures LoginUrl != VerifyUrl && LoginUrl != StatusUrl && VerifyUrl != StatusUrl
  {
    var n := |BaseUrl|;
    assert LoginUrl[n + 1] == 'l' && VerifyUrl[n + 1] == 'v' && StatusUrl[n + 1] == 'r';
  }

  /** `_ensure_session` logs in exactly when there is no token or the
      token fails verification; a token that verifies is kept without a
      login. */
  lemma EnsureSessionLogsInIff(token: Json, username: Option<string>, password: Option<string>, server: Server)
    ensures LoginRequest(username, password) in EnsureSessionSpec(token, username, password, server).requests
            <==> !Truthy(token) || VerifyFrom(server(VerifyRequest(token))) == Ok(false)
    ensures Truthy(token) && VerifyFrom(server(VerifyRequest(token))) == Ok(true) ==>
              EnsureSessionSpec(token, username, password, server) == Session(Ok(()), token, [VerifyRequest(token)])
  {
    EndpointsDistinct();
    var login := LoginRequest(username, password);
    if Truthy(token) {
      assert VerifyRequest(token).url != login.url;
      assert login != VerifyRequest(token);
    }
  }

  /** At most one verification and one login, in that order, and the
      verification is only sent with a token to verify. */
  lemma EnsureSessionRequests(token: Json, username: Option<string>, password: Option<string>, server: Server)
    ensures var s := EnsureSessionSpec(token, username, password, server);
            1 <= |s.requests| <= 2
            && (!Truthy(token) ==> s.requests == [LoginRequest(username, password)])
            && (Truthy(token) ==> s.requests[0] == VerifyRequest(token))
  {
    if Truthy(token) {
      var check := VerifyRequest(token);
      var login := LoginStep(token, username, password, server, [check]);
      assert login.requests == [check, LoginRequest(username, password)];
    }
  }

  /** A failed session leaves the token as it was; a successful one holds
      either the verified token or whatever the login answer carried. */
  lemma EnsureSessionToken(token: Json, username: Option<string>, password: Option<string>, server: Server)
    ensures var s := EnsureSessionSpec(token, username, password, server);
            (s.outcome.Err? ==> s.token == token)
            && (s.outcome.Ok? && s.token != token ==>
                  s.token == TokenFrom(server(LoginRequest(username, password))).value)
  {
  }

  /** A login answer without a `token` field succeeds and leaves no token,
      so the status request that follows goes out without authorisation. */
  lemma MissingTokenField(username: Option<string>, password: Option<string>, server: Server, externalId: string)
    requires server(LoginRequest(username, password)) == Response(200, JsonBody(JObj(map[])))
    ensures EnsureSessionSpec(JNull, username, password, server).outcome.Ok?
    ensures EnsureSessionSpec(JNull, username, password, server).token == JNull
    ensures StatusRequest(JNull, externalId).headers == map[]
  {
  }
}
