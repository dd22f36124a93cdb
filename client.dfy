/** The synchronous MyBlueLink client (`MyBlueLinkClient` in
    `app/integrations/mybluelink/client.py`): a fixed configuration, the
    headers of its HTTP session, and the lazy login state it updates in
    place. Every request the session sends is appended to `sent`. */
module BlueLinkClient {
  import opened PyJson
  import opened Http
  import opened BlueLinkConfig

  /** The exceptions the client lets out. All are MyBlueLinkError except a
      transport failure of the login POST and a login answer that is not
      a JSON object, which escape as they are. */
  datatype ClientError =
    | BaseUrlNotSet            // no base URL in the real mode
    | LoginTransport           // requests.RequestException from the login POST
    | LoginHttp(status: int)   // HTTPError of the login POST, wrapped
    | InvalidJson              // `_safe_json`: the body is not JSON
    | LoginNotAnObject         // AttributeError: `data.get` on a non-dict
    | NoAccessToken            // the login answer has no truthy access_token
    | StatusTransport          // RequestException of the status GET, wrapped
    | StatusHttp(status: int)  // HTTPError of the status GET, wrapped

  predicate IsMyBlueLinkError(e: ClientError) {
    !e.LoginTransport? && !e.LoginNotAnObject?
  }

  const UserAgent: string := "BluelinkJimMobile/0.1"
  const AcceptAny: string := "application/json, text/plain, */*"

  /** The headers the session starts with. */
  const SessionHeaders: map<string, string> := map["User-Agent" := UserAgent, "Accept" := AcceptAny]

  function Bearer(token: Json): string {
    "Bearer " + PyStr(token)
  }

  predicate HasBaseUrl(cfg: Config) {
    cfg.baseUrl.Some? && |cfg.baseUrl.value| > 0
  }

  /** `_safe_json`: the decoded body, or a MyBlueLinkError. */
  function SafeJson(body: Body): (r: Result<Json, ClientError>)
    ensures r.Ok? <==> body.JsonBody?
    ensures r.Ok? ==> r.value == body.value
    ensures r.Err? ==> r.error == InvalidJson && IsMyBlueLinkError(r.error)
  {
    match body
    case NotJson => Err(InvalidJson)
    case JsonBody(j) => Ok(j)
  }

  function LoginUrl(base: string): string {
    RStripSlash(base) + "/login"
  }

  function StatusUrl(base: string, vin: string): string {
    RStripSlash(base) + "/vehicles/" + vin + "/status"
  }

  /** The JSON body of the login POST: the credentials, and the pin only
      when it is set and non-empty. */
  function LoginBody(cfg: Config): (body: map<string, Json>)
    ensures "username" in body && body["username"] == JStr(cfg.username)
    ensures "password" in body && body["password"] == JStr(cfg.password)
    ensures "pin" in body <==> cfg.pin.Some? && |cfg.pin.value| > 0
    ensures "pin" in body ==> body["pin"] == JStr(cfg.pin.value)
    ensures body.Keys <= {"username", "password", "pin"}
  {
    var creds := map["username" := JStr(cfg.username), "password" := JStr(cfg.password)];
    if cfg.pin.Some? && |cfg.pin.value| > 0 then creds["pin" := JStr(cfg.pin.value)] else creds
  }

  function LoginRequest(cfg: Config, headers: map<string, string>): Request
    requires HasBaseUrl(cfg)
  {
    Request(Post, LoginUrl(cfg.baseUrl.value), headers, map[], Some(JObj(LoginBody(cfg))))
  }

  function StatusRequest(cfg: Config, headers: map<string, string>, vin: string): Request
    requires HasBaseUrl(cfg)
  {
    Request(Get, StatusUrl(cfg.baseUrl.value, vin), headers, map[], None)
  }

  /** What the answer to the login POST yields: the access token, or the
      exception raised. A token is accepted only from a response that
      passes `raise_for_status`, decodes to an object and holds a truthy
      `access_token`. */
  function TokenFrom(o: Outcome): (r: Result<Json, ClientError>)
    ensures r.Ok? <==>
              o.Response? && RequestsStatusOk(o.status) && o.body.JsonBody? && o.body.value.JObj?
              && "access_token" in o.body.value.fields && Truthy(o.body.value.fields["access_token"])
    ensures r.Ok? ==> r.value == o.body.value.fields["access_token"] && Truthy(r.value)
    ensures r.Err? ==> (IsMyBlueLinkError(r.error) <==>
                        o.Response? && (!o.body.JsonBody? || o.body.value.JObj? || !RequestsStatusOk(o.status)))
  {
    match o
    case NetworkFailure => Err(LoginTransport)
    case Response(status, body) =>
      if !RequestsStatusOk(status) then Err(LoginHttp(status))
      else
        match SafeJson(body)
        case Err(e) => Err(e)
        case Ok(data) =>
          if !data.JObj? then Err(LoginNotAnObject)
          else
            var token := DictGet(data.fields, "access_token", JNull);
            if !Truthy(token) then Err(NoAccessToken) else Ok(token)
  }

  /** The outcome of a real-mode login with the session headers given. */
  function RealLogin(cfg: Config, headers: map<string, string>, server: Server): Result<Json, ClientError> {
    if !HasBaseUrl(cfg) then Err(BaseUrlNotSet)
    else TokenFrom(server(LoginRequest(cfg, headers)))
  }

  /** The requests a login sends: none in the demo mode or without a base
      URL, otherwise the one POST. */
  function LoginRequests(cfg: Config, headers: map<string, string>): seq<Request> {
    if cfg.demoMode || !HasBaseUrl(cfg) then [] else [LoginRequest(cfg, headers)]
  }

  /** What the answer to the status GET yields: the decoded JSON as it is,
      with every failure wrapped as a MyBlueLinkError. */
  function StatusFrom(o: Outcome): (r: Result<Json, ClientError>)
    ensures r.Ok? <==> o.Response? && RequestsStatusOk(o.status) && o.body.JsonBody?
    ensures r.Ok? ==> r.value == o.body.value
    ensures r.Err? ==> IsMyBlueLinkError(r.error)
  {
    match o
    case NetworkFailure => Err(StatusTransport)
    case Response(status, body) =>
      if !RequestsStatusOk(status) then Err(StatusHttp(status)) else SafeJson(body)
  }

  /** The fixed status the demo mode answers with; only `vin` varies. */
  function DemoPayload(vin: string): (r: Json)
    ensures r.JObj? && "vin" in r.fields && r.fields["vin"] == JStr(vin)
  {
    JObj(map[
      "vin" := JStr(vin),
      "timestamp_utc" := JStr("2025-01-01T12:00:00Z"),
      "odometer_km" := JFloat(123456, 1),
      "battery_level_percent" := JFloat(820, 1),
      "battery_range_km" := JFloat(3100, 1),
      "is_charging" := JBool(false),
      "doors_locked" := JBool(true),
      "climate_on" := JBool(false),
      "raw_payload" := JObj(map[
        "source" := JStr("demo"),
        "note" := JStr("Statut simulé par MyBlueLinkClient en mode DEMO.")])])
  }

  class Client {
    const config: Config
    var loggedIn: bool
    var accessToken: Option<Json>
    var headers: map<string, string>
    var sent: seq<Request>

    /** The session keeps its identifying headers; a stored token is truthy,
        sent as the bearer header, and only ever held while logged in; in
        the real mode a logged-in client has its token and a base URL. */
    ghost predicate Valid()
      reads this
    {
      "User-Agent" in headers && headers["User-Agent"] == UserAgent
      && "Accept" in headers && headers["Accept"] == AcceptAny
      && (accessToken.Some? ==>
            loggedIn && Truthy(accessToken.value)
            && "Authorization" in headers && headers["Authorization"] == Bearer(accessToken.value))
      && (loggedIn && !config.demoMode ==> accessToken.Some? && HasBaseUrl(config))
    }

    /** A fresh client is logged out, holds no token and has sent nothing. */
    constructor(config: Config)
      ensures Valid()
      ensures this.config == config
      ensures !loggedIn && accessToken == None && headers == SessionHeaders && sent == []
    {
      this.config := config;
      loggedIn := false;
      accessToken := None;
      headers := SessionHeaders;
      sent := [];
    }

    /** `login()`. The demo mode only marks the client logged in. The real
        mode posts the credentials; on success it stores the token, sets
        the bearer header and marks the client logged in, and on any
        failure it changes none of the three. */
    method Login(server: Server) returns (r: Result<(), ClientError>)
      requires Valid()
      modifies this
      ensures Valid()
      ensures sent == old(sent) + LoginRequests(config, old(headers))
      ensures config.demoMode ==>
                r.Ok? && loggedIn && accessToken == old(accessToken) && headers == old(headers)
      ensures !config.demoMode && RealLogin(config, old(headers), server).Err? ==>
                r == Err(RealLogin(config, old(headers), server).error)
                && loggedIn == old(loggedIn) && accessToken == old(accessToken) && headers == old(headers)
      ensures !config.demoMode && RealLogin(config, old(headers), server).Ok? ==>
                r.Ok? && loggedIn
                && accessToken == Some(RealLogin(config, old(headers), server).value)
                && headers == old(headers)["Authorization" := Bearer(RealLogin(config, old(headers), server).value)]
    {
      if config.demoMode {
        loggedIn := true;
        return Ok(());
      }
      if !HasBaseUrl(config) {
        return Err(BaseUrlNotSet);
      }
      var request := LoginRequest(config, headers);
      sent := sent + [request];
      var token := TokenFrom(server(request));
      if token.Err? {
        return Err(token.error);
      }
      accessToken := Some(token.value);
      headers := headers["Authorization" := Bearer(token.value)];
      loggedIn := true;
      r := Ok(());
    }

    /** `_ensure_logged_in()`: nothing when already logged in, otherwise
        the demo shortcut or a real login. */
    method EnsureLoggedIn(server: Server) returns (r: Result<(), ClientError>)
      requires Valid()
      modifies this
      ensures Valid()
      ensures r.Ok? ==> loggedIn
      ensures old(loggedIn) ==>
                r.Ok? && sent == old(sent) && accessToken == old(accessToken) && headers == old(headers)
      ensures !old(loggedIn) ==> sent == old(sent) + LoginRequests(config, old(headers))
      ensures !old(loggedIn) && config.demoMode ==>
                r.Ok? && accessToken == old(accessToken) && headers == old(headers)
      ensures !old(loggedIn) && !config.demoMode && RealLogin(config, old(headers), server).Err? ==>
                r == Err(RealLogin(config, old(headers), server).error)
                && !loggedIn && accessToken == old(accessToken) && headers == old(headers)
      ensures !old(loggedIn) && !config.demoMode && RealLogin(config, old(headers), server).Ok? ==>
                r.Ok? && accessToken == Some(RealLogin(config, old(headers), server).value)
                && headers == old(headers)["Authorization" := Bearer(RealLogin(config, old(headers), server).value)]
    {
      if loggedIn {
        return Ok(());
      }
      if config.demoMode {
        loggedIn := true;
        return Ok(());
      }
      r := Login(server);
    }

    /** `get_realtime_status(vin)`: login first; then the demo payload, or
        the decoded answer of the status endpoint sent with the session's
        headers, bearer token included. */
    method GetRealtimeStatus(vin: string, server: Server) returns (r: Result<Json, ClientError>)
      requires Valid()
      modifies this
      ensures Valid()
      ensures config.demoMode ==>
                r == Ok(DemoPayload(vin)) && loggedIn && sent == old(sent)
                && accessToken == old(accessToken) && headers == old(headers)
      ensures !config.demoMode && !old(loggedIn) && RealLogin(config, old(headers), server).Err? ==>
                r == Err(RealLogin(config, old(headers), server).error)
                && sent == old(sent) + LoginRequests(config, old(headers))
                && !loggedIn && accessToken == old(accessToken) && headers == old(headers)
      ensures !config.demoMode && (old(loggedIn) || RealLogin(config, old(headers), server).Ok?) ==>
                HasBaseUrl(config) && loggedIn
                && sent == old(sent) + (if old(loggedIn) then [] else LoginRequests(config, old(headers)))
                          + [StatusRequest(config, headers, vin)]
                && r == StatusFrom(server(StatusRequest(config, headers, vin)))
                && "Authorization" in headers && headers["Authorization"] == Bearer(accessToken.value)
      ensures !config.demoMode && old(loggedIn) ==>
                accessToken == old(accessToken) && headers == old(headers)
      ensures !config.demoMode && !old(loggedIn) && RealLogin(config, old(headers), server).Ok? ==>
                accessToken == Some(RealLogin(config, old(headers), server).value)
                && headers == old(headers)["Authorization" := Bearer(RealLogin(config, old(headers), server).value)]
    {
      var login := EnsureLoggedIn(server);
      if login.Err? {
        return Err(login.error);
      }
      if config.demoMode {
        return Ok(DemoPayload(vin));
      }
      var request := StatusRequest(config, headers, vin);
      sent := sent + [request];
      r := StatusFrom(server(request));
    }
  }

  // ---------------------------------------------------------------------
  // Properties
  // ---------------------------------------------------------------------

  /** Trailing slashes of the base URL do not change either URL. */
  lemma UrlsIgnoreTrailingSlash(base: string, vin: string)
    ensures LoginUrl(base + "/") == LoginUrl(base)
    ensures StatusUrl(base + "/", vin) == StatusUrl(base, vin)
  {
    assert (base + "/")[..|base|] == base;
  }

  /** The demo payload of two VINs differs only in its `vin` field. */
  lemma DemoPayloadEchoesVin(vin1: string, vin2: string)
    ensures DemoPayload(vin1).fields.Keys == DemoPayload(vin2).fields.Keys
    ensures forall k :: k in DemoPayload(vin1).fields && k != "vin" ==>
              DemoPayload(vin1).fields[k] == DemoPayload(vin2).fields[k]
  {
  }

  /** Which error a failed real login raises: without a base URL the
      MyBlueLinkError saying so, before any request; on a transport failure
      the requests exception itself, not wrapped. */
  lemma LoginErrorKinds(cfg: Config, headers: map<string, string>, server: Server)
    requires !cfg.demoMode && RealLogin(cfg, headers, server).Err?
    ensures !HasBaseUrl(cfg) ==> RealLogin(cfg, headers, server) == Err(BaseUrlNotSet)
    ensures HasBaseUrl(cfg) && server(LoginRequest(cfg, headers)).NetworkFailure? ==>
              !IsMyBlueLinkError(RealLogin(cfg, headers, server).error)
  {
  }
}
