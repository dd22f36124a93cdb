/** The asynchronous MyBlueLink client (`app/integrations/mybluelink_client.py`):
    a base URL and an API key read once at construction, two GET endpoints,
    and the extraction of the vehicle list from the response. After
    construction the client changes nothing, so it is a value. */
module AsyncClient {
  import opened PyJson
  import opened Nested
  import opened Http

  datatype Client = Client(baseUrl: string, apiKey: string)

  datatype AsyncError =
    | BaseUrlMissing            // RuntimeError raised by the constructor
    | TransportError            // httpx.RequestError
    | HttpStatusError(status: int)  // httpx.HTTPStatusError from raise_for_status()
    | NonJsonBody               // RuntimeError "Réponse non-JSON"
    | NotAnObject(at: string)   // AttributeError: `.get` on a value that is not a dict

  /** The constructor, given the `BLUELINK_BASE_URL` and `BLUELINK_API_KEY`
      settings (`None` when unset). The base URL loses its trailing slashes;
      one that is empty after that is refused. */
  function New(baseUrlSetting: Option<string>, apiKeySetting: Option<string>): (r: Result<Client, AsyncError>)
    ensures r.Ok? ==> |r.value.baseUrl| > 0 && r.value.baseUrl[|r.value.baseUrl| - 1] != '/'
    ensures r.Ok? ==> r.value.baseUrl <= baseUrlSetting.GetOr("")
    ensures r.Ok? ==> forall i :: |r.value.baseUrl| <= i < |baseUrlSetting.GetOr("")| ==> baseUrlSetting.GetOr("")[i] == '/'
    ensures r.Ok? ==> r.value.apiKey == apiKeySetting.GetOr("")
    ensures r.Err? <==> forall i :: 0 <= i < |baseUrlSetting.GetOr("")| ==> baseUrlSetting.GetOr("")[i] == '/'
    ensures r.Err? ==> r.error == BaseUrlMissing
  {
    var base := RStripSlash(baseUrlSetting.GetOr(""));
    if |base| == 0 then Err(BaseUrlMissing)
    else Ok(Client(base, apiKeySetting.GetOr("")))
  }

  /** `_headers()`: always asks for JSON; sends a bearer token exactly when
      an API key is configured, and nothing else. */
  function Headers(c: Client): (h: map<string, string>)
    ensures "Accept" in h && h["Accept"] == "application/json"
    ensures "Authorization" in h <==> |c.apiKey| > 0
    ensures "Authorization" in h ==> h["Authorization"] == "Bearer " + c.apiKey
    ensures h.Keys <= {"Accept", "Authorization"}
  {
    var h := map["Accept" := "application/json"];
    if |c.apiKey| > 0 then h["Authorization" := "Bearer " + c.apiKey] else h
  }

  function VehiclesUrl(c: Client): string {
    c.baseUrl + "/vehicles"
  }

  function StatusUrl(c: Client, vin: string): string {
    c.baseUrl + "/vehicles/" + vin + "/status"
  }

  function ListVehiclesRequest(c: Client): Request {
    Request(Get, VehiclesUrl(c), Headers(c), map[], None)
  }

  function StatusRequest(c: Client, vin: string): Request {
    Request(Get, StatusUrl(c, vin), Headers(c), map[], None)
  }

  /** `raise_for_status()` followed by `resp.json()`, with the non-JSON
      body turned into a RuntimeError. */
  function Decode(o: Outcome): Result<Json, AsyncError> {
    match o
    case NetworkFailure => Err(TransportError)
    case Response(status, body) =>
      if !HttpxStatusOk(status) then Err(HttpStatusError(status))
      else match body
        case NotJson => Err(NonJsonBody)
        case JsonBody(j) => Ok(j)
  }

  /** `data.get("result", {}).get("vehicles", [])`. */
  function ExtractVehicles(data: Json): Result<Json, AsyncError> {
    if !data.JObj? then Err(NotAnObject("response"))
    else
      var result := DictGet(data.fields, "result", EmptyObject);
      if !result.JObj? then Err(NotAnObject("result"))
      else Ok(DictGet(result.fields, "vehicles", JArr([])))
  }

  /** `list_vehicles()` against a server. */
  function ListVehicles(c: Client, server: Server): Result<Json, AsyncError> {
    match Decode(server(ListVehiclesRequest(c)))
    case Err(e) => Err(e)
    case Ok(data) => ExtractVehicles(data)
  }

  /** `get_vehicle_status_by_vin(vin)` against a server. */
  function GetVehicleStatusByVin(c: Client, vin: string, server: Server): Result<Json, AsyncError> {
    Decode(server(StatusRequest(c, vin)))
  }

  // ---------------------------------------------------------------------
  // Properties
  // ---------------------------------------------------------------------

  /** A call succeeds exactly when the server answers 2xx with a JSON body,
      and then yields that body unchanged; every other answer is an error
      naming what went wrong. */
  lemma DecodeIff(o: Outcome)
    ensures Decode(o).Ok? <==> o.Response? && HttpxStatusOk(o.status) && o.body.JsonBody?
    ensures Decode(o).Ok? ==> Decode(o).value == o.body.value
    ensures o.NetworkFailure? ==> Decode(o) == Err(TransportError)
    ensures o.Response? && !HttpxStatusOk(o.status) ==> Decode(o) == Err(HttpStatusError(o.status))
    ensures o.Response? && HttpxStatusOk(o.status) && o.body.NotJson? ==> Decode(o) == Err(NonJsonBody)
  {
  }

  /** The status endpoint hands the decoded payload back as it is: no
      mapping happens in the client. */
  lemma StatusIsVerbatim(c: Client, vin: string, server: Server, status: int, payload: Json)
    requires server(StatusRequest(c, vin)) == Response(status, JsonBody(payload))
    requires 200 <= status < 300
    ensures GetVehicleStatusByVin(c, vin, server) == Ok(payload)
  {
    DecodeIff(server(StatusRequest(c, vin)));
  }

  /** The vehicle list is what `result.vehicles` leads to, or `[]` when
      the path is absent; it fails only when the response or its `result`
      is not an object. */
  lemma ExtractVehiclesWalk(data: Json)
    ensures ExtractVehicles(data).Err? <==>
              !data.JObj? || ("result" in data.fields && !data.fields["result"].JObj?)
    ensures ExtractVehicles(data).Ok? ==>
              ExtractVehicles(data).value == GetNested(data, ["result", "vehicles"], JArr([]))
  {
    WalkName(data, "result", ["vehicles"]);
    if data.JObj? && "result" in data.fields {
      WalkName(data.fields["result"], "vehicles", []);
      assert ["vehicles"] + [] == ["vehicles"];
    }
  }

  /** Different VINs are fetched from different URLs, and the VIN can be
      read back from the URL between the list prefix and `/status`. */
  lemma StatusUrlInjective(c: Client, vin1: string, vin2: string)
    requires StatusUrl(c, vin1) == StatusUrl(c, vin2)
    ensures vin1 == vin2
  {
    var n := |c.baseUrl| + |"/vehicles/"|;
    var u1 := StatusUrl(c, vin1);
    assert u1[n..n + |vin1|] == vin1;
    assert StatusUrl(c, vin2)[n..n + |vin2|] == vin2;
  }

  /** Both endpoints live under the configured base URL, and the status
      endpoint of a VIN lies under the vehicle list endpoint. */
  lemma UrlsUnderBase(c: Client, vin: string)
    ensures VehiclesUrl(c)[..|c.baseUrl|] == c.baseUrl
    ensures StatusUrl(c, vin)[..|VehiclesUrl(c)|] == VehiclesUrl(c)
    ensures StatusUrl(c, vin)[|VehiclesUrl(c)|] == '/'
  {
    assert StatusUrl(c, vin) == VehiclesUrl(c) + "/" + vin + "/status";
  }

  /** A base URL written with or without trailing slashes yields the same
      client, so the URLs never hold a doubled slash at the join. */
  lemma TrailingSlashesIgnored(base: string, key: Option<string>)
    requires New(Some(base), key).Ok?
    ensures New(Some(base + "/"), key) == New(Some(base), key)
  {
    assert (base + "/")[..|base|] == base;
  }
}
