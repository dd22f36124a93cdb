# Vehicle telematics backend: a Dafny model

This project models the core of a small vehicle-tracking backend and of its
web front end. The backend keeps a table of vehicles and, for each vehicle, a
history of status snapshots (battery level, charging and plug state, range,
remaining charge time, position, odometer, raw provider payload). Snapshots
come from the Hyundai/Kia "MyBlueLink" cloud. Three clients reach that cloud:

- a synchronous client configured from environment variables, with a demo
  mode that answers without any network call;
- an asynchronous client used by the sync service;
- a telematics provider that keeps a session token and re-verifies it.

The model covers:

- the nested-path lookup `_get_nested`;
- the two normalisers that turn a provider payload into a status record;
- the vehicle and status store, and the sync service;
- the three clients, with their configuration, headers, URLs, login and
  error handling;
- the front end's formatting of booleans, minutes, battery level and vehicle
  labels, and its map-link condition applied to stored status records.

Modules:

- `PyJson` (json.dfy): JSON values as Python sees them (truthiness, `dict.get`, `int()`, `str()`, `strip`, `lower`).
- `Nested` (nested.dfy): `_get_nested`, as a function and as the source's loop.
- `Normalizer` (normalizer.dfy): the refresh normaliser and the payload mapper.
- `Http` (http.dfy): requests, outcomes and the server as a function. The two libraries' `raise_for_status` rules: `requests` fails on 400–599, `httpx` accepts only 2xx.
- `AsyncClient` (async_client.dfy): the `httpx`-based client.
- `VehicleStore` (store.dfy): the tables as a class, the CRUD operations and sync.
- `BlueLinkConfig` (config.dfy): `from_env` and the constructor's merge of explicit arguments.
- `BlueLinkClient` (client.dfy): the synchronous client as a class (login state, headers, the requests sent).
- `HyundaiKia` (hyundai.dfy): the telematics provider as a class.
- `Display` (display.dfy): the front end's formatting. Each formatter has a reader, and the round trip is proved.

No request is sent: the network is a function `Server` from requests to
outcomes, passed as a parameter. The environment is a `map<string, string>`.
Each class records the requests it has sent in a `sent` sequence, so
contracts can say exactly which calls an operation makes.

Where the written description of the system and the code disagree, the model
follows the code:

- The refresh normaliser reads latitude and longitude independently from
  `lastLocation.coord` (`Normalizer.RefreshCoordinates`). A payload with only
  one of the two keeps that one and leaves the other `None`; the pair is not
  dropped as a whole.
- The refresh normaliser stores 0 for a missing battery level, range or
  charge time, where the mapper stores `None` (`Normalizer.AbsentVersusZero`).

## Model

| member | source | states |
|---|---|---|
| Nested.GetNested | app/services/vehicles.py:94-121 | An empty path returns the input; any result other than the default is the value found by walking the path |
| Nested.GetNestedLoop | app/services/vehicles.py:102-121 | The source's loop over the path (dict key, list index, otherwise the default) computes exactly `GetNested` |
| Nested.WalkAppend | app/services/vehicles.py:102-121 | Walking `p + q` is walking `p`, then `q` from where `p` ended |
| Nested.NullAndScalarStops | app/services/vehicles.py:117-121 | Reaching `None` returns `None`; any further step from a scalar yields the default |
| Nested.BadListIndex | app/services/vehicles.py:109-116 | A list step whose key is not a non-negative integer (or is out of range) yields the default |
| Nested.DefaultOnlyWhenAbsent | app/services/vehicles.py:94-121 | The default is returned exactly when the path is absent; otherwise the result does not depend on it |
| Nested.FalsyHasNoChildren | app/services/vehicles.py:105-121 | No path of length ≥ 1 leads anywhere from a falsy value or from `{}` |
| Nested.NameIsNoIndex | app/services/vehicles.py:109-112 | A key whose first character is neither blank, digit nor sign is refused by `int()`, so it never indexes a list |
| PyJson.IntToString | frontend-react/src/App.tsx:36-40 | Rendering of an integer: non-empty, no blank, sign or digit first, digit last |
| PyJson.RStripSlash | app/integrations/mybluelink_client.py:20 | `rstrip("/")`: a prefix of the input, only slashes removed, no trailing slash left |
| PyJson.Lower | app/integrations/mybluelink/client.py:75 | `lower()`: same length, each character lowered |
| PyJson.ParseIntRoundTrip | app/services/vehicles.py:143-146 | `int()` reads back the decimal rendering of every integer: `int(str(n)) == n` |
| PyJson.IntToStringInjective | frontend-react/src/App.tsx:36-40 | Different integers render differently |
| PyJson.PyIntCoercion | app/services/vehicles.py:139-146 | `int()` of a numeral string, an int or `True` succeeds; of a list, dict or `None` fails |
| Normalizer.RefreshRecord | app/services/vehicles.py:124-215 | The record belongs to the vehicle and keeps the payload; battery, range and minutes are always set; odometer is never set |
| Normalizer.RefreshBattery | app/services/vehicles.py:139-146 | Battery is `batteryStatus`, or its `value` when it is a dict, converted with `int()`, and 0 when absent or unconvertible |
| Normalizer.RefreshPluggedIff | app/services/vehicles.py:152-157 | Plugged exactly when `batteryPlugin` is present and converts to 1 |
| Normalizer.RefreshChargingIff | app/services/vehicles.py:149 | Charging exactly when `batteryCharge` is truthy |
| Normalizer.RefreshMinutes | app/services/vehicles.py:160-169 | Minutes are `remainTime2.etc1.value`, or 0 |
| Normalizer.RefreshRange | app/services/vehicles.py:173-181 | Range is `dte.rangeByFuel`, or 0 |
| Normalizer.RefreshCoordinates | app/services/vehicles.py:185-192 | Latitude and longitude are `lastLocation.coord.lat` and `.lon`, or `None` when absent |
| Normalizer.MapPayload | app/services/vehicles.py:218-294 | An accepted payload gives a record of that vehicle with the raw payload; position and odometer are `None` |
| Normalizer.MapFailsIff | app/services/vehicles.py:226-246 | The mapper fails exactly when the payload, a present `result` or `result.status`, or a truthy `evStatus` is not a dict |
| Normalizer.MapBatteryPriority | app/services/vehicles.py:231-239 | Battery is `battery.batSoc` when present and non-null, else `evStatus.batteryStatus`, each via `int()` |
| Normalizer.MapNumbersAbsent | app/services/vehicles.py:254-276 | Range and minutes are the values at their paths converted by `int()`, `None` when absent |
| Normalizer.MapBooleans | app/services/vehicles.py:242-251 | Charging and plugged are the truthiness of `batteryCharge` and `batteryPlugin` |
| Normalizer.AbsentVersusZero | app/services/vehicles.py:160-169 | For a missing charge time, the mapper stores `None` and the refresh path stores 0 |
| Normalizer.ExampleRefreshRecord | app/services/vehicles.py:124-215 | The record the refresh path builds for a sample payload |
| Normalizer.ExampleMapRecord | app/services/vehicles.py:218-294 | The record the mapper builds for the same sample payload |
| Normalizer.MapShapeRest | app/services/vehicles.py:218-294 | The mapper's record for every payload of the sample's shape |
| AsyncClient.New | app/integrations/mybluelink_client.py:18-26 | The base URL is the setting without trailing slashes; construction fails exactly when nothing else is left |
| AsyncClient.Headers | app/integrations/mybluelink_client.py:28-39 | JSON `Accept` always; a bearer `Authorization` exactly when an API key is set; nothing else |
| AsyncClient.DecodeIff | app/integrations/mybluelink_client.py:61-78 | A call succeeds exactly on a 2xx JSON response; each failure is classified as transport, status or body |
| AsyncClient.StatusIsVerbatim | app/integrations/mybluelink_client.py:61-78 | The status payload is returned unchanged |
| AsyncClient.ExtractVehiclesWalk | app/integrations/mybluelink_client.py:41-59 | The list is `result.vehicles`, or `[]` when absent; it fails exactly when the response, or a present `result`, is not a dict |
| AsyncClient.StatusUrlInjective | app/integrations/mybluelink_client.py:65 | Different VINs address different status URLs |
| AsyncClient.UrlsUnderBase | app/integrations/mybluelink_client.py:45-65 | Both URLs extend the base URL; the status URL extends the vehicles URL |
| AsyncClient.TrailingSlashesIgnored | app/integrations/mybluelink_client.py:20 | A trailing slash on the base URL setting changes nothing |
| VehicleStore.FindVehicle | app/services/vehicles.py:39-43 | The vehicle found has that id; none is found exactly when no vehicle has it |
| VehicleStore.ActiveVehicles | app/services/vehicles.py:32-36 | Exactly the active vehicles, no more than the table |
| VehicleStore.Store.constructor | app/db/models/vehicle.py:10-46 | Empty tables |
| VehicleStore.Store.CreateVehicle | app/services/vehicles.py:16-29 | A new active vehicle with a larger id, refused exactly when its external id or VIN is taken |
| VehicleStore.Store.ListVehicles | app/services/vehicles.py:32-36 | Returns the active vehicles |
| VehicleStore.Store.GetVehicle | app/services/vehicles.py:39-43 | Returns the vehicle with that id, if any |
| VehicleStore.Store.CreateStatus | app/services/vehicles.py:58-75 | Appends a row for an existing vehicle with the given fields; refuses an unknown vehicle and changes nothing |
| VehicleStore.Store.ListStatuses | app/services/vehicles.py:78-91 | Returns the vehicle's history, newest first |
| VehicleStore.Store.GetLatestStatus | app/services/vehicles.py:329-339 | Returns the head of the vehicle's history |
| VehicleStore.Store.RefreshStatusFromMyBlueLink | app/services/vehicles.py:124-215 | Appends exactly the refresh record of the payload |
| VehicleStore.Store.SyncVehicleStatus | app/services/vehicles.py:300-326 | Fails before any call without a vehicle or VIN; otherwise appends the mapped record exactly when the sync record succeeds |
| VehicleStore.HistoryMembers | app/services/vehicles.py:78-91 | A row is in a vehicle's history exactly when it is stored and belongs to that vehicle |
| VehicleStore.HistoryNewestFirst | app/services/vehicles.py:85-90 | Ids strictly decrease along the history |
| VehicleStore.LatestIsNewest | app/services/vehicles.py:46-55 | The latest status is the vehicle's row with the greatest id; there is none exactly when the vehicle has no row |
| VehicleStore.LatestAfterAppend | app/services/vehicles.py:318-326 | Right after a row is stored, it is its vehicle's latest status |
| VehicleStore.HistoryAppend | app/services/vehicles.py:58-91 | A new row heads its own vehicle's history; other histories are unchanged |
| VehicleStore.FindVehicleAppend | app/services/vehicles.py:16-43 | Adding a vehicle does not change what an existing id finds |
| VehicleStore.SyncStopsBeforeFetch | app/services/vehicles.py:311-315 | With no vehicle or no VIN, sync fails whatever the server would answer |
| VehicleStore.SyncRecordIff | app/services/vehicles.py:300-326 | Sync succeeds exactly on a VIN, a 2xx JSON answer and an accepted payload; the record is the mapper's |
| BlueLinkConfig.NoneIfEmpty | app/integrations/mybluelink/client.py:86 | `strip() or None`: `None` exactly for the empty string |
| BlueLinkConfig.DemoModeFor | app/integrations/mybluelink/client.py:103-114 | Real mode exactly when enabled and the implementation is `python` |
| BlueLinkConfig.Decide | app/integrations/mybluelink/client.py:116-137 | In real mode, missing credentials come before a missing base URL; otherwise the configuration carries the values read |
| BlueLinkConfig.Merge | app/integrations/mybluelink/client.py:181-197 | A non-empty explicit argument overrides the environment's value; mode and implementation come from the environment |
| BlueLinkConfig.ResolveConfig | app/integrations/mybluelink/client.py:181-197 | A given configuration is used as is; otherwise the environment's, with any error it raises |
| BlueLinkConfig.EmptyEnvironment | app/integrations/mybluelink/client.py:66-137 | With none of the variables set: enabled, `mock`, demo mode, empty credentials |
| BlueLinkConfig.SwitchedOff | app/integrations/mybluelink/client.py:75-76 | ` Off\n` disables the integration (strip, lower, then the false words) |
| BlueLinkConfig.SwitchedOn | app/integrations/mybluelink/client.py:75-76 | ` Yes ` enables it |
| BlueLinkConfig.PythonSelected | app/integrations/mybluelink/client.py:78 | `python` selects the real implementation |
| BlueLinkConfig.BlankPasswordIsMissing | app/integrations/mybluelink/client.py:84-122 | A blank password is empty after strip, and in real mode raises the credentials error |
| BlueLinkConfig.MissingBaseUrlRefused | app/integrations/mybluelink/client.py:123-127 | Real mode with credentials but no base URL raises the base URL error |
| BlueLinkClient.SafeJson | app/integrations/mybluelink/client.py:224-235 | Succeeds exactly on a JSON body, which it returns; otherwise a client error |
| BlueLinkClient.LoginBody | app/integrations/mybluelink/client.py:278-285 | Username and password always; `pin` exactly when a non-empty PIN is set |
| BlueLinkClient.TokenFrom | app/integrations/mybluelink/client.py:287-306 | Login succeeds exactly on a successful JSON answer with a truthy `access_token`, which is the token |
| BlueLinkClient.StatusFrom | app/integrations/mybluelink/client.py:351-367 | The status succeeds exactly on a JSON answer outside 400–599, returned as is; every failure, network ones included, is a client error |
| BlueLinkClient.DemoPayload | app/integrations/mybluelink/client.py:324-338 | The demo payload is an object that echoes the VIN |
| BlueLinkClient.DemoPayloadEchoesVin | app/integrations/mybluelink/client.py:324-338 | Demo payloads for two VINs differ only in `vin` |
| BlueLinkClient.Client.constructor | app/integrations/mybluelink/client.py:199-211 | Not logged in, no token, the base headers, nothing sent |
| BlueLinkClient.Client.Login | app/integrations/mybluelink/client.py:258-306 | Demo mode logs in without a call; otherwise one POST, and on success the token and the `Authorization` header; on failure nothing changes |
| BlueLinkClient.Client.EnsureLoggedIn | app/integrations/mybluelink/client.py:237-252 | Does nothing when logged in; otherwise logs in |
| BlueLinkClient.Client.GetRealtimeStatus | app/integrations/mybluelink/client.py:308-367 | Demo payload without a call in demo mode; otherwise logs in if needed, then one authorised GET whose outcome is `StatusFrom`. The token and headers are kept when already logged in, and are the login's otherwise |
| BlueLinkClient.UrlsIgnoreTrailingSlash | app/integrations/mybluelink/client.py:276-349 | A trailing slash on the base URL does not change the URLs |
| BlueLinkClient.LoginErrorKinds | app/integrations/mybluelink/client.py:271-306 | A failed real login is a missing base URL, a network error or a refused answer |
| HyundaiKia.AuthHeader | app/services/telematics/hyundai_kia.py:36-37 | No header without a token; otherwise only `Authorization: Bearer <token>` |
| HyundaiKia.JsonFrom | app/services/telematics/hyundai_kia.py:81-93 | Succeeds exactly on a 2xx JSON answer, returned unchanged |
| HyundaiKia.TokenFrom | app/services/telematics/hyundai_kia.py:50-55 | Login succeeds on a 2xx JSON object; the token is its `token` entry or `None` |
| HyundaiKia.VerifyFrom | app/services/telematics/hyundai_kia.py:57-67 | The token is valid exactly on status 200; only a transport failure is an error |
| HyundaiKia.Provider.constructor | app/services/telematics/hyundai_kia.py:26-31 | The credentials given, no token, nothing sent |
| HyundaiKia.Provider.Login | app/services/telematics/hyundai_kia.py:39-55 | One POST; the token is kept on success and unchanged on failure |
| HyundaiKia.Provider.VerifyToken | app/services/telematics/hyundai_kia.py:57-67 | False without a call when there is no token; otherwise one authorised POST, judged by `VerifyFrom` |
| HyundaiKia.Provider.EnsureSession | app/services/telematics/hyundai_kia.py:69-76 | Follows `EnsureSessionSpec`: requests, token and outcome |
| HyundaiKia.Provider.RealtimeStatusRaw | app/services/telematics/hyundai_kia.py:81-93 | Ensures the session, then one GET with the session's header, decoded by `JsonFrom` |
| HyundaiKia.Provider.FetchLatestStatus | app/services/telematics/hyundai_kia.py:95-118 | The session's requests, then one status request, exactly as `RealtimeStatusRaw` sends them; the raw status is wrapped as a record that keeps the payload |
| HyundaiKia.EnsureSessionLogsInIff | app/services/telematics/hyundai_kia.py:69-76 | Logs in exactly when there is no token or the token fails verification |
| HyundaiKia.EnsureSessionRequests | app/services/telematics/hyundai_kia.py:69-76 | Login alone without a token; verification first otherwise |
| HyundaiKia.EnsureSessionToken | app/services/telematics/hyundai_kia.py:69-76 | The token changes only through a successful login |
| HyundaiKia.MissingTokenField | app/services/telematics/hyundai_kia.py:36-91 | A login answer without `token` leaves the session tokenless, and the status call goes out unauthorised |
| HyundaiKia.EndpointsDistinct | app/services/telematics/hyundai_kia.py:24-93 | The three endpoints are different URLs |
| Display.FormatBoolean | frontend-react/src/App.tsx:28-32 | "Oui" exactly for true, "Non" exactly for false, a dash exactly for no value |
| Display.FormatMinutes | frontend-react/src/App.tsx:34-41 | A dash exactly for no value |
| Display.FormatMinutesRoundTrip | frontend-react/src/App.tsx:34-41 | Reading the rendered text back gives the value: "N min", "H h" and "H h M min" are unambiguous |
| Display.HoursForm | frontend-react/src/App.tsx:37-40 | Above an hour, hours ≥ 1 and 0 < minutes < 60 add back up to the value |
| Display.HoursMinutesRendering | frontend-react/src/App.tsx:37-40 | Above an hour and not whole, the text is hours, "h", the remainder and "min" |
| Display.FormatBattery | frontend-react/src/App.tsx:436-438 | A dash exactly when there is no level; never empty |
| Display.FormatBatteryRoundTrip | frontend-react/src/App.tsx:436-438 | The percentage text reads back to the level |
| Display.VehicleLabel | frontend-react/src/App.tsx:288 | The first filled of nickname, VIN and external id, else `#` and the id |
| Display.FallbackLabelsDistinct | frontend-react/src/App.tsx:288 | Two unnamed vehicles (no nickname, VIN or external id) get the same `#id` label only when their ids are equal |
| Display.RefreshMapLink | frontend-react/src/App.tsx:501-502 | A stored refresh record satisfies the link condition exactly when both coordinates were found |
| Display.MappedStatusHasNoLink | frontend-react/src/App.tsx:501-502 | A record stored by sync never satisfies the link condition, since the mapper sets no position |

## Left out

- HTTP transport, timeouts, TLS, logging and the database session (`commit`, `refresh`) are left out. The network is a `Server` function; the tables are sequences.
- The synchronous client's session headers hold only the two headers the client sets (`User-Agent`, `Accept`). The library defaults a `requests.Session` adds, such as `Accept-Encoding` and `Connection`, are left out.
- Concurrency and async scheduling are left out: the async client's `await` calls are modelled as plain calls.
- VehicleStore.Store.CreateVehicle: the source passes `name=` to a model whose column is `nickname`. The ORM would reject that keyword; the model stores the name as the nickname.
- VehicleStore.Store.CreateStatus: the source passes `doors_locked`, for which the status table has no column. The ORM would reject it; the model drops it.
- The status-creation schema the provider returns is not part of this model's sources; it is modelled as a record carrying the raw payload.
- The provider's default settings object has no MyBlueLink credential attributes. The model passes the credentials to the constructor.
- Normalizer.MapPayload: `_map_bluelink_payload_to_vehicle_status` raises `AttributeError` when the payload, a present `result` or `result.status`, or a truthy `evStatus` (`ev.get` at lines 242-246) is not a dict; the model returns `Err`, and `MapFailsIff` gives the exact condition.
- The refresh path keeps `json.dumps(payload)` as the raw payload; the model keeps the JSON value itself, not its text.
- Floating-point numbers are kept as exact decimals (digits and a power-of-ten scale). Binary rounding is not modelled; `int()` of such a value truncates toward zero, as Python's does. Non-finite values (`NaN`, `Infinity`), which Python's `json` accepts, are not modelled: `int()` raises `ValueError` on `NaN`, which the refresh path turns into 0, and `OverflowError` on an infinity, which it does not catch.
- PyJson.ParseInt accepts an optional sign and ASCII digits around blanks; Python's `int()` also accepts underscores and non-ASCII digits, which are not modelled.
- PyJson.Lower lowers ASCII letters only.
- PyJson.Strip removes only the six ASCII blanks that `int()` skips: space, tab, line feed, vertical tab, form feed and carriage return. Python's `str.strip()` also removes U+001C to U+001F, which `int()` rejects. Both also skip non-ASCII whitespace such as U+0085 and U+00A0. None of these is modelled.
- PyJson.PyStr renders integers, strings, booleans and `None`; for floats, lists and dicts it returns the empty string.
- BlueLinkConfig.FromEnv has no contract of its own. Its behaviour is stated by `Decide`, `DemoModeFor`, `NoneIfEmpty` and the environment lemmas.
- There is no retry, no locking, and no token invalidation on a 401 answer, because the source has none.
- VehicleStore.History: the source orders a vehicle's statuses by the `timestamp` column, newest first (app/services/vehicles.py:53, 88, 337). The model orders them by row id, so the two agree only while timestamps strictly increase with insertion. Ties between `datetime.utcnow` values, and a clock that steps back, are not modelled.
- The database's unique and foreign-key constraints are modelled. Column lengths such as the VIN length are not.
- Display.FormatMinutes models integer minutes only. For values of 60 and above, JavaScript's `Math.floor` and `%` agree with Dafny's `/` and `%`. Fractional minutes are not modelled.
- The React state handling, fetch calls and markup of the front end are not modelled; only the formatting functions and display conditions are.
- The API's status response schema (`VehicleStatusRead`, app/schemas/vehicle.py:49-58) has no `latitude` or `longitude`, so the dashboard never receives coordinates and never shows the map link. The model applies the link condition to the stored records instead. The API layer and its serialisation are not modelled.
- The vehicle list of the async client is returned as JSON; its entries are not typed.
