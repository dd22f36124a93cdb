/** The persistence side of the vehicles service (`app/services/vehicles.py`),
    with the database replaced by an in-memory store: two append-only tables
    of vehicles and of status rows, whose ids grow with every insertion. The
    constraints of the schema that the service runs into are kept: unique
    external ids and VINs, and a status row must name an existing vehicle. */
module VehicleStore {
  import opened PyJson
  import opened Http
  import opened Normalizer
  import AsyncClient

  /** A row of `vehicles`; `name` given at creation is kept as the nickname. */
  datatype Vehicle = Vehicle(
    id: int,
    externalId: Option<string>,
    vin: Option<string>,
    nickname: Option<string>,
    isActive: bool)

  /** A row of `vehicle_status`: its id (the insertion order) and its columns. */
  datatype StatusRow = StatusRow(id: int, record: StatusRecord)

  /** The integrity errors the database raises on an insertion. */
  datatype StoreError =
    | DuplicateKey          // unique constraint on external_id or vin
    | UnknownVehicle(vehicleId: int)  // foreign key of vehicle_status

  /** The errors of `sync_vehicle_status_from_bluelink`. */
  datatype SyncError =
    | VehicleNotFound(vehicleId: int)
    | NoVin(vehicleId: int)
    | Fetch(fetchError: AsyncClient.AsyncError)
    | Mapping(mapError: MapError)

  // ---------------------------------------------------------------------
  // Queries, as functions of the tables
  // ---------------------------------------------------------------------

  /** `filter(Vehicle.id == vehicle_id).first()`. */
  function FindVehicle(vs: seq<Vehicle>, id: int): (r: Option<Vehicle>)
    ensures r.Some? ==> r.value in vs && r.value.id == id
    ensures r.None? <==> forall i :: 0 <= i < |vs| ==> vs[i].id != id
  {
    if |vs| == 0 then None
    else if vs[0].id == id then Some(vs[0])
    else FindVehicle(vs[1..], id)
  }

  /** `filter(Vehicle.is_active == True).all()`, in table order. */
  function ActiveVehicles(vs: seq<Vehicle>): (r: seq<Vehicle>)
    ensures forall v :: v in r <==> v in vs && v.isActive
    ensures |r| <= |vs|
  {
    if |vs| == 0 then []
    else
      var rest := ActiveVehicles(vs[1..]);
      if vs[0].isActive then [vs[0]] + rest else rest
  }

  /** The status rows of one vehicle, newest first: the rows filtered by
      `vehicle_id`, in the reverse of their insertion order. */
  function History(rows: seq<StatusRow>, vehicleId: int): seq<StatusRow>
    decreases |rows|
  {
    if |rows| == 0 then []
    else
      var last := rows[|rows| - 1];
      var older := History(rows[..|rows| - 1], vehicleId);
      if last.record.vehicleId == vehicleId then [last] + older else older
  }

  /** The head of the history, if any: `get_latest_status`. */
  function Latest(rows: seq<StatusRow>, vehicleId: int): Option<StatusRow> {
    var h := History(rows, vehicleId);
    if |h| == 0 then None else Some(h[0])
  }

  predicate IncreasingIds(rows: seq<StatusRow>) {
    forall i, j :: 0 <= i < j < |rows| ==> rows[i].id < rows[j].id
  }

  predicate ExternalIdTaken(vs: seq<Vehicle>, externalId: string) {
    exists i :: 0 <= i < |vs| && vs[i].externalId == Some(externalId)
  }

  predicate VinTaken(vs: seq<Vehicle>, vin: string) {
    exists i :: 0 <= i < |vs| && vs[i].vin == Some(vin)
  }

  /** No two vehicles share a non-null external id or VIN. */
  predicate UniqueKeys(vs: seq<Vehicle>) {
    forall i, j :: 0 <= i < j < |vs| ==>
      (vs[i].externalId.None? || vs[i].externalId != vs[j].externalId) &&
      (vs[i].vin.None? || vs[i].vin != vs[j].vin)
  }

  /** The VIN sync fetches for a vehicle id, or why it stops before any
      call to the provider: no such vehicle, or a null or empty VIN. */
  function VinToFetch(vs: seq<Vehicle>, vehicleId: int): Result<string, SyncError> {
    match FindVehicle(vs, vehicleId)
    case None => Err(VehicleNotFound(vehicleId))
    case Some(v) =>
      if v.vin.None? || |v.vin.value| == 0 then Err(NoVin(vehicleId)) else Ok(v.vin.value)
  }

  /** The record sync builds: fetch the status of the VIN, then map it
      with `_map_bluelink_payload_to_vehicle_status`. */
  function SyncRecord(vs: seq<Vehicle>, vehicleId: int, client: AsyncClient.Client, server: Server)
    : Result<StatusRecord, SyncError>
  {
    match VinToFetch(vs, vehicleId)
    case Err(e) => Err(e)
    case Ok(vin) =>
      match AsyncClient.GetVehicleStatusByVin(client, vin, server)
      case Err(e) => Err(Fetch(e))
      case Ok(payload) =>
        match MapPayload(vehicleId, payload)
        case Err(e) => Err(Mapping(e))
        case Ok(rec) => Ok(rec)
  }

  // ---------------------------------------------------------------------
  // The store
  // ---------------------------------------------------------------------

  class Store {
    var vehicles: seq<Vehicle>
    var statuses: seq<StatusRow>
    var nextVehicleId: int
    var nextStatusId: int

    /** Ids grow with insertion and stay below the next id to hand out;
        keys are unique; every status row names a stored vehicle. */
    ghost predicate Valid()
      reads this
    {
      (forall i, j :: 0 <= i < j < |vehicles| ==> vehicles[i].id < vehicles[j].id)
      && (forall i :: 0 <= i < |vehicles| ==> vehicles[i].id < nextVehicleId)
      && UniqueKeys(vehicles)
      && IncreasingIds(statuses)
      && (forall i :: 0 <= i < |statuses| ==> statuses[i].id < nextStatusId)
      && (forall i :: 0 <= i < |statuses| ==> FindVehicle(vehicles, statuses[i].record.vehicleId).Some?)
    }

    constructor()
      ensures Valid()
      ensures vehicles == [] && statuses == []
    {
      vehicles := [];
      statuses := [];
      nextVehicleId := 1;
      nextStatusId := 1;
    }

    /** `create_vehicle`: a new active vehicle with a fresh id, unless its
        external id or VIN is already taken, in which case nothing changes. */
    method CreateVehicle(externalId: string, name: string, vin: string) returns (r: Result<Vehicle, StoreError>)
      requires Valid()
      modifies this
      ensures Valid()
      ensures statuses == old(statuses)
      ensures r.Err? <==> ExternalIdTaken(old(vehicles), externalId) || VinTaken(old(vehicles), vin)
      ensures r.Err? ==> r.error == DuplicateKey && vehicles == old(vehicles)
      ensures r.Ok? ==> vehicles == old(vehicles) + [r.value]
      ensures r.Ok? ==> r.value.externalId == Some(externalId) && r.value.vin == Some(vin)
                        && r.value.nickname == Some(name) && r.value.isActive
      ensures r.Ok? ==> forall i :: 0 <= i < |old(vehicles)| ==> old(vehicles)[i].id < r.value.id
    {
      if ExternalIdTaken(vehicles, externalId) || VinTaken(vehicles, vin) {
        return Err(DuplicateKey);
      }
      var v := Vehicle(nextVehicleId, Some(externalId), Some(vin), Some(name), true);
      forall i | 0 <= i < |statuses|
        ensures FindVehicle(vehicles + [v], statuses[i].record.vehicleId).Some?
      {
        FindVehicleAppend(vehicles, v, statuses[i].record.vehicleId);
      }
      vehicles := vehicles + [v];
      nextVehicleId := nextVehicleId + 1;
      r := Ok(v);
    }

    /** `list_vehicles`: the active vehicles. */
    method ListVehicles() returns (vs: seq<Vehicle>)
      ensures vs == ActiveVehicles(vehicles)
    {
      vs := ActiveVehicles(vehicles);
    }

    /** `get_vehicle`. */
    method GetVehicle(vehicleId: int) returns (v: Option<Vehicle>)
      ensures v == FindVehicle(vehicles, vehicleId)
    {
      v := FindVehicle(vehicles, vehicleId);
    }

    /** `db.add`, `commit` and `refresh` of a status row: it gets the next id. */
    method Append(rec: StatusRecord) returns (row: StatusRow)
      requires Valid() && FindVehicle(vehicles, rec.vehicleId).Some?
      modifies this
      ensures Valid()
      ensures vehicles == old(vehicles)
      ensures statuses == old(statuses) + [row] && row.record == rec
      ensures forall i :: 0 <= i < |old(statuses)| ==> old(statuses)[i].id < row.id
    {
      row := StatusRow(nextStatusId, rec);
      statuses := statuses + [row];
      nextStatusId := nextStatusId + 1;
    }

    /** `create_status`: a row with the given battery level and odometer and
        every other column at its default; refused for an unknown vehicle. */
    method CreateStatus(vehicleId: int, batteryLevel: Option<int>, odometerKm: Option<Json>)
      returns (r: Result<StatusRow, StoreError>)
      requires Valid()
      modifies this
      ensures Valid() && vehicles == old(vehicles)
      ensures r.Err? <==> FindVehicle(vehicles, vehicleId).None?
      ensures r.Err? ==> r.error == UnknownVehicle(vehicleId) && statuses == old(statuses)
      ensures r.Ok? ==> statuses == old(statuses) + [r.value]
      ensures r.Ok? ==> r.value.record == StatusRecord(vehicleId, batteryLevel, false, false,
                                                       None, None, None, None, odometerKm, None)
    {
      if FindVehicle(vehicles, vehicleId).None? {
        return Err(UnknownVehicle(vehicleId));
      }
      var row := Append(StatusRecord(vehicleId, batteryLevel, false, false, None, None, None, None, odometerKm, None));
      r := Ok(row);
    }

    /** `list_statuses`: the history of one vehicle, newest first. */
    method ListStatuses(vehicleId: int) returns (rows: seq<StatusRow>)
      ensures rows == History(statuses, vehicleId)
    {
      rows := History(statuses, vehicleId);
    }

    /** `get_latest_status`. */
    method GetLatestStatus(vehicleId: int) returns (row: Option<StatusRow>)
      ensures row == Latest(statuses, vehicleId)
    {
      row := Latest(statuses, vehicleId);
    }

    /** `refresh_status_from_mybluelink`: appends the record the refresh
        mapping builds from the payload. */
    method RefreshStatusFromMyBlueLink(vehicle: Vehicle, payload: Json) returns (row: StatusRow)
      requires Valid() && vehicle in vehicles
      modifies this
      ensures Valid() && vehicles == old(vehicles)
      ensures statuses == old(statuses) + [row]
      ensures row.record == RefreshRecord(vehicle.id, payload)
    {
      FindVehicleIn(vehicles, vehicle);
      row := Append(RefreshRecord(vehicle.id, payload));
    }

    /** `sync_vehicle_status_from_bluelink`, against the client and the
        server given. `sent` lists the requests made to the provider. */
    method SyncVehicleStatus(vehicleId: int, client: AsyncClient.Client, server: Server)
      returns (r: Result<StatusRow, SyncError>, sent: seq<Request>)
      requires Valid()
      modifies this
      ensures Valid() && vehicles == old(vehicles)
      ensures VinToFetch(vehicles, vehicleId).Err? ==>
                r == Err(VinToFetch(vehicles, vehicleId).error) && sent == []
      ensures VinToFetch(vehicles, vehicleId).Ok? ==>
                sent == [AsyncClient.StatusRequest(client, VinToFetch(vehicles, vehicleId).value)]
      ensures r.Ok? <==> SyncRecord(vehicles, vehicleId, client, server).Ok?
      ensures r.Err? ==> r.error == SyncRecord(vehicles, vehicleId, client, server).error
                         && statuses == old(statuses)
      ensures r.Ok? ==> statuses == old(statuses) + [r.value]
                        && r.value.record == SyncRecord(vehicles, vehicleId, client, server).value
    {
      sent := [];
      var vehicle := FindVehicle(vehicles, vehicleId);
      if vehicle.None? {
        return Err(VehicleNotFound(vehicleId)), sent;
      }
      if vehicle.value.vin.None? || |vehicle.value.vin.value| == 0 {
        return Err(NoVin(vehicleId)), sent;
      }
      var vin := vehicle.value.vin.value;
      sent := [AsyncClient.StatusRequest(client, vin)];
      var fetched := AsyncClient.GetVehicleStatusByVin(client, vin, server);
      if fetched.Err? {
        return Err(Fetch(fetched.error)), sent;
      }
      var mapped := MapPayload(vehicle.value.id, fetched.value);
      if mapped.Err? {
        return Err(Mapping(mapped.error)), sent;
      }
      var row := Append(mapped.value);
      r := Ok(row);
    }
  }

  // ---------------------------------------------------------------------
  // Properties
  // ---------------------------------------------------------------------

  /** A stored vehicle is found by its id when ids are unique. */
  lemma {:induction false} FindVehicleIn(vs: seq<Vehicle>, v: Vehicle)
    requires v in vs
    ensures FindVehicle(vs, v.id).Some?
  {
    if vs[0] != v {
      FindVehicleIn(vs[1..], v);
    }
  }

  /** Appending a vehicle does not change what an existing id finds. */
  lemma {:induction false} FindVehicleAppend(vs: seq<Vehicle>, v: Vehicle, id: int)
    ensures FindVehicle(vs + [v], id) ==
              if FindVehicle(vs, id).Some? then FindVehicle(vs, id)
              else if v.id == id then Some(v) else None
  {
    if |vs| > 0 {
      assert (vs + [v])[1..] == vs[1..] + [v];
      FindVehicleAppend(vs[1..], v, id);
    } else {
      assert [v][1..] == [];
    }
  }

  /** A row is in a vehicle's history exactly when it is stored and names
      that vehicle. */
  lemma {:induction false} HistoryMembers(rows: seq<StatusRow>, vehicleId: int, row: StatusRow)
    ensures row in History(rows, vehicleId) <==> row in rows && row.record.vehicleId == vehicleId
    decreases |rows|
  {
    if |rows| > 0 {
      var init := rows[..|rows| - 1];
      HistoryMembers(init, vehicleId, row);
      assert rows == init + [rows[|rows| - 1]];
    }
  }

  /** The history is ordered newest first: ids strictly decrease along it. */
  lemma {:induction false} HistoryNewestFirst(rows: seq<StatusRow>, vehicleId: int)
    requires IncreasingIds(rows)
    ensures forall i, j :: 0 <= i < j < |History(rows, vehicleId)| ==>
              History(rows, vehicleId)[i].id > History(rows, vehicleId)[j].id
    decreases |rows|
  {
    if |rows| > 0 {
      var init := rows[..|rows| - 1];
      var last := rows[|rows| - 1];
      HistoryNewestFirst(init, vehicleId);
      var older := History(init, vehicleId);
      forall k | 0 <= k < |older|
        ensures older[k].id < last.id
      {
        HistoryMembers(init, vehicleId, older[k]);
      }
    }
  }

  /** Appending a row puts it at the head of its own vehicle's history and
      leaves every other vehicle's history as it was. */
  lemma HistoryAppend(rows: seq<StatusRow>, row: StatusRow, vehicleId: int)
    ensures History(rows + [row], vehicleId) ==
              if row.record.vehicleId == vehicleId then [row] + History(rows, vehicleId)
              else History(rows, vehicleId)
  {
    assert (rows + [row])[..|rows|] == rows;
  }

  /** The latest status is the stored row of that vehicle with the
      greatest id, and there is none exactly when the vehicle has no row. */
  lemma LatestIsNewest(rows: seq<StatusRow>, vehicleId: int)
    requires IncreasingIds(rows)
    ensures Latest(rows, vehicleId).None? <==>
              forall i :: 0 <= i < |rows| ==> rows[i].record.vehicleId != vehicleId
    ensures Latest(rows, vehicleId).Some? ==>
              Latest(rows, vehicleId).value in rows
              && Latest(rows, vehicleId).value.record.vehicleId == vehicleId
              && forall i :: 0 <= i < |rows| && rows[i].record.vehicleId == vehicleId ==>
                   rows[i].id <= Latest(rows, vehicleId).value.id
  {
    var h := History(rows, vehicleId);
    HistoryNewestFirst(rows, vehicleId);
    forall i | 0 <= i < |rows| && rows[i].record.vehicleId == vehicleId
      ensures |h| > 0 && rows[i].id <= h[0].id
    {
      HistoryMembers(rows, vehicleId, rows[i]);
      var k :| 0 <= k < |h| && h[k] == rows[i];
    }
    if |h| > 0 {
      HistoryMembers(rows, vehicleId, h[0]);
    }
  }

  /** After an append, the latest status of the row's vehicle is that row. */
  lemma LatestAfterAppend(rows: seq<StatusRow>, row: StatusRow)
    ensures Latest(rows + [row], row.record.vehicleId) == Some(row)
  {
    HistoryAppend(rows, row, row.record.vehicleId);
  }

  /** Sync stops before the provider is asked anything when the vehicle is
      missing or has no VIN: the outcome then does not depend on the server. */
  lemma SyncStopsBeforeFetch(vs: seq<Vehicle>, vehicleId: int, client: AsyncClient.Client, s1: Server, s2: Server)
    requires VinToFetch(vs, vehicleId).Err?
    ensures SyncRecord(vs, vehicleId, client, s1) == SyncRecord(vs, vehicleId, client, s2)
    ensures SyncRecord(vs, vehicleId, client, s1).Err?
  {
  }

  /** A sync succeeds exactly when the vehicle has a VIN, the provider
      answers 2xx with a JSON payload and the mapper accepts it; the record
      then belongs to that vehicle and keeps the payload verbatim. */
  lemma SyncRecordIff(vs: seq<Vehicle>, vehicleId: int, client: AsyncClient.Client, server: Server)
    ensures SyncRecord(vs, vehicleId, client, server).Ok? <==>
              VinToFetch(vs, vehicleId).Ok?
              && var o := server(AsyncClient.StatusRequest(client, VinToFetch(vs, vehicleId).value));
                 o.Response? && HttpxStatusOk(o.status) && o.body.JsonBody? && MapAccepts(o.body.value)
    ensures SyncRecord(vs, vehicleId, client, server).Ok? ==>
              var o := server(AsyncClient.StatusRequest(client, VinToFetch(vs, vehicleId).value));
              var rec := SyncRecord(vs, vehicleId, client, server).value;
              rec.vehicleId == vehicleId && rec.rawPayload == Some(o.body.value)
              && Ok(rec) == MapPayload(vehicleId, o.body.value)
  {
    if VinToFetch(vs, vehicleId).Ok? {
      var o := server(AsyncClient.StatusRequest(client, VinToFetch(vs, vehicleId).value));
      AsyncClient.DecodeIff(o);
      if o.Response? && HttpxStatusOk(o.status) && o.body.JsonBody? {
        MapFailsIff(vehicleId, o.body.value);
      }
    }
  }
}
