/** The two payload mappers of the vehicles service: the mapping part of
    `refresh_status_from_mybluelink`, where every missing or unparseable
    number becomes 0, and `_map_bluelink_payload_to_vehicle_status`, where a
    missing number stays absent. Both are stated on decoded JSON; the
    properties below are phrased with `Walk`, the plain path lookup from the
    top of the payload, so they can be read without following the mappers'
    own sequence of lookups. */
module Normalizer {
  import opened PyJson
  import opened Nested

  /** The columns of a `vehicle_status` row the adapter fills; `None` is a
      NULL column. Latitude, longitude and odometer are kept as the decoded
      values (floats are not interpreted). */
  datatype StatusRecord = StatusRecord(
    vehicleId: int,
    batteryLevel: Option<int>,
    isCharging: bool,
    isPlugged: bool,
    totalRangeKm: Option<int>,
    remainingChargeMinutes: Option<int>,
    latitude: Option<Json>,
    longitude: Option<Json>,
    odometerKm: Option<Json>,
    rawPayload: Option<Json>)

  /** The AttributeError `x.get(...)` raises when `x` is not a dict; `at`
      names the node the mapper expected to be an object. */
  datatype MapError = NotAnObject(at: string)

  /** Python's `None` stored in a nullable column. */
  function NoneIfNull(j: Json): Option<Json> {
    if j == JNull then None else Some(j)
  }

  /** `try: int(x) except (TypeError, ValueError): 0`. */
  function IntOrZero(j: Json): int {
    PyInt(j).GetOr(0)
  }

  /** `int(x)` if `x is not None`, with a failed conversion giving None. */
  function IntOrNone(j: Json): Option<int> {
    if j == JNull then None else PyInt(j)
  }

  /** `x.get(key, default) if isinstance(x, dict) else default`. */
  function Child(x: Json, key: string, default: Json): Json {
    if x.JObj? then DictGet(x.fields, key, default) else default
  }

  // ---------------------------------------------------------------------
  // refresh_status_from_mybluelink (mapping part)
  // ---------------------------------------------------------------------

  /** `status_root`: `result.status`, or `{}` when the walk fails. */
  function RefreshStatusRoot(payload: Json): Json {
    GetNested(payload, ["result", "status"], EmptyObject)
  }

  /** `ev_status`: `status_root.evStatus` when `status_root` is a dict. */
  function RefreshEvStatus(payload: Json): Json {
    Child(RefreshStatusRoot(payload), "evStatus", EmptyObject)
  }

  /** Battery: `batteryStatus`, unwrapped through `value` when it is a
      dict. */
  function RefreshBatteryLevel(payload: Json): int {
    var batteryRaw := GetNested(RefreshEvStatus(payload), ["batteryStatus"], JInt(0));
    var batteryValue := if batteryRaw.JObj? then DictGet(batteryRaw.fields, "value", JInt(0)) else batteryRaw;
    IntOrZero(batteryValue)
  }

  /** Remaining minutes: `remainTime2.etc1.value`, each level a dict. */
  function RefreshMinutesLeft(payload: Json): int {
    var remainTime2 := GetNested(RefreshEvStatus(payload), ["remainTime2"], EmptyObject);
    if remainTime2.JObj? then
      var etc1 := DictGet(remainTime2.fields, "etc1", EmptyObject);
      if etc1.JObj? then IntOrZero(DictGet(etc1.fields, "value", JNull)) else 0
    else 0
  }

  /** Range: `status_root.dte.rangeByFuel` when `dte` is a dict. */
  function RefreshRangeKm(payload: Json): int {
    var dte := Child(RefreshStatusRoot(payload), "dte", JNull);
    if dte.JObj? then IntOrZero(DictGet(dte.fields, "rangeByFuel", JInt(0))) else 0
  }

  /** One coordinate: `status_root.lastLocation.coord.<key>`, where
      `coord` defaults to `{}` inside a dict `lastLocation` and to None
      otherwise; a null coordinate is None. */
  function RefreshCoord(payload: Json, key: string): Option<Json> {
    var lastLocation := Child(RefreshStatusRoot(payload), "lastLocation", JNull);
    var coord := if lastLocation.JObj? then DictGet(lastLocation.fields, "coord", EmptyObject) else JNull;
    if coord.JObj? then NoneIfNull(DictGet(coord.fields, key, JNull)) else None
  }

  /** The record `refresh_status_from_mybluelink` builds from a payload
      (the raw payload is kept as the decoded value). Every numeric column
      is filled, with 0 standing for "missing or unparseable". */
  function RefreshRecord(vehicleId: int, payload: Json): (r: StatusRecord)
    ensures r.vehicleId == vehicleId && r.rawPayload == Some(payload)
    ensures r.batteryLevel.Some? && r.totalRangeKm.Some? && r.remainingChargeMinutes.Some?
    ensures r.odometerKm == None
  {
    var evStatus := RefreshEvStatus(payload);
    var isCharging := Truthy(GetNested(evStatus, ["batteryCharge"], JBool(false)));
    var isPlugged := IntOrZero(GetNested(evStatus, ["batteryPlugin"], JInt(0))) == 1;
    StatusRecord(vehicleId, Some(RefreshBatteryLevel(payload)), isCharging, isPlugged,
                 Some(RefreshRangeKm(payload)), Some(RefreshMinutesLeft(payload)),
                 RefreshCoord(payload, "lat"), RefreshCoord(payload, "lon"), None, Some(payload))
  }

  // ---------------------------------------------------------------------
  // _map_bluelink_payload_to_vehicle_status
  // ---------------------------------------------------------------------

  const RangeSteps: seq<string> := ["drvDistance", "0", "rangeByFuel", "evModeRange", "value"]
  const MinuteSteps: seq<string> := ["remainTime2", "etc1", "value"]

  /** `x or {}`. */
  function OrEmpty(x: Json): Json {
    if Truthy(x) then x else EmptyObject
  }

  /** The record `_map_bluelink_payload_to_vehicle_status` builds, or the
      AttributeError its `.get` chain raises on a node that is not a dict.
      Latitude and longitude are never filled; the payload is kept as is. */
  function MapPayload(vehicleId: int, payload: Json): (r: Result<StatusRecord, MapError>)
    ensures r.Ok? ==> r.value.vehicleId == vehicleId && r.value.rawPayload == Some(payload)
    ensures r.Ok? ==> r.value.latitude == None && r.value.longitude == None && r.value.odometerKm == None
  {
    if !payload.JObj? then Err(NotAnObject("payload"))
    else
      var result := DictGet(payload.fields, "result", EmptyObject);
      if !result.JObj? then Err(NotAnObject("result"))
      else
        var statusRoot := DictGet(result.fields, "status", EmptyObject);
        if !statusRoot.JObj? then Err(NotAnObject("result.status"))
        else
          var ev := OrEmpty(DictGet(statusRoot.fields, "evStatus", EmptyObject));
          var battery := OrEmpty(DictGet(statusRoot.fields, "battery", EmptyObject));
          // battery.batSoc first, evStatus.batteryStatus only when that is None
          var first := GetNested(battery, ["batSoc"], JNull);
          var level := if first == JNull then GetNested(ev, ["batteryStatus"], JNull) else first;
          if !ev.JObj? then Err(NotAnObject("evStatus"))
          else
            var chargingRaw := DictGet(ev.fields, "batteryCharge", JNull);
            var isCharging := if chargingRaw != JNull then Truthy(chargingRaw) else false;
            var pluginRaw := DictGet(ev.fields, "batteryPlugin", JNull);
            var isPlugged := if pluginRaw == JNull then false else Truthy(pluginRaw);
            var range := IntOrNone(GetNested(ev, RangeSteps, JNull));
            var minutes := IntOrNone(GetNested(ev, MinuteSteps, JNull));
            Ok(StatusRecord(vehicleId, IntOrNone(level), isCharging, isPlugged, range, minutes,
                            None, None, None, Some(payload)))
  }

  // ---------------------------------------------------------------------
  // Paths from the top of the payload
  // ---------------------------------------------------------------------

  const EvPath: seq<string> := ["result", "status", "evStatus"]

  /** The number at `path`: absent when the path does not resolve, holds
      null, or holds something `int()` refuses. */
  function NumberAt(payload: Json, path: seq<string>): Option<int> {
    match Walk(payload, path)
    case None => None
    case Some(v) => IntOrNone(v)
  }

  /** The number at `path`, with 0 for every way of being absent. */
  function NumberOrZeroAt(payload: Json, path: seq<string>): int {
    match Walk(payload, path)
    case None => 0
    case Some(v) => IntOrZero(v)
  }

  /** Whether `path` resolves to a truthy value. */
  predicate TruthyAt(payload: Json, path: seq<string>) {
    Walk(payload, path).Some? && Truthy(Walk(payload, path).value)
  }

  /** Looking a named key up in a node, with a default when the node is not
      a dict, is the one-step walk. */
  lemma ChildIsOneStep(x: Json, key: string, default: Json)
    requires IsName(key)
    ensures Child(x, key, default) == GetNested(x, [key], default)
  {
    WalkName(x, key, []);
    assert [key] + [] == [key];
  }

  /** Two successive lookups are one lookup along the joined path, as long
      as the first default has nothing along the second path. */
  lemma GetNestedCompose(n: Json, p: seq<string>, q: seq<string>, d1: Json, d: Json)
    requires |q| > 0 && Walk(d1, q) == None
    ensures GetNested(GetNested(n, p, d1), q, d) == GetNested(n, p + q, d)
  {
    WalkAppend(n, p, q);
  }

  /** Everything the refresh mapper reads below `evStatus` is the walk of
      the full path from the top of the payload. */
  lemma RefreshEvStatusWalk(payload: Json, q: seq<string>, d: Json)
    requires |q| > 0
    ensures GetNested(RefreshEvStatus(payload), q, d) == GetNested(payload, EvPath + q, d)
  {
    NamedChildWalk(payload, ["result", "status"], "evStatus", q, d);
    assert ["result", "status"] + ["evStatus"] + q == EvPath + q;
  }

  /** A path, then a named lookup defaulting to `{}`, then a non-empty path
      is one walk along all three. */
  lemma NamedChildWalk(payload: Json, p: seq<string>, key: string, q: seq<string>, d: Json)
    requires IsName(key) && |q| > 0
    ensures GetNested(Child(GetNested(payload, p, EmptyObject), key, EmptyObject), q, d)
            == GetNested(payload, p + [key] + q, d)
  {
    var node := GetNested(payload, p, EmptyObject);
    assert GetNested(Child(node, key, EmptyObject), q, d) == GetNested(node, [key] + q, d) by {
      FalsyHasNoChildren(EmptyObject, q);
      ChildThenWalk(node, key, q, EmptyObject, d);
    }
    assert GetNested(node, [key] + q, d) == GetNested(payload, p + ([key] + q), d) by {
      FalsyHasNoChildren(EmptyObject, [key] + q);
      GetNestedCompose(payload, p, [key] + q, EmptyObject, d);
    }
    assert p + ([key] + q) == p + [key] + q;
  }

  /** The same below `result.status`. */
  lemma RefreshStatusRootWalk(payload: Json, q: seq<string>, d: Json)
    requires |q| > 0
    ensures GetNested(RefreshStatusRoot(payload), q, d) == GetNested(payload, ["result", "status"] + q, d)
  {
    FalsyHasNoChildren(EmptyObject, q);
    GetNestedCompose(payload, ["result", "status"], q, EmptyObject, d);
  }

  /** A named lookup followed by a nested walk is the longer walk. */
  lemma ChildThenWalk(x: Json, key: string, q: seq<string>, d1: Json, d: Json)
    requires IsName(key) && |q| > 0 && Walk(d1, q) == None
    ensures GetNested(Child(x, key, d1), q, d) == GetNested(x, [key] + q, d)
  {
    ChildIsOneStep(x, key, d1);
    GetNestedCompose(x, [key], q, d1, d);
  }

  // ---------------------------------------------------------------------
  // Properties of the refresh mapper
  // ---------------------------------------------------------------------

  /** Battery: `result.status.evStatus.batteryStatus`, unwrapped through
      `value` when it is an object, converted with `int()`, and 0 when any
      of this fails. */
  lemma RefreshBattery(vehicleId: int, payload: Json)
    ensures RefreshRecord(vehicleId, payload).batteryLevel == Some(
      match Walk(payload, EvPath + ["batteryStatus"])
      case None => 0
      case Some(v) => if v.JObj? then NumberOrZeroAt(payload, EvPath + ["batteryStatus", "value"]) else IntOrZero(v))
  {
    var path := EvPath + ["batteryStatus"];
    assert GetNested(RefreshEvStatus(payload), ["batteryStatus"], JInt(0)) == GetNested(payload, path, JInt(0)) by {
      RefreshEvStatusWalk(payload, ["batteryStatus"], JInt(0));
    }
    UnwrapValue(payload, path);
    assert path + ["value"] == EvPath + ["batteryStatus", "value"];
  }

  /** Unwrapping a dict through its `value` key, on the node at `path`, is
      reading `path` and then `value`. */
  lemma UnwrapValue(payload: Json, path: seq<string>)
    ensures var raw := GetNested(payload, path, JInt(0));
            IntOrZero(if raw.JObj? then DictGet(raw.fields, "value", JInt(0)) else raw)
              == match Walk(payload, path)
                 case None => 0
                 case Some(v) => if v.JObj? then NumberOrZeroAt(payload, path + ["value"]) else IntOrZero(v)
  {
    match Walk(payload, path) {
      case None =>
      case Some(v) =>
        if v.JObj? {
          assert Walk(payload, path + ["value"]) == Walk(v, ["value"]) by {
            WalkAppend(payload, path, ["value"]);
          }
          assert Walk(v, ["value"]) == if "value" in v.fields then Some(v.fields["value"]) else None by {
            WalkName(v, "value", []);
            assert ["value"] + [] == ["value"];
          }
        }
    }
  }

  /** Plugged exactly when `batteryPlugin` resolves and `int()` makes it 1:
      a 2 or a "yes" is not plugged. */
  lemma RefreshPluggedIff(vehicleId: int, payload: Json)
    ensures RefreshRecord(vehicleId, payload).isPlugged
            <==> (Walk(payload, EvPath + ["batteryPlugin"]).Some?
                  && PyInt(Walk(payload, EvPath + ["batteryPlugin"]).value) == Some(1))
  {
    RefreshEvStatusWalk(payload, ["batteryPlugin"], JInt(0));
  }

  /** Charging exactly when `batteryCharge` resolves to a truthy value. */
  lemma RefreshChargingIff(vehicleId: int, payload: Json)
    ensures RefreshRecord(vehicleId, payload).isCharging <==> TruthyAt(payload, EvPath + ["batteryCharge"])
  {
    RefreshEvStatusWalk(payload, ["batteryCharge"], JBool(false));
  }

  /** Remaining minutes: `evStatus.remainTime2.etc1.value`, 0 unless the
      path exists through objects and the value converts. */
  lemma RefreshMinutes(vehicleId: int, payload: Json)
    ensures RefreshRecord(vehicleId, payload).remainingChargeMinutes
            == Some(NumberOrZeroAt(payload, EvPath + MinuteSteps))
  {
    var ev := RefreshEvStatus(payload);
    var remain := GetNested(ev, ["remainTime2"], EmptyObject);
    RefreshEvStatusWalk(payload, MinuteSteps, JNull);
    FalsyHasNoChildren(EmptyObject, ["etc1", "value"]);
    GetNestedCompose(ev, ["remainTime2"], ["etc1", "value"], EmptyObject, JNull);
    assert ["remainTime2"] + ["etc1", "value"] == MinuteSteps;
    ChildThenWalk(remain, "etc1", ["value"], EmptyObject, JNull);
    var etc1 := Child(remain, "etc1", EmptyObject);
    ChildIsOneStep(etc1, "value", JNull);
  }

  /** Range: `result.status.dte.rangeByFuel`, 0 unless `dte` is an object
      and the value converts (a missing `rangeByFuel` is 0). */
  lemma RefreshRange(vehicleId: int, payload: Json)
    ensures RefreshRecord(vehicleId, payload).totalRangeKm
            == Some(NumberOrZeroAt(payload, ["result", "status", "dte", "rangeByFuel"]))
  {
    var root := RefreshStatusRoot(payload);
    var q := ["dte", "rangeByFuel"];
    assert RefreshRangeKm(payload) == NumberOrZeroAt(root, q) by {
      NamedNumberOrZero(root, "dte", "rangeByFuel");
    }
    assert NumberOrZeroAt(root, q) == NumberOrZeroAt(payload, ["result", "status"] + q) by {
      RefreshStatusRootWalk(payload, q, JNull);
    }
    assert ["result", "status"] + q == ["result", "status", "dte", "rangeByFuel"];
  }

  /** `x.get(key)` when `x` is a dict, then `int(node.get(key2, 0))` when that
      is a dict, is the number at `[key, key2]` with 0 for absent. */
  lemma NamedNumberOrZero(x: Json, key: string, key2: string)
    requires IsName(key) && IsName(key2)
    ensures var c := Child(x, key, JNull);
            (if c.JObj? then IntOrZero(DictGet(c.fields, key2, JInt(0))) else 0) == NumberOrZeroAt(x, [key, key2])
  {
    var c := Child(x, key, JNull);
    assert Walk(x, [key, key2]) == (if x.JObj? && key in x.fields then Walk(x.fields[key], [key2]) else None) by {
      WalkName(x, key, [key2]);
      assert [key] + [key2] == [key, key2];
    }
    WalkName(c, key2, []);
    assert [key2] + [] == [key2];
  }

  /** The coordinate at `result.status.lastLocation.coord.<key>`, None when
      absent or null. */
  function CoordAt(payload: Json, key: string): Option<Json> {
    match Walk(payload, ["result", "status", "lastLocation", "coord", key])
    case None => None
    case Some(v) => NoneIfNull(v)
  }

  /** One coordinate as the refresh mapper reads it: through
      `lastLocation` and `coord`, each required to be a dict. */
  lemma RefreshCoordinate(payload: Json, key: string)
    requires IsName(key)
    ensures RefreshCoord(payload, key) == CoordAt(payload, key)
  {
    var root := RefreshStatusRoot(payload);
    var lastLocation := Child(root, "lastLocation", JNull);
    var coord := if lastLocation.JObj? then DictGet(lastLocation.fields, "coord", EmptyObject) else JNull;
    var found := GetNested(coord, [key], JNull);
    assert RefreshCoord(payload, key) == NoneIfNull(found) by {
      ChildIsOneStep(coord, key, JNull);
    }
    assert found == GetNested(lastLocation, ["coord", key], JNull) by {
      CoordStep(lastLocation, key);
    }
    assert GetNested(lastLocation, ["coord", key], JNull)
           == GetNested(root, ["lastLocation", "coord", key], JNull) by {
      FalsyHasNoChildren(JNull, ["coord", key]);
      ChildThenWalk(root, "lastLocation", ["coord", key], JNull, JNull);
      assert ["lastLocation"] + ["coord", key] == ["lastLocation", "coord", key];
    }
    assert GetNested(root, ["lastLocation", "coord", key], JNull)
           == GetNested(payload, ["result", "status", "lastLocation", "coord", key], JNull) by {
      RefreshStatusRootWalk(payload, ["lastLocation", "coord", key], JNull);
      assert ["result", "status"] + ["lastLocation", "coord", key]
             == ["result", "status", "lastLocation", "coord", key];
    }
  }

  /** The `coord` lookup of the refresh mapper, which yields null (not `{}`)
      when `lastLocation` is not a dict, followed by the key. */
  lemma CoordStep(lastLocation: Json, key: string)
    requires IsName(key)
    ensures var coord := if lastLocation.JObj? then DictGet(lastLocation.fields, "coord", EmptyObject) else JNull;
            GetNested(coord, [key], JNull) == GetNested(lastLocation, ["coord", key], JNull)
  {
    assert ["coord"] + [key] == ["coord", key];
    if lastLocation.JObj? {
      FalsyHasNoChildren(EmptyObject, [key]);
      ChildThenWalk(lastLocation, "coord", [key], EmptyObject, JNull);
    } else {
      WalkName(lastLocation, "coord", [key]);
    }
  }

  /** Latitude and longitude are each read from their own key, independently:
      one can be present while the other is None. */
  lemma RefreshCoordinates(vehicleId: int, payload: Json)
    ensures RefreshRecord(vehicleId, payload).latitude == CoordAt(payload, "lat")
    ensures RefreshRecord(vehicleId, payload).longitude == CoordAt(payload, "lon")
  {
    RefreshCoordinate(payload, "lat");
    RefreshCoordinate(payload, "lon");
  }

  // ---------------------------------------------------------------------
  // Properties of the map mapper
  // ---------------------------------------------------------------------

  /** The shapes the map mapper accepts: an object payload whose `result`,
      `result.status` are objects when present, and whose `evStatus` is an
      object when present and truthy. */
  predicate MapAccepts(payload: Json) {
    && payload.JObj?
    && (Walk(payload, ["result"]).None? || Walk(payload, ["result"]).value.JObj?)
    && (Walk(payload, ["result", "status"]).None? || Walk(payload, ["result", "status"]).value.JObj?)
    && (Walk(payload, EvPath).None? || !Truthy(Walk(payload, EvPath).value) || Walk(payload, EvPath).value.JObj?)
  }

  /** `MapAccepts` in terms of the nodes the map mapper calls `.get` on. */
  lemma MapAcceptsNodes(payload: Json)
    requires payload.JObj?
    ensures var result := DictGet(payload.fields, "result", EmptyObject);
            var root := if result.JObj? then DictGet(result.fields, "status", EmptyObject) else EmptyObject;
            var ev := if root.JObj? then DictGet(root.fields, "evStatus", EmptyObject) else EmptyObject;
            MapAccepts(payload) <==> result.JObj? && root.JObj? && (!Truthy(ev) || ev.JObj?)
  {
    var f := payload.fields;
    WalkName(payload, "result", []);
    WalkName(payload, "result", ["status"]);
    WalkName(payload, "result", ["status", "evStatus"]);
    assert ["result"] + [] == ["result"];
    assert ["result"] + ["status"] == ["result", "status"];
    assert ["result"] + ["status", "evStatus"] == EvPath;
    var result := DictGet(f, "result", EmptyObject);
    if "result" in f && result.JObj? {
      WalkName(result, "status", []);
      WalkName(result, "status", ["evStatus"]);
      assert ["status"] + [] == ["status"];
      assert ["status"] + ["evStatus"] == ["status", "evStatus"];
      var root := DictGet(result.fields, "status", EmptyObject);
      if "status" in result.fields && root.JObj? {
        WalkName(root, "evStatus", []);
        assert ["evStatus"] + [] == ["evStatus"];
      }
    }
  }

  /** The map mapper fails exactly on the payloads it does not accept; so
      unlike `_get_nested`, its top-level `.get` chain is not defensive. */
  lemma MapFailsIff(vehicleId: int, payload: Json)
    ensures MapPayload(vehicleId, payload).Err? <==> !MapAccepts(payload)
  {
    if payload.JObj? {
      MapAcceptsNodes(payload);
    }
  }

  /** In an accepted payload, everything read below `evStatus` is the walk
      of the full path (a falsy `evStatus` has nothing below it, like `{}`). */
  lemma MapEvWalk(payload: Json, q: seq<string>, d: Json)
    requires MapAccepts(payload) && |q| > 0
    ensures var result := DictGet(payload.fields, "result", EmptyObject);
            var root := DictGet(result.fields, "status", EmptyObject);
            GetNested(OrEmpty(DictGet(root.fields, "evStatus", EmptyObject)), q, d) == GetNested(payload, EvPath + q, d)
  {
    MapShapeWalk(payload, "evStatus", q, d);
  }

  /** The same for any named child of `result.status`. */
  lemma MapShapeWalk(payload: Json, key: string, q: seq<string>, d: Json)
    requires MapAccepts(payload) && |q| > 0 && IsName(key)
    ensures var result := DictGet(payload.fields, "result", EmptyObject);
            var root := DictGet(result.fields, "status", EmptyObject);
            GetNested(OrEmpty(DictGet(root.fields, key, EmptyObject)), q, d)
              == GetNested(payload, ["result", "status", key] + q, d)
  {
    MapAcceptsNodes(payload);
    var result := DictGet(payload.fields, "result", EmptyObject);
    var root := DictGet(result.fields, "status", EmptyObject);
    var x := DictGet(root.fields, key, EmptyObject);
    FalsyHasNoChildren(EmptyObject, q);
    if !Truthy(x) {
      FalsyHasNoChildren(x, q);
    }
    assert GetNested(OrEmpty(x), q, d) == GetNested(x, q, d);
    ChildThenWalk(root, key, q, EmptyObject, d);
    FalsyHasNoChildren(EmptyObject, [key] + q);
    ChildThenWalk(result, "status", [key] + q, EmptyObject, d);
    FalsyHasNoChildren(EmptyObject, ["status", key] + q);
    ChildThenWalk(payload, "result", ["status", key] + q, EmptyObject, d);
    assert ["status"] + ([key] + q) == ["status", key] + q;
    assert ["result"] + (["status", key] + q) == ["result", "status", key] + q;
  }

  /** Range and remaining minutes are absent (None, never 0) when their
      path does not resolve, holds null or does not convert. */
  lemma MapNumbersAbsent(vehicleId: int, payload: Json)
    requires MapPayload(vehicleId, payload).Ok?
    ensures MapPayload(vehicleId, payload).value.totalRangeKm == NumberAt(payload, EvPath + RangeSteps)
    ensures MapPayload(vehicleId, payload).value.remainingChargeMinutes == NumberAt(payload, EvPath + MinuteSteps)
  {
    MapFailsIff(vehicleId, payload);
    MapEvWalk(payload, RangeSteps, JNull);
    MapEvWalk(payload, MinuteSteps, JNull);
  }

  /** Battery: `result.status.battery.batSoc` when it is there and not
      null, even if it does not convert; otherwise
      `result.status.evStatus.batteryStatus`; absent when neither gives a
      number. */
  lemma MapBatteryPriority(vehicleId: int, payload: Json)
    requires MapPayload(vehicleId, payload).Ok?
    ensures var socPath := ["result", "status", "battery", "batSoc"];
            MapPayload(vehicleId, payload).value.batteryLevel
              == if Walk(payload, socPath).Some? && Walk(payload, socPath).value != JNull
                 then PyInt(Walk(payload, socPath).value)
                 else NumberAt(payload, EvPath + ["batteryStatus"])
  {
    MapFailsIff(vehicleId, payload);
    var result := DictGet(payload.fields, "result", EmptyObject);
    var root := DictGet(result.fields, "status", EmptyObject);
    var ev := OrEmpty(DictGet(root.fields, "evStatus", EmptyObject));
    var battery := OrEmpty(DictGet(root.fields, "battery", EmptyObject));
    var socPath := ["result", "status", "battery", "batSoc"];
    var first := GetNested(battery, ["batSoc"], JNull);
    var second := GetNested(ev, ["batteryStatus"], JNull);
    assert first == GetNested(payload, socPath, JNull) by {
      MapShapeWalk(payload, "battery", ["batSoc"], JNull);
      assert ["result", "status", "battery"] + ["batSoc"] == socPath;
    }
    assert second == GetNested(payload, EvPath + ["batteryStatus"], JNull) by {
      MapEvWalk(payload, ["batteryStatus"], JNull);
    }
    assert NumberAt(payload, EvPath + ["batteryStatus"]) == IntOrNone(second) by {
      NumberAtNested(payload, EvPath + ["batteryStatus"]);
    }
    assert MapPayload(vehicleId, payload).value.batteryLevel
           == IntOrNone(if first == JNull then second else first);
  }

  /** A number read with a null default is the number at the path. */
  lemma NumberAtNested(payload: Json, path: seq<string>)
    ensures NumberAt(payload, path) == IntOrNone(GetNested(payload, path, JNull))
  {
  }

  /** Booleans are the truthiness of the field; missing or null is False,
      so a `batteryPlugin` of 2 counts as plugged. */
  lemma MapBooleans(vehicleId: int, payload: Json)
    requires MapPayload(vehicleId, payload).Ok?
    ensures MapPayload(vehicleId, payload).value.isCharging <==> TruthyAt(payload, EvPath + ["batteryCharge"])
    ensures MapPayload(vehicleId, payload).value.isPlugged <==> TruthyAt(payload, EvPath + ["batteryPlugin"])
  {
    MapFailsIff(vehicleId, payload);
    MapEvWalk(payload, ["batteryCharge"], JNull);
    MapEvWalk(payload, ["batteryPlugin"], JNull);
    var result := DictGet(payload.fields, "result", EmptyObject);
    var root := DictGet(result.fields, "status", EmptyObject);
    var ev := OrEmpty(DictGet(root.fields, "evStatus", EmptyObject));
    ChildIsOneStep(ev, "batteryCharge", JNull);
    ChildIsOneStep(ev, "batteryPlugin", JNull);
  }

  /** Where a number is missing, the two mappers disagree on purpose: the
      refresh mapper stores 0, the map mapper stores NULL. */
  lemma AbsentVersusZero(vehicleId: int, payload: Json)
    requires MapPayload(vehicleId, payload).Ok?
    requires Walk(payload, EvPath + MinuteSteps).None?
    ensures MapPayload(vehicleId, payload).value.remainingChargeMinutes == None
    ensures RefreshRecord(vehicleId, payload).remainingChargeMinutes == Some(0)
  {
    MapNumbersAbsent(vehicleId, payload);
    RefreshMinutes(vehicleId, payload);
  }

  // ---------------------------------------------------------------------
  // The documented example
  // ---------------------------------------------------------------------

  /** `{"result":{"status":{"evStatus":{"batteryStatus":"82","batteryPlugin":1}}}}` */
  function ExamplePayload(): Json {
    JObj(map["result" := JObj(map["status" := JObj(map["evStatus" :=
      JObj(map["batteryStatus" := JStr("82"), "batteryPlugin" := JInt(1)])])])])
  }

  lemma ExampleBatteryParses()
    ensures ParseInt("82") == Some(82)
  {
    var s := "82";
    assert StripLeft(s) == s && StripRight(s) == s;
    assert s[..1] == "8";
    assert DigitsValue(s) == 82;
  }

  function ExampleEv(): Json {
    JObj(map["batteryStatus" := JStr("82"), "batteryPlugin" := JInt(1)])
  }

  /** Where the example's paths lead, down to `evStatus`. */
  lemma ExampleTop()
    ensures Walk(ExamplePayload(), ["result"]) == Some(JObj(map["status" := JObj(map["evStatus" := ExampleEv()])]))
    ensures Walk(ExamplePayload(), ["result", "status"]) == Some(JObj(map["evStatus" := ExampleEv()]))
    ensures Walk(ExamplePayload(), EvPath) == Some(ExampleEv())
  {
    var p := ExamplePayload();
    var status := JObj(map["evStatus" := ExampleEv()]);
    var result := JObj(map["status" := status]);
    WalkName(p, "result", []);
    assert ["result"] + [] == ["result"];
    WalkName(result, "status", []);
    WalkAppend(p, ["result"], ["status"]);
    assert ["result"] + ["status"] == ["result", "status"];
    assert ["status"] + [] == ["status"];
    WalkName(status, "evStatus", []);
    WalkAppend(p, ["result", "status"], ["evStatus"]);
    assert ["result", "status"] + ["evStatus"] == EvPath;
    assert ["evStatus"] + [] == ["evStatus"];
  }

  /** Where the example's paths below `evStatus` lead. */
  lemma ExampleEvField(key: string)
    requires key == "batteryStatus" || key == "batteryPlugin" || key == "batteryCharge"
    ensures Walk(ExamplePayload(), EvPath + [key])
            == if key in ExampleEv().fields then Some(ExampleEv().fields[key]) else None
  {
    assert Walk(ExamplePayload(), EvPath) == Some(ExampleEv()) by { ExampleTop(); }
    WalkAppend(ExamplePayload(), EvPath, [key]);
    WalkName(ExampleEv(), key, []);
    assert [key] + [] == [key];
  }

  lemma ExampleEvFields()
    ensures Walk(ExamplePayload(), EvPath + ["batteryStatus"]) == Some(JStr("82"))
    ensures Walk(ExamplePayload(), EvPath + ["batteryPlugin"]) == Some(JInt(1))
    ensures Walk(ExamplePayload(), EvPath + ["batteryCharge"]) == None
  {
    ExampleEvField("batteryStatus");
    ExampleEvField("batteryPlugin");
    ExampleEvField("batteryCharge");
    assert "batteryCharge"[7] != "batteryStatus"[7] && "batteryCharge"[7] != "batteryPlugin"[7];
  }

  /** The example has no `remainTime2` and no `drvDistance`. */
  lemma ExampleEvMissing(key: string, q: seq<string>)
    requires key == "remainTime2" || key == "drvDistance"
    ensures Walk(ExamplePayload(), EvPath + ([key] + q)) == None
  {
    assert Walk(ExamplePayload(), EvPath) == Some(ExampleEv()) by { ExampleTop(); }
    WalkAppend(ExamplePayload(), EvPath, [key] + q);
    WalkName(ExampleEv(), key, q);
    assert key[0] != 'b';
  }

  lemma ExampleEvNumbers()
    ensures Walk(ExamplePayload(), EvPath + MinuteSteps) == None
    ensures Walk(ExamplePayload(), EvPath + RangeSteps) == None
  {
    ExampleEvMissing("remainTime2", ["etc1", "value"]);
    assert ["remainTime2"] + ["etc1", "value"] == MinuteSteps;
    ExampleEvMissing("drvDistance", ["0", "rangeByFuel", "evModeRange", "value"]);
    assert ["drvDistance"] + ["0", "rangeByFuel", "evModeRange", "value"] == RangeSteps;
  }

  /** Every named key of the example's `result.status` other than
      `evStatus` is missing. */
  lemma ExampleStatusMissing(key: string, q: seq<string>)
    requires IsName(key) && key != "evStatus"
    ensures Walk(ExamplePayload(), ["result", "status", key] + q) == None
  {
    var p := ExamplePayload();
    ExampleTop();
    WalkAppend(p, ["result", "status"], [key] + q);
    assert ["result", "status"] + ([key] + q) == ["result", "status", key] + q;
    WalkName(JObj(map["evStatus" := ExampleEv()]), key, q);
  }

  lemma ExampleWalks()
    ensures Walk(ExamplePayload(), ["result", "status", "dte", "rangeByFuel"]) == None
    ensures Walk(ExamplePayload(), ["result", "status", "battery", "batSoc"]) == None
    ensures Walk(ExamplePayload(), ["result", "status", "lastLocation", "coord", "lat"]) == None
    ensures Walk(ExamplePayload(), ["result", "status", "lastLocation", "coord", "lon"]) == None
  {
    ExampleStatusMissing("dte", ["rangeByFuel"]);
    assert ["result", "status", "dte"] + ["rangeByFuel"] == ["result", "status", "dte", "rangeByFuel"];
    ExampleStatusMissing("battery", ["batSoc"]);
    assert ["result", "status", "battery"] + ["batSoc"] == ["result", "status", "battery", "batSoc"];
    ExampleStatusMissing("lastLocation", ["coord", "lat"]);
    assert ["result", "status", "lastLocation"] + ["coord", "lat"] == ["result", "status", "lastLocation", "coord", "lat"];
    ExampleStatusMissing("lastLocation", ["coord", "lon"]);
    assert ["result", "status", "lastLocation"] + ["coord", "lon"] == ["result", "status", "lastLocation", "coord", "lon"];
  }

  /** On the example the refresh mapper reads battery 82 and plugged, and
      fills 0 for the missing range and minutes; there are no coordinates. */
  lemma ExampleRefreshRecord(vehicleId: int)
    ensures RefreshRecord(vehicleId, ExamplePayload())
            == StatusRecord(vehicleId, Some(82), false, true, Some(0), Some(0), None, None, None, Some(ExamplePayload()))
  {
    var p := ExamplePayload();
    var r := RefreshRecord(vehicleId, p);
    assert r.batteryLevel == Some(82) by {
      ExampleEvFields();
      ExampleBatteryParses();
      RefreshBattery(vehicleId, p);
    }
    assert !r.isCharging && r.isPlugged by {
      ExampleEvFields();
      RefreshPluggedIff(vehicleId, p);
      RefreshChargingIff(vehicleId, p);
    }
    assert r.remainingChargeMinutes == Some(0) && r.totalRangeKm == Some(0) by {
      ExampleEvNumbers();
      ExampleWalks();
      RefreshMinutes(vehicleId, p);
      RefreshRange(vehicleId, p);
    }
    assert r.latitude == None && r.longitude == None by {
      ExampleWalks();
      RefreshCoordinates(vehicleId, p);
    }
  }

  /** On the example the map mapper also reads battery 82 (through the
      fallback path) and plugged, but leaves range and minutes NULL. */
  lemma ExampleMapRecord(vehicleId: int)
    ensures MapPayload(vehicleId, ExamplePayload())
            == Ok(StatusRecord(vehicleId, Some(82), false, true, None, None, None, None, None, Some(ExamplePayload())))
  {
    var p := ExamplePayload();
    assert MapAccepts(p) by { ExampleTop(); }
    ExampleEvFields();
    ExampleEvNumbers();
    ExampleWalks();
    MapRecordOfShape(vehicleId, p);
  }

  /** The example's shape, on any payload. */
  predicate ExampleShaped(p: Json) {
    && MapAccepts(p)
    && Walk(p, EvPath + ["batteryStatus"]) == Some(JStr("82"))
    && Walk(p, EvPath + ["batteryPlugin"]) == Some(JInt(1))
    && Walk(p, EvPath + ["batteryCharge"]) == None
    && Walk(p, EvPath + MinuteSteps) == None && Walk(p, EvPath + RangeSteps) == None
    && Walk(p, ["result", "status", "battery", "batSoc"]) == None
  }

  /** The map record of any payload shaped like the example. */
  lemma MapRecordOfShape(vehicleId: int, p: Json)
    requires ExampleShaped(p)
    ensures MapPayload(vehicleId, p)
            == Ok(StatusRecord(vehicleId, Some(82), false, true, None, None, None, None, None, Some(p)))
  {
    MapFailsIff(vehicleId, p);
    MapShapeBattery(vehicleId, p);
    MapShapeRest(vehicleId, p);
  }

  lemma MapShapeBattery(vehicleId: int, p: Json)
    requires ExampleShaped(p)
    ensures MapPayload(vehicleId, p).Ok? && MapPayload(vehicleId, p).value.batteryLevel == Some(82)
  {
    MapFailsIff(vehicleId, p);
    ExampleBatteryParses();
    MapBatteryPriority(vehicleId, p);
  }

  lemma MapShapeRest(vehicleId: int, p: Json)
    requires ExampleShaped(p)
    ensures MapPayload(vehicleId, p).Ok?
    ensures var r := MapPayload(vehicleId, p).value;
            !r.isCharging && r.isPlugged && r.totalRangeKm == None && r.remainingChargeMinutes == None
  {
    MapFailsIff(vehicleId, p);
    MapBooleans(vehicleId, p);
    MapNumbersAbsent(vehicleId, p);
  }
}
