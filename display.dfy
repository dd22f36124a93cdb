/** The display helpers of the dashboard (`frontend-react/src/App.tsx`):
    how a flag, a duration, a battery level and a vehicle's label are
    rendered, and the map-link condition, applied here to the status
    records the store keeps. */
module Display {
  import opened PyJson
  import opened Normalizer
  import opened VehicleStore

  /** The placeholder shown for a missing value. */
  const Dash: string := "—"

  // ---------------------------------------------------------------------
  // formatBoolean
  // ---------------------------------------------------------------------

  /** `formatBoolean`: French yes/no, the dash for null or undefined. The
      three renderings are distinct, so the display tells the cases apart. */
  function FormatBoolean(value: Option<bool>): (s: string)
    ensures s == "Oui" <==> value == Some(true)
    ensures s == "Non" <==> value == Some(false)
    ensures s == Dash <==> value.None?
  {
    match value
    case Some(true) => "Oui"
    case Some(false) => "Non"
    case None => Dash
  }

  // ---------------------------------------------------------------------
  // Splitting a rendering into words
  // ---------------------------------------------------------------------

  predicate NoSpace(s: string) {
    forall i :: 0 <= i < |s| ==> s[i] != ' '
  }

  /** The words of `s` separated by single spaces (`s.split(" ")`). */
  function Words(s: string): (r: seq<string>)
    ensures |r| > 0
  {
    if |s| == 0 then [""]
    else
      var rest := Words(s[1..]);
      if s[0] == ' ' then [""] + rest
      else [[s[0]] + rest[0]] + rest[1..]
  }

  /** A string without spaces is one word. */
  lemma {:induction false} WordsOfWord(w: string)
    requires NoSpace(w)
    ensures Words(w) == [w]
  {
    if |w| > 0 {
      WordsOfWord(w[1..]);
      assert [w[0]] + w[1..] == w;
    }
  }

  /** A word followed by a space and more text splits off as the first word. */
  lemma {:induction false} WordsJoin(w: string, s: string)
    requires NoSpace(w)
    ensures Words(w + " " + s) == [w] + Words(s)
  {
    var t := w + " " + s;
    if |w| == 0 {
      assert t[0] == ' ' && t[1..] == s;
    } else {
      assert t[0] == w[0];
      assert t[1..] == w[1..] + " " + s;
      WordsJoin(w[1..], s);
      assert [w[0]] + w[1..] == w;
    }
  }

  // ---------------------------------------------------------------------
  // formatMinutes
  // ---------------------------------------------------------------------

  /** `formatMinutes` on an integer: the dash for null; under an hour
      (negative values included) the minutes; otherwise whole hours, with
      the remaining minutes when there are any. */
  function FormatMinutes(value: Option<int>): (s: string)
    ensures s == Dash <==> value.None?
  {
    match value
    case None => Dash
    case Some(v) =>
      if v < 60 then IntToString(v) + " min"
      else
        var hours := v / 60;
        var minutes := v % 60;
        if minutes == 0 then IntToString(hours) + " h"
        else IntToString(hours) + " h " + IntToString(minutes) + " min"
  }

  /** Reading a rendered duration back from its words: the inverse of
      `FormatMinutes`. */
  function ReadWords(ws: seq<string>): Option<int> {
    if |ws| == 2 && ws[1] == "min" then ParseInt(ws[0])
    else if |ws| == 2 && ws[1] == "h" then
      var h := ParseInt(ws[0]);
      if h.Some? then Some(h.value * 60) else None
    else if |ws| == 4 && ws[1] == "h" && ws[3] == "min" then
      var h := ParseInt(ws[0]);
      var m := ParseInt(ws[2]);
      if h.Some? && m.Some? then Some(h.value * 60 + m.value) else None
    else None
  }

  function ReadMinutes(s: string): Option<int> {
    ReadWords(Words(s))
  }

  /** The words of a number followed by a unit, and of hours followed by
      minutes. */
  lemma TwoWords(n: string, unit: string)
    requires NoSpace(n) && NoSpace(unit)
    ensures Words(n + " " + unit) == [n, unit]
  {
    WordsOfWord(unit);
    WordsJoin(n, unit);
  }

  lemma FourWords(hs: string, ms: string)
    requires NoSpace(hs) && NoSpace(ms)
    ensures Words(hs + " h " + ms + " min") == [hs, "h", ms, "min"]
  {
    var tail := ms + " " + "min";
    TwoWords(ms, "min");
    WordsJoin("h", tail);
    WordsJoin(hs, "h" + " " + tail);
    assert hs + " h " + ms + " min" == hs + " " + ("h" + " " + tail);
  }

  /** Reading the words of each rendering, on words already known to parse. */
  lemma ReadTwo(n: string, k: int)
    requires ParseInt(n) == Some(k)
    ensures ReadWords([n, "min"]) == Some(k)
    ensures ReadWords([n, "h"]) == Some(k * 60)
  {
  }

  lemma ReadFour(hs: string, ms: string, h: int, m: int)
    requires ParseInt(hs) == Some(h) && ParseInt(ms) == Some(m)
    ensures ReadWords([hs, "h", ms, "min"]) == Some(h * 60 + m)
  {
    var ws := [hs, "h", ms, "min"];
    assert |ws| == 4 && ws[1] == "h" && ws[3] == "min";
  }

  /** Each rendering reads back as its duration. */
  lemma MinutesRoundTrip(v: int)
    requires v < 60
    ensures ReadMinutes(FormatMinutes(Some(v))) == Some(v)
  {
    var n := IntToString(v);
    TwoWords(n, "min");
    assert FormatMinutes(Some(v)) == n + " " + "min";
    ParseIntRoundTrip(v);
    ReadTwo(n, v);
  }

  lemma WholeHoursRoundTrip(v: int)
    requires v >= 60 && v % 60 == 0
    ensures ReadMinutes(FormatMinutes(Some(v))) == Some(v)
  {
    var n := IntToString(v / 60);
    TwoWords(n, "h");
    assert FormatMinutes(Some(v)) == n + " " + "h";
    ParseIntRoundTrip(v / 60);
    ReadTwo(n, v / 60);
  }

  lemma ReadHoursMinutes(hs: string, ms: string, h: int, m: int)
    requires NoSpace(hs) && NoSpace(ms)
    requires ParseInt(hs) == Some(h) && ParseInt(ms) == Some(m)
    ensures ReadMinutes(hs + " h " + ms + " min") == Some(h * 60 + m)
  {
    FourWords(hs, ms);
    ReadFour(hs, ms, h, m);
  }

  lemma ReadRenderedHoursMinutes(h: int, m: int)
    ensures ReadMinutes(IntToString(h) + " h " + IntToString(m) + " min") == Some(h * 60 + m)
  {
    ParseIntRoundTrip(h);
    ParseIntRoundTrip(m);
    ReadHoursMinutes(IntToString(h), IntToString(m), h, m);
  }

  lemma HoursMinutesRoundTrip(v: int)
    requires v >= 60 && v % 60 != 0
    ensures ReadMinutes(FormatMinutes(Some(v))) == Some(v)
  {
    var h, m := v / 60, v % 60;
    assert ReadMinutes(FormatMinutes(Some(v))) == Some(h * 60 + m) by {
      HoursMinutesRendering(v);
      ReadRenderedHoursMinutes(h, m);
    }
    assert h * 60 + m == v;
  }

  lemma HoursMinutesRendering(v: int)
    requires v >= 60 && v % 60 != 0
    ensures FormatMinutes(Some(v)) == IntToString(v / 60) + " h " + IntToString(v % 60) + " min"
  {
  }

  /** The rendering loses nothing: every duration, and the dash, reads back
      as the value it was made from. */
  lemma FormatMinutesRoundTrip(value: Option<int>)
    ensures ReadMinutes(FormatMinutes(value)) == value
  {
    match value {
      case None =>
        WordsOfWord(Dash);
      case Some(v) =>
        if v < 60 {
          MinutesRoundTrip(v);
        } else if v % 60 == 0 {
          WholeHoursRoundTrip(v);
        } else {
          HoursMinutesRoundTrip(v);
        }
    }
  }

  /** In the hours form the hours shown are at least 1 and the minutes
      between 1 and 59, and the two add back to the duration. */
  lemma HoursForm(v: int)
    requires v >= 60 && v % 60 != 0
    ensures var ws := Words(FormatMinutes(Some(v)));
            |ws| == 4 && ParseInt(ws[0]).Some? && ParseInt(ws[2]).Some?
            && ParseInt(ws[0]).value >= 1 && 0 < ParseInt(ws[2]).value < 60
            && ParseInt(ws[0]).value * 60 + ParseInt(ws[2]).value == v
  {
    var hs := IntToString(v / 60);
    var ms := IntToString(v % 60);
    FourWords(hs, ms);
    assert FormatMinutes(Some(v)) == hs + " h " + ms + " min";
    ParseIntRoundTrip(v / 60);
    ParseIntRoundTrip(v % 60);
  }

  // ---------------------------------------------------------------------
  // Battery
  // ---------------------------------------------------------------------

  /** The battery cell: the level followed by `%`, or the dash. */
  function FormatBattery(level: Option<int>): (s: string)
    ensures s == Dash <==> level.None?
    ensures |s| > 0
  {
    match level
    case Some(n) => IntToString(n) + "%"
    case None => Dash
  }

  /** Reading the battery cell back. */
  function ReadBattery(s: string): Option<int> {
    if |s| > 0 && s[|s| - 1] == '%' then ParseInt(s[..|s| - 1]) else None
  }

  /** The battery cell shows the stored level exactly. */
  lemma FormatBatteryRoundTrip(level: Option<int>)
    ensures ReadBattery(FormatBattery(level)) == level
  {
    if level.Some? {
      var s := IntToString(level.value) + "%";
      assert s[..|s| - 1] == IntToString(level.value);
      ParseIntRoundTrip(level.value);
    }
  }

  // ---------------------------------------------------------------------
  // Vehicle label
  // ---------------------------------------------------------------------

  /** JavaScript truthiness of a nullable string. */
  predicate Filled(x: Option<string>) {
    x.Some? && |x.value| > 0
  }

  /** The option label of a vehicle: its nickname, else its VIN, else its
      external id (each skipped when null or empty), else `#` and its id. */
  function VehicleLabel(v: Vehicle): (shown: string)
    ensures |shown| > 0
    ensures Filled(v.nickname) ==> shown == v.nickname.value
    ensures !Filled(v.nickname) && Filled(v.vin) ==> shown == v.vin.value
    ensures !Filled(v.nickname) && !Filled(v.vin) && Filled(v.externalId) ==> shown == v.externalId.value
    ensures !Filled(v.nickname) && !Filled(v.vin) && !Filled(v.externalId) ==> shown[0] == '#'
  {
    if Filled(v.nickname) then v.nickname.value
    else if Filled(v.vin) then v.vin.value
    else if Filled(v.externalId) then v.externalId.value
    else "#" + IntToString(v.id)
  }

  /** Two vehicles with nothing but their ids to show get different labels. */
  lemma FallbackLabelsDistinct(a: Vehicle, b: Vehicle)
    requires !Filled(a.nickname) && !Filled(a.vin) && !Filled(a.externalId)
    requires !Filled(b.nickname) && !Filled(b.vin) && !Filled(b.externalId)
    requires VehicleLabel(a) == VehicleLabel(b)
    ensures a.id == b.id
  {
    assert VehicleLabel(a)[1..] == IntToString(a.id);
    assert VehicleLabel(b)[1..] == IntToString(b.id);
    IntToStringInjective(a.id, b.id);
  }

  // ---------------------------------------------------------------------
  // Map link
  // ---------------------------------------------------------------------

  /** `x != null` on a nullable JSON value. */
  predicate NonNull(x: Option<Json>) {
    x.Some? && !x.value.JNull?
  }

  /** The map link is shown only when both coordinates are present. */
  predicate ShowMapLink(s: StatusRecord) {
    NonNull(s.latitude) && NonNull(s.longitude)
  }

  /** A stored refresh record meets the link condition exactly when the
      payload holds both a non-null latitude and a non-null longitude
      under `result.status.lastLocation.coord`; one alone does not. */
  lemma RefreshMapLink(vehicleId: int, payload: Json)
    ensures ShowMapLink(RefreshRecord(vehicleId, payload))
            <==> CoordAt(payload, "lat").Some? && CoordAt(payload, "lon").Some?
  {
    RefreshCoordinates(vehicleId, payload);
    CoordNonNull(payload, "lat");
    CoordNonNull(payload, "lon");
  }

  lemma CoordNonNull(payload: Json, key: string)
    ensures NonNull(CoordAt(payload, key)) <==> CoordAt(payload, key).Some?
  {
  }

  /** A stored record from the map mapper never meets the link condition:
      it fills no coordinate. */
  lemma MappedStatusHasNoLink(vehicleId: int, payload: Json)
    requires MapPayload(vehicleId, payload).Ok?
    ensures !ShowMapLink(MapPayload(vehicleId, payload).value)
  {
  }
}
