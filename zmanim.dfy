/** getComingShkia: the next sunset ("shkia") for a location, read from the
    astronomical provider's answer for today and, once today's sunset has
    passed, for the next day. The provider (getZmanimJson), the parsing of
    its time strings (new Date(string)) and the device calendar's "same
    time tomorrow" are parameters that the model does not look into. */
module Zmanim {

  datatype Option<T> = None | Some(value: T)

  /** An instant, in milliseconds since the epoch (Date.getTime()). */
  type Instant = int

  /** A JavaScript Date: a valid time value, or the invalid date that
      new Date(s) gives for a string it cannot read (its time value is NaN,
      and NaN compares false with every number). */
  datatype Date = ValidDate(time: Instant) | InvalidDate

  /** The options object handed to the provider. */
  datatype Options = Options(date: Instant, latitude: real, longitude: real, timeZoneId: string)

  /** The three places in the provider's answer where a sunset may stand:
      BasicZmanim.Sunset, Zmanim.Sunset and a top-level Sunset. A missing
      enclosing object and a missing key are both None. */
  datatype ZmanimJson = ZmanimJson(
    basicZmanimSunset: Option<string>,
    zmanimSunset: Option<string>,
    sunset: Option<string>)

  /** One call of getZmanimJson: it throws, or it returns an answer that
      may be null or undefined (None). */
  datatype ProviderAnswer = Threw | Returned(data: Option<ZmanimJson>)

  /** A sunset value is used only when it is truthy: present and not "". */
  predicate Truthy(s: Option<string>) {
    s.Some? && s.value != ""
  }

  /** The candidate sunset values of an answer, in the order the lookup tries them. */
  function SunsetCandidates(data: Option<ZmanimJson>): (keys: seq<Option<string>>)
    ensures |keys| == 3
  {
    match data
    case None => [None, None, None]
    case Some(j) => [j.basicZmanimSunset, j.zmanimSunset, j.sunset]
  }

  /** The first truthy value of a sequence, or None when it has none. */
  function FirstTruthy(values: seq<Option<string>>): (r: Option<string>)
    ensures r.None? <==> forall i :: 0 <= i < |values| ==> !Truthy(values[i])
    ensures r.Some? ==> Truthy(r)
    ensures r.Some? ==>
      exists i :: 0 <= i < |values| && values[i] == r && forall j :: 0 <= j < i ==> !Truthy(values[j])
  {
    if values == [] then None
    else if Truthy(values[0]) then values[0]
    else
      var r := FirstTruthy(values[1..]);
      assert r.Some? ==>
        exists i :: 1 <= i < |values| && values[i] == r && forall j :: 0 <= j < i ==> !Truthy(values[j])
      by {
        if r.Some? {
          var i :| 0 <= i < |values[1..]| && values[1..][i] == r
            && forall j :: 0 <= j < i ==> !Truthy(values[1..][j]);
          assert values[i + 1] == r;
          assert forall j :: 1 <= j < i + 1 ==> values[j] == values[1..][j - 1];
        }
      }
      r
  }

  /** getSunset: d?.BasicZmanim?.Sunset || d?.Zmanim?.Sunset || d?.Sunset,
      where only the truthiness of a falsy result matters to its callers. */
  function GetSunset(data: Option<ZmanimJson>): (r: Option<string>)
    ensures r == FirstTruthy(SunsetCandidates(data))
  {
    var candidates := SunsetCandidates(data);
    assert candidates[1..][1..][1..] == [];
    assert FirstTruthy(candidates[1..][1..]) == FirstTruthy([candidates[2]]);
    match data
    case None => None
    case Some(j) =>
      if Truthy(j.basicZmanimSunset) then j.basicZmanimSunset
      else if Truthy(j.zmanimSunset) then j.zmanimSunset
      else if Truthy(j.sunset) then j.sunset
      else None
  }

  /** The sunset an answer yields: None when the call threw or the lookup
      found nothing. */
  function SunsetOf(answer: ProviderAnswer): Option<string> {
    if answer.Threw? then None else GetSunset(answer.data)
  }

  /** shkiaDate.getTime() < now.getTime(); false for an invalid date. */
  predicate Before(d: Date, now: Instant) {
    d.ValidDate? && d.time < now
  }

  /** getComingShkia(lat, lng, timeZone). `now` stands for the clock
      readings of the source; `nextLocalDay(t)` is the instant at the same
      device-local wall-clock time one device-local calendar day after t.
      `queries` records the options of every provider call, in order.
      None is the null result. */
  method GetComingShkia(
    lat: real, lng: real, timeZone: string, now: Instant,
    getZmanimJson: Options -> ProviderAnswer,
    parseDate: string -> Date,
    nextLocalDay: Instant -> Instant)
    returns (shkia: Option<Date>, ghost queries: seq<Options>)
    // no sunset today (or the provider threw): null
    ensures var today := SunsetOf(getZmanimJson(Options(now, lat, lng, timeZone)));
      today.None? ==> shkia.None?
    // today's sunset not yet past: returned unchanged
    ensures var today := SunsetOf(getZmanimJson(Options(now, lat, lng, timeZone)));
      today.Some? && !Before(parseDate(today.value), now) ==> shkia == Some(parseDate(today.value))
    // today's sunset past: the answer for the next device-local day decides
    ensures var today := SunsetOf(getZmanimJson(Options(now, lat, lng, timeZone)));
      today.Some? && Before(parseDate(today.value), now) ==>
        var tomorrow := getZmanimJson(Options(nextLocalDay(now), lat, lng, timeZone));
        // the second call threw: null
        && (tomorrow.Threw? ==> shkia.None?)
        // tomorrow's sunset found: returned, whether or not it is before now
        && (tomorrow.Returned? && GetSunset(tomorrow.data).Some? ==>
              shkia == Some(parseDate(GetSunset(tomorrow.data).value)))
        // tomorrow's sunset not found: today's past sunset is returned
        && (tomorrow.Returned? && GetSunset(tomorrow.data).None? ==>
              shkia == Some(parseDate(today.value)))
    // the provider is called once for today, and a second time, with only
    // the date advanced, exactly when today's sunset is past
    ensures var today := SunsetOf(getZmanimJson(Options(now, lat, lng, timeZone)));
      && |queries| == (if today.Some? && Before(parseDate(today.value), now) then 2 else 1)
      && queries[0] == Options(now, lat, lng, timeZone)
      && (|queries| == 2 ==> queries[1] == queries[0].(date := nextLocalDay(now)))
    // every call is for the same place and time zone
    ensures forall k :: 0 <= k < |queries| ==>
      queries[k].latitude == lat && queries[k].longitude == lng && queries[k].timeZoneId == timeZone
    // a non-null result is the parse of a sunset one of the calls yielded
    ensures shkia.Some? ==>
      exists k :: 0 <= k < |queries| && SunsetOf(getZmanimJson(queries[k])).Some?
        && shkia.value == parseDate(SunsetOf(getZmanimJson(queries[k])).value)
  {
    var options := Options(now, lat, lng, timeZone);
    queries := [options];
    var answer := getZmanimJson(options);
    if answer.Threw? {
      return None, queries;
    }
    var data := answer.data;
    var shkiaString := GetSunset(data);
    if shkiaString.None? {
      return None, queries;
    }
    var shkiaDate := parseDate(shkiaString.value);
    if Before(shkiaDate, now) {
      var tomorrow := nextLocalDay(now);
      options := options.(date := tomorrow);
      queries := queries + [options];
      answer := getZmanimJson(options);
      if answer.Threw? {
        return None, queries;
      }
      data := answer.data;
      shkiaString := GetSunset(data);
      if shkiaString.Some? {
        shkiaDate := parseDate(shkiaString.value);
      }
    }
    shkia := Some(shkiaDate);
  }

  /** A run in which getComingShkia returns a sunset that is already past:
      today's sunset has gone, and the provider has no sunset for the next
      day, so the fallback keeps today's. */
  method PastSunsetIsReturned() returns (shkia: Option<Date>, now: Instant)
    ensures shkia.Some? && shkia.value.ValidDate? && shkia.value.time < now
  {
    now := 1000;
    var provider := (o: Options) =>
      if o.date == now then Returned(Some(ZmanimJson(Some("today"), None, None)))
      else Returned(None);
    var parse := (s: string) => if s == "today" then ValidDate(500) else InvalidDate;
    var nextDay := (t: Instant) => t + 86400000;
    ghost var queries;
    shkia, queries := GetComingShkia(31.77, 35.21, "Asia/Jerusalem", now, provider, parse, nextDay);
  }
}
