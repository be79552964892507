/**
 * The weather server: `get_weather` reports the current conditions of the
 * first entry of a wttr.in response, and `get_forecast` reports up to three
 * days, each with every third hourly entry. The response is given as a
 * value; fetching and decoding it is left out, and its failure arrives as
 * an `Err` that both tools pass on unchanged. Every measured value
 * (temperatures, humidity, wind, ...) is an opaque string copied into the
 * output as it is.
 */
module Weather {
  import opened Base
  import opened Text

  /** `AreaValue` and `WeatherDesc` both wrap one `value` string; they are kept as that string. */
  datatype CurrentCondition = CurrentCondition(
    tempF: string, tempC: string, feelsLikeF: string, feelsLikeC: string,
    humidity: string, weatherDesc: seq<string>, windspeedMiles: string,
    windspeedKmph: string, winddir16Point: string, visibility: string,
    pressure: string, uvIndex: string)

  datatype NearestArea = NearestArea(areaName: seq<string>, region: seq<string>, country: seq<string>)

  datatype HourlyForecast = HourlyForecast(time: string, tempF: string, tempC: string, weatherDesc: seq<string>, chanceOfRain: string)

  datatype WeatherDay = WeatherDay(date: string, maxTempF: string, maxTempC: string, minTempF: string, minTempC: string, hourly: seq<HourlyForecast>)

  datatype WttrResponse = WttrResponse(currentCondition: seq<CurrentCondition>, nearestArea: seq<NearestArea>, weather: seq<WeatherDay>)

  /**
   * The place a report names: "{area name}, {region}" of the first nearest
   * area, with "Unknown" for a missing name and nothing for a missing
   * region; the requested location when the response names no area.
   */
  function AreaLabel(nearest: seq<NearestArea>, location: string): (r: string)
    ensures |nearest| == 0 ==> r == location
    ensures |nearest| > 0 ==>
      r == First(nearest[0].areaName).GetOr("Unknown") + ", " + First(nearest[0].region).GetOr("")
  {
    match First(nearest)
    case None => location
    case Some(a) => First(a.areaName).GetOr("Unknown") + ", " + First(a.region).GetOr("")
  }

  // ---- current conditions ----

  /** What `get_weather` prints: the place, the description, and the first condition's measurements. */
  datatype Conditions = Conditions(area: string, description: string, current: CurrentCondition)

  /**
   * `get_weather`: a failed fetch is passed on; a response without any
   * current condition is the error "No current conditions"; otherwise the
   * first condition is reported, described by its first description or
   * "Unknown".
   */
  function GetWeather(location: string, fetched: Result<WttrResponse>): (r: Result<Conditions>)
    ensures fetched.Err? ==> r == Err(fetched.message)
    ensures fetched.Ok? && |fetched.value.currentCondition| == 0 ==> r == Err("No current conditions")
    ensures r.Ok? <==> fetched.Ok? && |fetched.value.currentCondition| > 0
    ensures r.Ok? ==>
      var current := fetched.value.currentCondition[0];
      r.value.current == current
      && r.value.area == AreaLabel(fetched.value.nearestArea, location)
      && (|current.weatherDesc| > 0 ==> r.value.description == current.weatherDesc[0])
      && (|current.weatherDesc| == 0 ==> r.value.description == "Unknown")
  {
    match fetched
    case Err(e) => Err(e)
    case Ok(data) =>
      match First(data.currentCondition)
      case None => Err("No current conditions")
      case Some(current) =>
        Ok(Conditions(AreaLabel(data.nearestArea, location), First(current.weatherDesc).GetOr("Unknown"), current))
  }

  // ---- forecast ----

  /** `days.unwrap_or(3).min(3)`: at most three days, three by default; a request for 0 days gets 0. */
  function ForecastDayCount(days: Option<nat>): (n: nat)
    requires days.Some? ==> days.value < 256
    ensures n <= 3
    ensures days.None? ==> n == 3
    ensures days.Some? ==> n == Min(days.value, 3)
  {
    Min(days.GetOr(3), 3)
  }

  /** The hour of an hourly entry: its time ("0", "300", ..., "2100") read as a `u32`, 0 when unreadable, divided by 100. */
  function HourOf(time: string): nat {
    ParseU32(time).GetOr(0) / 100
  }

  /** The hour times 100 stays within a `u32`, as the value it was divided from was one. */
  lemma HourOfBound(time: string)
    ensures HourOf(time) * 100 < U32
  {
  }

  /** A time written as hours then two digits of minutes gives back its hour. */
  lemma HourOfTime(h: nat, m: nat)
    requires m < 100 && h * 100 + m < U32
    ensures HourOf(NatToDecimal(h * 100 + m)) == h
  {
    ParseU32RoundTrip(h * 100 + m);
  }

  /** A time that does not read as a number counts as hour 0. */
  lemma HourOfUnreadable(time: string)
    requires ParseU32(time).None?
    ensures HourOf(time) == 0
  {
  }

  /** `step_by(3)`: the entries at positions 0, 3, 6, ... */
  function StrideSample<T>(hs: seq<T>): (r: seq<T>)
    ensures |r| == (|hs| + 2) / 3
    ensures forall k :: 0 <= k < |r| ==> 3 * k < |hs| && r[k] == hs[3 * k]
  {
    if |hs| <= 3 then (if |hs| == 0 then [] else [hs[0]])
    else
      var rest := StrideSample(hs[3..]);
      assert forall k :: 1 <= k < 1 + |rest| ==> ([hs[0]] + rest)[k] == hs[3..][3 * (k - 1)];
      [hs[0]] + rest
  }

  /** Only the sampled entries: every entry at a position that is a multiple of 3 appears. */
  lemma StrideSampleCovers<T>(hs: seq<T>, i: nat)
    requires i < |hs| && i % 3 == 0
    ensures i / 3 < |StrideSample(hs)| && StrideSample(hs)[i / 3] == hs[i]
  {
  }

  datatype ForecastLine =
    | ForecastTitle(area: string, days: nat)
    | DayHeader(date: string, maxTempF: string, maxTempC: string, minTempF: string, minTempC: string)
    | HourLine(hour: nat, tempF: string, description: string, chanceOfRain: string)
    | DayEnd

  /** The text of one line; each ends in a newline, so the report splits back into its lines. */
  function RenderForecastLine(line: ForecastLine): (r: string)
    ensures |r| > 0 && r[|r| - 1] == '\n'
  {
    match line
    case ForecastTitle(area, days) => "Forecast for " + area + " (" + NatToDecimal(days) + " days):\n\n"
    case DayHeader(date, hf, hc, lf, lc) =>
      date + ":\n  High: " + hf + "°F / " + hc + "°C | Low: " + lf + "°F / " + lc + "°C\n"
    case HourLine(hour, t, desc, rain) => "  " + Pad2(hour) + ":00 - " + t + "°F, " + desc + ", " + rain + "% rain\n"
    case DayEnd => "\n"
  }

  function HeaderOf(day: WeatherDay): ForecastLine {
    DayHeader(day.date, day.maxTempF, day.maxTempC, day.minTempF, day.minTempC)
  }

  /** One hourly line: the hour, the temperature, the first description or "?", the chance of rain. */
  function HourLineOf(h: HourlyForecast): ForecastLine {
    HourLine(HourOf(h.time), h.tempF, First(h.weatherDesc).GetOr("?"), h.chanceOfRain)
  }

  function HourLines(hs: seq<HourlyForecast>): (r: seq<ForecastLine>)
    ensures |r| == |hs|
    ensures forall i :: 0 <= i < |hs| ==> r[i] == HourLineOf(hs[i])
  {
    if |hs| == 0 then [] else HourLines(hs[..|hs| - 1]) + [HourLineOf(hs[|hs| - 1])]
  }

  /** One day's section: its header, a line for every third hourly entry, and a blank line. */
  function DaySection(day: WeatherDay): seq<ForecastLine> {
    [HeaderOf(day)] + HourLines(StrideSample(day.hourly)) + [DayEnd]
  }

  function DaySections(days: seq<WeatherDay>): seq<ForecastLine> {
    if |days| == 0 then [] else DaySections(days[..|days| - 1]) + DaySection(days[|days| - 1])
  }

  /** The whole forecast for the first `n` days of the response. */
  function ForecastLines(area: string, n: nat, weather: seq<WeatherDay>): seq<ForecastLine> {
    [ForecastTitle(area, n)] + DaySections(weather[..Min(n, |weather|)])
  }

  /** The inner loop of `get_forecast`: one line for each sampled hourly entry of a day. */
  method AppendHours(lines: seq<ForecastLine>, hourly: seq<HourlyForecast>) returns (out: seq<ForecastLine>)
    ensures out == lines + HourLines(StrideSample(hourly))
  {
    ghost var sample := StrideSample(hourly);
    out := lines;
    var k := 0;
    while 3 * k < |hourly|
      invariant k <= |sample|
      invariant out == lines + HourLines(sample[..k])
    {
      SampledIndex(|hourly|, k);
      HourLinesStep(sample, k, lines);
      out := out + [HourLineOf(hourly[3 * k])];
      k := k + 1;
    }
    SampledIndex(|hourly|, k);
    assert sample[..k] == sample;
  }

  /** Position `k` of the sample exists exactly when entry 3k does. */
  lemma SampledIndex(n: nat, k: nat)
    ensures 3 * k < n <==> k < (n + 2) / 3
  {
  }

  lemma HourLinesStep(hs: seq<HourlyForecast>, k: nat, prefix: seq<ForecastLine>)
    requires k < |hs|
    ensures prefix + HourLines(hs[..k + 1]) == prefix + HourLines(hs[..k]) + [HourLineOf(hs[k])]
  {
    assert hs[..k + 1][..k] == hs[..k];
  }

  /** The body of the outer loop of `get_forecast`: one day's section. */
  method AppendDay(lines: seq<ForecastLine>, day: WeatherDay) returns (out: seq<ForecastLine>)
    ensures out == lines + DaySection(day)
  {
    out := lines + [HeaderOf(day)];
    out := AppendHours(out, day.hourly);
    out := out + [DayEnd];
    Regroup(lines, [HeaderOf(day)], HourLines(StrideSample(day.hourly)), [DayEnd]);
  }

  lemma Regroup(a: seq<ForecastLine>, b: seq<ForecastLine>, c: seq<ForecastLine>, d: seq<ForecastLine>)
    ensures a + b + c + d == a + (b + c + d)
  {
  }

  /** One more day appended after a prefix gives the sections of one more day. */
  lemma DaySectionsStep(days: seq<WeatherDay>, i: nat, prefix: seq<ForecastLine>)
    requires i < |days|
    ensures prefix + DaySections(days[..i + 1]) == prefix + DaySections(days[..i]) + DaySection(days[i])
  {
    assert days[..i + 1][..i] == days[..i];
  }

  /**
   * `get_forecast`: a failed fetch is passed on; otherwise the title names
   * the place and the clamped day count, and the first that many days of the
   * response follow in order.
   */
  method GetForecast(location: string, days: Option<nat>, fetched: Result<WttrResponse>) returns (r: Result<seq<ForecastLine>>)
    requires days.Some? ==> days.value < 256
    ensures fetched.Err? ==> r == Err(fetched.message)
    ensures fetched.Ok? ==>
      r == Ok(ForecastLines(AreaLabel(fetched.value.nearestArea, location), ForecastDayCount(days), fetched.value.weather))
  {
    match fetched
    case Err(e) =>
      r := Err(e);
    case Ok(data) =>
      var n := Min(days.GetOr(3), 3);
      var lines := ForecastBody(AreaLabel(data.nearestArea, location), n, data.weather);
      r := Ok(lines);
  }

  /** The title and the outer loop of `get_forecast`, over the first `n` days. */
  method ForecastBody(area: string, n: nat, weather: seq<WeatherDay>) returns (lines: seq<ForecastLine>)
    ensures lines == ForecastLines(area, n, weather)
  {
    lines := [ForecastTitle(area, n)];
    for i := 0 to Min(n, |weather|)
      invariant lines == [ForecastTitle(area, n)] + DaySections(weather[..i])
    {
      DaySectionsStep(weather, i, [ForecastTitle(area, n)]);
      lines := AppendDay(lines, weather[i]);
    }
  }

  // ---- what the forecast shows ----

  /** The day headers among forecast lines, in order. */
  function Headers(lines: seq<ForecastLine>): seq<ForecastLine> {
    if |lines| == 0 then []
    else Headers(lines[..|lines| - 1]) + (if lines[|lines| - 1].DayHeader? then [lines[|lines| - 1]] else [])
  }

  lemma {:induction false} HeadersAppend(a: seq<ForecastLine>, b: seq<ForecastLine>)
    ensures Headers(a + b) == Headers(a) + Headers(b)
  {
    if |b| == 0 {
      assert a + b == a;
    } else {
      assert (a + b)[..|a + b| - 1] == a + b[..|b| - 1];
      HeadersAppend(a, b[..|b| - 1]);
    }
  }

  lemma {:induction false} HeadersOfHours(hs: seq<HourlyForecast>)
    ensures Headers(HourLines(hs)) == []
  {
    if |hs| > 0 {
      HeadersOfHours(hs[..|hs| - 1]);
    }
  }

  lemma HeadersOfOne(line: ForecastLine)
    ensures Headers([line]) == if line.DayHeader? then [line] else []
  {
    assert [line][..0] == [];
  }

  lemma HeadersOfSection(day: WeatherDay)
    ensures Headers(DaySection(day)) == [HeaderOf(day)]
  {
    var head, hours, end := [HeaderOf(day)], HourLines(StrideSample(day.hourly)), [DayEnd];
    HeadersOfHours(StrideSample(day.hourly));
    HeadersOfOne(HeaderOf(day));
    HeadersOfOne(DayEnd);
    HeadersAppend(head, hours);
    HeadersAppend(head + hours, end);
  }

  /** The header of each day, in order. */
  function DayHeaders(days: seq<WeatherDay>): (r: seq<ForecastLine>)
    ensures |r| == |days|
    ensures forall i :: 0 <= i < |days| ==> r[i] == HeaderOf(days[i])
  {
    if |days| == 0 then [] else DayHeaders(days[..|days| - 1]) + [HeaderOf(days[|days| - 1])]
  }

  /** The sections carry one header per day, in the days' order. */
  lemma {:induction false} HeadersOfSections(days: seq<WeatherDay>)
    ensures Headers(DaySections(days)) == DayHeaders(days)
  {
    if |days| > 0 {
      HeadersOfSections(days[..|days| - 1]);
      HeadersStep(days);
    }
  }

  /** The sections of one more day add that day's header. */
  lemma HeadersStep(days: seq<WeatherDay>)
    requires |days| > 0
    ensures Headers(DaySections(days)) == Headers(DaySections(days[..|days| - 1])) + [HeaderOf(days[|days| - 1])]
  {
    var init, last := days[..|days| - 1], days[|days| - 1];
    HeadersAppend(DaySections(init), DaySection(last));
    HeadersOfSection(last);
  }

  /**
   * The forecast shows exactly the first min(n, number of days) days of the
   * response, one header each, in the response's order, and never more than
   * three when `n` is the clamped request.
   */
  lemma ForecastDays(area: string, n: nat, weather: seq<WeatherDay>)
    ensures var shown := Headers(ForecastLines(area, n, weather));
      |shown| == Min(n, |weather|)
      && forall i :: 0 <= i < |shown| ==> shown[i] == HeaderOf(weather[i])
  {
    var days := weather[..Min(n, |weather|)];
    HeadersOfSections(days);
    HeadersOfOne(ForecastTitle(area, n));
    HeadersAppend([ForecastTitle(area, n)], DaySections(days));
    assert forall i :: 0 <= i < |days| ==> days[i] == weather[i];
  }

  /** A day's section lists (hourly count + 2) / 3 hours, the k-th from hourly entry 3k. */
  lemma DaySectionHours(day: WeatherDay)
    ensures var s := DaySection(day);
      |s| == (|day.hourly| + 2) / 3 + 2
      && s[0] == HeaderOf(day) && s[|s| - 1] == DayEnd
      && forall k :: 1 <= k < |s| - 1 ==> s[k] == HourLineOf(day.hourly[3 * (k - 1)])
  {
  }
}
