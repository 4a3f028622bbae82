/**
 * The weather card on the home screen (frontend/src/components/WeatherDisplay.tsx):
 * the WMO weather-code tables, the rain warning, the place-name fallback
 * chain and the shaping of the Open-Meteo columns into daily and hourly rows.
 */
module Weather {
  import opened Wrappers

  /** The WMO code-table 4677 subset Open-Meteo reports, grouped as the card groups them. */
  const KnownCodes: set<int> := {0, 1, 2, 3, 45, 48, 51, 53, 55, 56, 57, 61, 63, 65, 66, 67,
                                 71, 73, 75, 77, 80, 81, 82, 85, 86, 95, 96, 99}
  const Unknown := "알 수 없음"

  /**
   * The row of the code table a code falls in, numbered in table order;
   * codes outside the table are row 0.
   */
  function Row(code: int): (g: nat)
    ensures g < 14
    ensures g == 0 <==> code !in KnownCodes
  {
    if code == 0 then 1
    else if code in {1, 2, 3} then 2
    else if code in {45, 48} then 3
    else if code in {51, 53, 55} then 4
    else if code in {56, 57} then 5
    else if code in {61, 63, 65} then 6
    else if code in {66, 67} then 7
    else if code in {71, 73, 75} then 8
    else if code == 77 then 9
    else if code in {80, 81, 82} then 10
    else if code in {85, 86} then 11
    else if code == 95 then 12
    else if code in {96, 99} then 13
    else 0
  }

  /** The description of each row. */
  const Descriptions: seq<string> := [
    Unknown, "맑음", "대체로 맑음", "안개", "이슬비", "어는 이슬비", "비", "어는 비",
    "눈", "싸락눈", "소나기", "눈 소나기", "뇌우", "우박을 동반한 뇌우"]

  /** `getWeatherDescription`. */
  function Describe(code: int): (r: string)
    ensures r == Unknown <==> code !in KnownCodes
    ensures code == 0 ==> r == "맑음"
    ensures code in {1, 2, 3} ==> r == "대체로 맑음"
    ensures r in Descriptions
  {
    Descriptions[Row(code)]
  }

  /** The Bootstrap icons the card draws. */
  datatype Icon = Sun | Cloud | CloudFog | CloudDrizzle | CloudDrizzleFill | CloudRain | CloudRainFill
                | Snow | CloudRainHeavy | CloudLightningRain | CloudLightningRainFill

  /** The icon of each row: the three snow rows share one. */
  const Icons: seq<Option<Icon>> := [
    None, Some(Sun), Some(Cloud), Some(CloudFog), Some(CloudDrizzle), Some(CloudDrizzleFill),
    Some(CloudRain), Some(CloudRainFill), Some(Snow), Some(Snow), Some(CloudRainHeavy), Some(Snow),
    Some(CloudLightningRain), Some(CloudLightningRainFill)]

  /** `getWeatherIcon`, with `null` as `None`. */
  function IconFor(code: int): (r: Option<Icon>)
    ensures r.Some? <==> code in KnownCodes
    ensures code in {71, 73, 75, 77, 85, 86} ==> r == Some(Snow)
  {
    Icons[Row(code)]
  }

  /** The two tables agree: a code gets an icon exactly when it gets a real description. */
  lemma IconIffDescribed(code: int)
    ensures IconFor(code).Some? <==> Describe(code) != Unknown
  {
  }

  /** Two codes the card describes alike are drawn alike. */
  lemma IconFollowsDescription(a: int, b: int)
    requires Describe(a) == Describe(b)
    ensures IconFor(a) == IconFor(b)
  {
    RowOfDescription(Row(a));
    RowOfDescription(Row(b));
  }

  /** The row a description belongs to; text that is no row's description reads as row 0. */
  function RowOf(d: string): nat {
    if d == "맑음" then 1 else if d == "대체로 맑음" then 2 else if d == "안개" then 3
    else if d == "이슬비" then 4 else if d == "어는 이슬비" then 5 else if d == "비" then 6
    else if d == "어는 비" then 7 else if d == "눈" then 8 else if d == "싸락눈" then 9
    else if d == "소나기" then 10 else if d == "눈 소나기" then 11 else if d == "뇌우" then 12
    else if d == "우박을 동반한 뇌우" then 13 else 0
  }

  /** No two rows share a description. */
  lemma RowOfDescription(g: nat)
    requires g < 14
    ensures RowOf(Descriptions[g]) == g
  {
  }

  const RainCodes: set<int> := {51, 53, 55, 56, 57, 61, 63, 65, 66, 67, 80, 81, 82, 95, 96, 99}

  /** The descriptions that mean water falling: drizzle, rain, showers and thunderstorms. */
  const RainDescriptions: set<string> := {"이슬비", "어는 이슬비", "비", "어는 비", "소나기", "뇌우", "우박을 동반한 뇌우"}

  /** The rows of drizzle, rain, showers and thunderstorms. */
  const RainRows: set<nat> := {4, 5, 6, 7, 10, 12, 13}

  lemma RainCodesAreRainRows(code: int)
    ensures code in RainCodes <==> Row(code) in RainRows
  {
  }

  lemma RainDescriptionsAreRainRows(g: nat)
    requires g < 14
    ensures Descriptions[g] in RainDescriptions <==> g in RainRows
  {
    RowOfDescription(g);
    forall d | d in RainDescriptions
      ensures RowOf(d) in RainRows
    {
    }
  }

  /** The rain warning shows exactly for the codes the card describes as some kind of rain; snow is not rain. */
  lemma RainMeansRainyDescription(code: int)
    ensures code in RainCodes <==> Describe(code) in RainDescriptions
    ensures code in {71, 73, 75, 77, 85, 86} ==> code !in RainCodes
  {
    RainCodesAreRainRows(code);
    RainDescriptionsAreRainRows(Row(code));
  }

  /** One day of the forecast; an entry missing from a shorter column is `None` (`undefined`). */
  datatype DailyWeather = DailyWeather(time: string, weathercode: Option<int>, maxTemp: Option<real>, minTemp: Option<real>)

  /** `daily` as Open-Meteo sends it: parallel columns. */
  datatype DailyColumns = DailyColumns(time: seq<string>, weathercode: seq<int>, maxTemp: seq<real>, minTemp: seq<real>)

  function At<T>(s: seq<T>, i: nat): (r: Option<T>)
    ensures r.Some? <==> i < |s|
    ensures r.Some? ==> r.value == s[i]
  {
    if i < |s| then Some(s[i]) else None
  }

  /** `daily.time.map((time, i) => ...)`: one row per time stamp, pairing the i-th entries of every column. */
  method ZipDaily(c: DailyColumns) returns (days: seq<DailyWeather>)
    ensures |days| == |c.time|
    ensures forall i :: 0 <= i < |days| ==>
              && days[i].time == c.time[i]
              && days[i].weathercode == At(c.weathercode, i)
              && days[i].maxTemp == At(c.maxTemp, i)
              && days[i].minTemp == At(c.minTemp, i)
  {
    days := [];
    var i := 0;
    while i < |c.time|
      invariant 0 <= i <= |c.time| && |days| == i
      invariant forall k :: 0 <= k < i ==>
                  && days[k].time == c.time[k]
                  && days[k].weathercode == At(c.weathercode, k)
                  && days[k].maxTemp == At(c.maxTemp, k)
                  && days[k].minTemp == At(c.minTemp, k)
    {
      days := days + [DailyWeather(c.time[i], At(c.weathercode, i), At(c.maxTemp, i), At(c.minTemp, i))];
      i := i + 1;
    }
  }

  /** The rain warning looks at the first day only. */
  function RainingToday(days: seq<DailyWeather>): (r: bool)
    ensures r ==> |days| > 0 && days[0].weathercode.Some? && Describe(days[0].weathercode.value) in RainDescriptions
    ensures |days| > 0 && days[0].weathercode.Some? && days[0].weathercode.value in RainCodes ==> r
  {
    RainMeansRainyDescription(if |days| > 0 && days[0].weathercode.Some? then days[0].weathercode.value else 0);
    |days| > 0 && days[0].weathercode.Some? && days[0].weathercode.value in RainCodes
  }

  /** `slice(1, 7)`: the weekly strip shows days 1 to 6 and never today. */
  function WeeklyView(days: seq<DailyWeather>): (r: seq<DailyWeather>)
    ensures |r| <= 6
    ensures |days| >= 7 ==> |r| == 6
    ensures 1 <= |days| < 7 ==> |r| == |days| - 1
    ensures |days| == 0 ==> r == []
    ensures forall i :: 0 <= i < |r| ==> i + 1 < |days| && r[i] == days[i + 1]
  {
    if |days| <= 1 then [] else days[1..if |days| < 7 then |days| else 7]
  }

  /** The weekly strip is the forecast without today, cut after six days. */
  lemma {:induction false} WeeklyViewIsTailPrefix(days: seq<DailyWeather>, extra: seq<DailyWeather>)
    requires 1 <= |days| <= 7
    ensures WeeklyView(days) == days[1..]
    ensures |days| == 7 ==> WeeklyView(days + extra) == days[1..]
  {
    if |days| == 7 {
      assert (days + extra)[1..7] == days[1..];
    }
  }

  datatype HourlyWeather = HourlyWeather(time: string, temperature: Option<real>, weathercode: Option<int>)

  function Filter(s: seq<HourlyWeather>, keep: HourlyWeather -> bool): (r: seq<HourlyWeather>)
    ensures |r| <= |s|
    ensures forall x :: x in r <==> x in s && keep(x)
  {
    if |s| == 0 then []
    else if keep(s[0]) then [s[0]] + Filter(s[1..], keep)
    else Filter(s[1..], keep)
  }

  /**
   * The rows `filter` keeps from a concatenation are those of each part in
   * order, so (with `FilterOne`) order and repetitions are preserved.
   */
  lemma {:induction false} FilterAppend(a: seq<HourlyWeather>, b: seq<HourlyWeather>, keep: HourlyWeather -> bool)
    ensures Filter(a + b, keep) == Filter(a, keep) + Filter(b, keep)
  {
    if |a| == 0 {
      assert a + b == b;
    } else {
      assert (a + b)[0] == a[0] && (a + b)[1..] == a[1..] + b;
      FilterAppend(a[1..], b, keep);
      var tail := Filter(a[1..], keep) + Filter(b, keep);
      if keep(a[0]) {
        assert [a[0]] + tail == ([a[0]] + Filter(a[1..], keep)) + Filter(b, keep);
      }
    }
  }

  /** One row is kept exactly when `keep` accepts it. */
  lemma FilterOne(x: HourlyWeather, keep: HourlyWeather -> bool)
    ensures Filter([x], keep) == if keep(x) then [x] else []
  {
    assert [x][1..] == [];
  }

  /**
   * The hourly strip: the rows the clock-dependent `keep` test accepts, in
   * order, cut to the first 24.
   */
  function HourlyView(hours: seq<HourlyWeather>, keep: HourlyWeather -> bool): (r: seq<HourlyWeather>)
    ensures |r| <= 24
    ensures forall h :: h in r ==> h in hours && keep(h)
    ensures |r| <= |Filter(hours, keep)| && r == Filter(hours, keep)[..|r|]
    ensures |Filter(hours, keep)| >= 24 ==> |r| == 24
    ensures |Filter(hours, keep)| <= 24 ==> r == Filter(hours, keep)
  {
    var kept := Filter(hours, keep);
    if |kept| <= 24 then kept else kept[..24]
  }

  /**
   * Hours beyond the first 24 kept ones never show: appending hours to a
   * list that already keeps 24 leaves the strip unchanged.
   */
  lemma HourlyViewIgnoresLaterHours(hours: seq<HourlyWeather>, later: seq<HourlyWeather>, keep: HourlyWeather -> bool)
    requires |Filter(hours, keep)| >= 24
    ensures HourlyView(hours + later, keep) == HourlyView(hours, keep)
  {
    FilterAppend(hours, later, keep);
    var a, b := Filter(hours, keep), Filter(later, keep);
    assert (a + b)[..24] == a[..24];
  }

  /** The `address` part of Nominatim's reply that names a place. */
  datatype PlaceAddress = PlaceAddress(city: Option<string>, town: Option<string>, village: Option<string>,
                                       county: Option<string>, state: Option<string>, country: Option<string>)

  datatype PlaceReply = PlaceReply(address: Option<PlaceAddress>, displayName: Option<string>)

  const UnknownPlace := "알 수 없는 위치"

  /** The keys tried, most local first. */
  function Chain(a: PlaceAddress): seq<Option<string>> {
    [a.city, a.town, a.village, a.county, a.state, a.country]
  }

  /**
   * The place name in the card's heading: the first non-empty of city, town,
   * village, county, state and country; failing those the display name; and
   * the fixed fallback when that is empty too, or when there is no `address`.
   */
  function PlaceName(reply: PlaceReply): (r: string)
    ensures r != ""
    ensures reply.address.None? ==> r == UnknownPlace
    ensures reply.address.Some? ==>
              var chain := Chain(reply.address.value);
              || (exists k :: 0 <= k < |chain| && Truthy(chain[k]) && r == chain[k].value &&
                   forall j :: 0 <= j < k ==> !Truthy(chain[j]))
              || ((forall j :: 0 <= j < |chain| ==> !Truthy(chain[j])) &&
                  r == (if Truthy(reply.displayName) then reply.displayName.value else UnknownPlace))
  {
    match reply.address
    case None => UnknownPlace
    case Some(a) =>
      var chain := Chain(a);
      if Truthy(a.city) then assert Truthy(chain[0]); a.city.value
      else if Truthy(a.town) then assert Truthy(chain[1]); a.town.value
      else if Truthy(a.village) then assert Truthy(chain[2]); a.village.value
      else if Truthy(a.county) then assert Truthy(chain[3]); a.county.value
      else if Truthy(a.state) then assert Truthy(chain[4]); a.state.value
      else if Truthy(a.country) then assert Truthy(chain[5]); a.country.value
      else if Truthy(reply.displayName) then reply.displayName.value
      else UnknownPlace
  }

  /** Seoul City Hall: where the card forecasts when the browser gives no position. */
  const FallbackLatitude: real := 37.5665
  const FallbackLongitude: real := 126.978
  const PositionDenied := "위치 정보를 가져올 수 없습니다. 기본 위치(서울)로 날씨를 표시합니다."
  const NoGeolocation := "이 브라우저에서는 위치 정보가 지원되지 않습니다. 기본 위치(서울)로 날씨를 표시합니다."

  datatype Fix = Located(latitude: real, longitude: real) | Denied | Unsupported

  /** Where to forecast, and the notice shown when that is not the user's own position. */
  function ForecastPoint(f: Fix): (r: (real, real, Option<string>))
    ensures f.Located? <==> r.2.None?
    ensures f.Located? ==> r.0 == f.latitude && r.1 == f.longitude
    ensures !f.Located? ==> r.0 == FallbackLatitude && r.1 == FallbackLongitude
    ensures f.Denied? ==> r.2 == Some(PositionDenied)
    ensures f.Unsupported? ==> r.2 == Some(NoGeolocation)
  {
    match f
    case Located(lat, lng) => (lat, lng, None)
    case Denied => (FallbackLatitude, FallbackLongitude, Some(PositionDenied))
    case Unsupported => (FallbackLatitude, FallbackLongitude, Some(NoGeolocation))
  }
}
