/**
 * The two decisions `WeatherPage` makes about what to show: which background video goes
 * with the current weather description, and which of its four views it renders.
 */
module WeatherPage {
  import opened Wrappers
  import opened Text

  /** The background videos the page imports. */
  datatype Video =
    | ClearSkyVideo | FewCloudVideo | ScatteredCloudVideo | BrokenCloudVideo | OvercastCloudVideo
    | ShowerRainVideo | RainyVideo | ThunderstormVideo | DrizzleVideo | LightRainVideo
    | SnowVideo | HazeVideo | DefaultVideo

  /**
   * The `switch` on the lower-cased description: exact matches only, anything else the
   * default; a dedicated video is always the one listed for the lower-cased description.
   */
  function VideoFor(description: string): (v: Video)
    ensures v != DefaultVideo ==> exists i :: 0 <= i < |VideoTable| && VideoTable[i] == (ToLower(description), v)
  {
    VideoForKey(ToLower(description))
  }

  /** The cases of the `switch`: a dedicated video is always the one listed for `key`. */
  function VideoForKey(key: string): (v: Video)
    ensures v != DefaultVideo ==> exists i :: 0 <= i < |VideoTable| && VideoTable[i] == (key, v)
  {
    match key
    case "clear sky" => assert VideoTable[0] == (key, ClearSkyVideo); ClearSkyVideo
    case "few clouds" => assert VideoTable[1] == (key, FewCloudVideo); FewCloudVideo
    case "scattered clouds" => assert VideoTable[2] == (key, ScatteredCloudVideo); ScatteredCloudVideo
    case "broken clouds" => assert VideoTable[3] == (key, BrokenCloudVideo); BrokenCloudVideo
    case "overcast clouds" => assert VideoTable[4] == (key, OvercastCloudVideo); OvercastCloudVideo
    case "shower rain" => assert VideoTable[5] == (key, ShowerRainVideo); ShowerRainVideo
    case "rain" => assert VideoTable[6] == (key, RainyVideo); RainyVideo
    case "thunderstorm" => assert VideoTable[7] == (key, ThunderstormVideo); ThunderstormVideo
    case "drizzle" => assert VideoTable[8] == (key, DrizzleVideo); DrizzleVideo
    case "light rain" => assert VideoTable[9] == (key, LightRainVideo); LightRainVideo
    case "snow" => assert VideoTable[10] == (key, SnowVideo); SnowVideo
    case "haze" => assert VideoTable[11] == (key, HazeVideo); HazeVideo
    case _ => DefaultVideo
  }

  /** The twelve descriptions the page knows, each with the video it is meant to select. */
  const VideoTable: seq<(string, Video)> := [
    ("clear sky", ClearSkyVideo), ("few clouds", FewCloudVideo),
    ("scattered clouds", ScatteredCloudVideo), ("broken clouds", BrokenCloudVideo),
    ("overcast clouds", OvercastCloudVideo), ("shower rain", ShowerRainVideo),
    ("rain", RainyVideo), ("thunderstorm", ThunderstormVideo), ("drizzle", DrizzleVideo),
    ("light rain", LightRainVideo), ("snow", SnowVideo), ("haze", HazeVideo)
  ]

  /** The video of the first table entry for `key`, or the default. */
  function LookUp(table: seq<(string, Video)>, key: string): Video {
    if table == [] then DefaultVideo
    else if table[0].0 == key then table[0].1
    else LookUp(table[1..], key)
  }

  /** A key that no entry carries looks up the default. */
  lemma {:induction false} LookUpMiss(table: seq<(string, Video)>, key: string)
    requires forall i :: 0 <= i < |table| ==> table[i].0 != key
    ensures LookUp(table, key) == DefaultVideo
  {
    if table != [] {
      LookUpMiss(table[1..], key);
    }
  }

  /** A key first carried by entry `i` looks up that entry's video. */
  lemma {:induction false} LookUpHit(table: seq<(string, Video)>, key: string, i: nat)
    requires i < |table| && table[i].0 == key
    requires forall j :: 0 <= j < i ==> table[j].0 != key
    ensures LookUp(table, key) == table[i].1
  {
    if i > 0 {
      LookUpHit(table[1..], key, i - 1);
    }
  }

  /** The twelve keys differ from one another, so each one is found at its own entry. */
  lemma KeysDistinct()
    ensures forall i, j :: 0 <= i < j < |VideoTable| ==> VideoTable[i].0 != VideoTable[j].0
  {
  }

  /** The switch agrees with the table: every listed key selects its video, all others the default. */
  lemma SwitchMatchesTable(key: string)
    ensures VideoForKey(key) == LookUp(VideoTable, key)
    ensures VideoForKey(key) != DefaultVideo <==>
      exists i :: 0 <= i < |VideoTable| && VideoTable[i].0 == key
  {
    TableVideosAreDedicated();
    if i :| 0 <= i < |VideoTable| && VideoTable[i].0 == key {
      HitAt(key, i);
      if i < 6 { SwitchHitLow(i); } else { SwitchHitHigh(i); }
    } else {
      LookUpMiss(VideoTable, key);
      SwitchMiss(key);
    }
  }

  /** The switch sends each of the first six listed keys to its video. */
  lemma SwitchHitLow(i: nat)
    requires i < 6
    ensures VideoForKey(VideoTable[i].0) == VideoTable[i].1
  {
  }

  /** The switch sends each of the last six listed keys to its video. */
  lemma SwitchHitHigh(i: nat)
    requires 6 <= i < |VideoTable|
    ensures VideoForKey(VideoTable[i].0) == VideoTable[i].1
  {
  }

  /** The switch sends every unlisted key to the default. */
  lemma SwitchMiss(key: string)
    requires forall i :: 0 <= i < |VideoTable| ==> VideoTable[i].0 != key
    ensures VideoForKey(key) == DefaultVideo
  {
    assert VideoTable[0].0 != key && VideoTable[1].0 != key && VideoTable[2].0 != key;
    assert VideoTable[3].0 != key && VideoTable[4].0 != key && VideoTable[5].0 != key;
    assert VideoTable[6].0 != key && VideoTable[7].0 != key && VideoTable[8].0 != key;
    assert VideoTable[9].0 != key && VideoTable[10].0 != key && VideoTable[11].0 != key;
  }

  /** Entry `i` is the first entry carrying `key`. */
  lemma HitAt(key: string, i: nat)
    requires i < |VideoTable| && VideoTable[i].0 == key
    ensures LookUp(VideoTable, key) == VideoTable[i].1
  {
    KeysDistinct();
    LookUpHit(VideoTable, key, i);
  }

  /** The table gives twelve different videos, none of them the default. */
  lemma TableVideosAreDedicated()
    ensures forall i, j :: 0 <= i < j < |VideoTable| ==> VideoTable[i].1 != VideoTable[j].1
    ensures forall i :: 0 <= i < |VideoTable| ==> VideoTable[i].1 != DefaultVideo
  {
  }

  /** A description gets a dedicated video exactly when its lower-case form is listed, and then the listed one. */
  lemma VideoForMatchesTable(description: string)
    ensures VideoFor(description) == LookUp(VideoTable, ToLower(description))
    ensures VideoFor(description) != DefaultVideo <==>
      exists i :: 0 <= i < |VideoTable| && VideoTable[i].0 == ToLower(description)
  {
    SwitchMatchesTable(ToLower(description));
  }

  /** Descriptions that differ only in letter case select the same video. */
  lemma VideoForIgnoresCase(d1: string, d2: string)
    requires ToLower(d1) == ToLower(d2)
    ensures VideoFor(d1) == VideoFor(d2)
  {
  }

  /** Matching is exact: "light rain" is not taken for "rain", and an unlisted description gets the default. */
  lemma ExactMatching()
    ensures VideoForKey("light rain") == LightRainVideo
    ensures VideoForKey("rain") == RainyVideo
    ensures VideoForKey("heavy rain") == DefaultVideo
  {
  }

  /** The description the API sends in title case selects the same video as its lower-case form. */
  lemma TitleCaseDescription()
    ensures VideoFor("Light Rain") == LightRainVideo
  {
    var lower := ToLower("Light Rain");
    assert |lower| == 10 && lower[0] == 'l' && lower[6] == 'r';
    assert lower == "light rain";
  }

  datatype WeatherCondition = WeatherCondition(description: string)

  /** The current-weather reply (`main` and `wind` hold floating-point readings and are not modelled). */
  datatype CurrentWeather = CurrentWeather(weather: seq<WeatherCondition>)

  datatype ForecastItem = ForecastItem(dtTxt: string, weather: seq<WeatherCondition>)

  datatype ForecastData = ForecastData(list: seq<ForecastItem>)

  /**
   * `weatherData.weather[0].description.toLowerCase()` chooses the video. With no condition
   * `weather[0]` is `undefined` and reading its `description` throws (`None`).
   */
  function ChooseVideo(current: CurrentWeather): (v: Option<Video>)
    ensures v.None? <==> current.weather == []
    ensures v.Some? && v.value != DefaultVideo ==>
      exists i :: 0 <= i < |VideoTable| && VideoTable[i] == (ToLower(current.weather[0].description), v.value)
  {
    if current.weather == [] then None else Some(VideoFor(current.weather[0].description))
  }

  /** Only the first weather condition is consulted. */
  lemma OnlyFirstConditionCounts(current: CurrentWeather, others: seq<WeatherCondition>)
    ensures current.weather != [] ==>
      ChooseVideo(current) == ChooseVideo(CurrentWeather([current.weather[0]] + others))
  {
  }

  /** The page's `useState` values. */
  datatype PageState = PageState(
    weatherData: Option<CurrentWeather>,
    forecastData: Option<ForecastData>,
    loading: bool,
    error: Option<string>)

  /** The `useState` initial values: no replies, no error, and the page starts out loading. */
  function InitialPage(): (s: PageState)
    ensures s.weatherData.None? && s.forecastData.None? && s.error.None?
    ensures Render(s) == LoadingView
  {
    PageState(None, None, true, None)
  }

  /** `if (error)`: `null` and the empty message are falsy. */
  predicate HasError(s: PageState): (shown: bool)
    ensures s.error.None? ==> !shown
    ensures s.error == Some("") ==> !shown
    ensures s.error.Some? && |s.error.value| > 0 ==> shown
  {
    s.error.Some? && s.error.value != ""
  }

  /** What the component returns; `RenderThrew` is the `TypeError` of reading `weather[0].description` on an empty list. */
  datatype View = LoadingView | ErrorView(message: string) | NoDataView | ContentView(video: Video) | RenderThrew

  /** The guarded returns at the top of the component, then the content with its video. */
  function Render(s: PageState): (v: View)
    ensures v == LoadingView <==> s.loading
    ensures v.ErrorView? <==> !s.loading && HasError(s)
    ensures v.ErrorView? ==> v.message == s.error.value
    ensures v == NoDataView <==> !s.loading && !HasError(s) && (s.weatherData.None? || s.forecastData.None?)
    ensures v == RenderThrew <==>
      !s.loading && !HasError(s) && s.forecastData.Some? && s.weatherData.Some? && s.weatherData.value.weather == []
    ensures v.ContentView? ==> ChooseVideo(s.weatherData.value) == Some(v.video)
  {
    if s.loading then LoadingView
    else if HasError(s) then ErrorView(s.error.value)
    else if s.weatherData.None? || s.forecastData.None? then NoDataView
    else match ChooseVideo(s.weatherData.value)
      case None => RenderThrew
      case Some(video) => ContentView(video)
  }

  /** How `fetchWeatherData` ends. */
  datatype FetchOutcome =
    | BothFetched(weather: CurrentWeather, forecast: ForecastData)
    | WeatherFailed(message: string)                          // thrown before any state is set
    | ForecastFailed(weather: CurrentWeather, message: string)  // thrown after the weather was stored

  /** The state after `fetchWeatherData`: loading ends on both paths; `error` is set only on the error path. */
  function AfterFetch(s: PageState, o: FetchOutcome): (t: PageState)
    ensures !t.loading
    ensures t.error == if o.BothFetched? then s.error else Some(o.message)
    ensures t.weatherData == if o.WeatherFailed? then s.weatherData else Some(o.weather)
    ensures t.forecastData == if o.BothFetched? then Some(o.forecast) else s.forecastData
  {
    match o
    case BothFetched(w, f) => PageState(Some(w), Some(f), false, s.error)
    case WeatherFailed(m) => PageState(s.weatherData, s.forecastData, false, Some(m))
    case ForecastFailed(w, m) => PageState(Some(w), s.forecastData, false, Some(m))
  }

  /** After the first fetch the page never shows "Loading..." again, and it shows what the fetch earned. */
  lemma FirstFetchView(o: FetchOutcome)
    ensures var v := Render(AfterFetch(InitialPage(), o));
      && v != LoadingView
      && (o.BothFetched? && o.weather.weather != [] ==>
            v == ContentView(VideoFor(o.weather.weather[0].description)))
      && (o.BothFetched? && o.weather.weather == [] ==> v == RenderThrew)
      && (!o.BothFetched? && o.message != "" ==> v == ErrorView(o.message))
      && (!o.BothFetched? && o.message == "" ==> v == NoDataView)
  {
  }

  /** Nothing ever clears the error: once an error is shown, later fetches keep showing an error. */
  lemma ErrorIsSticky(s: PageState, o: FetchOutcome)
    requires HasError(s)
    ensures Render(AfterFetch(s, o)).ErrorView?
      || (!o.BothFetched? && o.message == "")
  {
  }

  /** Precedence: loading masks an error, an error masks missing data, and content needs both replies. */
  lemma RenderPrecedence(s: PageState)
    ensures s.loading ==> Render(s) == LoadingView
    ensures !s.loading && HasError(s) ==> Render(s) == ErrorView(s.error.value)
    ensures Render(s).ContentView? ==> !s.loading && !HasError(s) && s.weatherData.Some? && s.forecastData.Some?
  {
  }
}
