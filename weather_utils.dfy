/** WeatherUtils.getResults: build the request URL, fetch and parse the response, and turn
    the parsed records into WeatherData. The HTTP exchange is a parameter. */
module WeatherUtils {
  import opened Wrappers
  import opened WeatherRecords
  import opened WeatherJsonParser

  /** The fixed prefix of every request. */
  const WeatherWebServiceUrl := "http://api.openweathermap.org/data/2.5/weather?q="

  /** What the HTTP exchange for one URL yields: an IOException (connection failure, an
      error status, malformed JSON), or a well-formed JSON document. */
  datatype HttpResponse = IOFailure | Body(json: JsonValue)

  /** The request URL: the prefix followed by the location exactly as typed (no encoding). */
  function RequestUrl(weather: string): (url: string)
    ensures |url| == |WeatherWebServiceUrl| + |weather|
    ensures url[..|WeatherWebServiceUrl|] == WeatherWebServiceUrl
    ensures url[|WeatherWebServiceUrl|..] == weather
  {
    WeatherWebServiceUrl + weather
  }

  /** Different locations are sent as different URLs. */
  lemma RequestUrlInjective(a: string, b: string)
    requires RequestUrl(a) == RequestUrl(b)
    ensures a == b
  {
    assert a == RequestUrl(a)[|WeatherWebServiceUrl|..];
  }

  /** The WeatherData built from a complete parsed record. */
  function ToWeatherData(jw: JsonWeather): WeatherData
    requires Complete(jw)
  {
    WeatherData(
      jw.name,
      jw.wind.value.speed,
      jw.wind.value.deg,
      jw.main.value.temp,
      jw.main.value.humidity,
      jw.sys.value.sunrise,
      jw.sys.value.sunset)
  }

  /** What the parser makes of a response: an IOException is caught and leaves the list
      null; a parser exception escapes. */
  function ParsedResponse(response: HttpResponse): Result<Option<seq<JsonWeather>>, ParseError> {
    match response
    case IOFailure => Success(None)
    case Body(json) => MessageSpec(json)
  }

  /** getResults(weather), where `fetch` stands for the HTTP GET of a URL. A Failure
      result is an exception thrown out of getResults; Success(None) is a null return. */
  method GetResults(weather: string, fetch: string -> HttpResponse) returns (r: Result<Option<seq<WeatherData>>, ParseError>)
    ensures var parsed := ParsedResponse(fetch(RequestUrl(weather)));
      && (parsed.Failure? ==> r == Failure(parsed.error))
      && (parsed.Success? ==> r.Success?)
      && (parsed.Success? && (parsed.value.None? || parsed.value.value == []) ==> r == Success(None))
      && (parsed.Success? && parsed.value.Some? && parsed.value.value != [] ==> r.Success? && r.value.Some?)
      && (r.Success? && r.value.Some? ==>
            && parsed.Success? && parsed.value.Some?
            && |r.value.value| == |parsed.value.value| == 1
            && forall i :: 0 <= i < |r.value.value| ==>
                 var d, jw := r.value.value[i], parsed.value.value[i];
                 && Complete(jw)
                 && d.name == jw.name
                 && d.speed == jw.wind.value.speed && d.deg == jw.wind.value.deg
                 && d.temp == jw.main.value.temp && d.humidity == jw.main.value.humidity
                 && d.sunrise == jw.sys.value.sunrise && d.sunset == jw.sys.value.sunset)
  {
    var returnList: seq<WeatherData> := [];
    var jsonWeathers: Option<seq<JsonWeather>> := None;
    var url := RequestUrl(weather);
    var response := fetch(url);
    match response {
      case IOFailure =>
      case Body(json) =>
        var parsed := ParseWeatherMessage(json);
        if parsed.Failure? {
          return Failure(parsed.error);
        }
        jsonWeathers := parsed.value;
    }
    if jsonWeathers.Some? && |jsonWeathers.value| > 0 {
      var list := jsonWeathers.value;
      for i := 0 to |list|
        invariant |returnList| == i
        invariant forall k :: 0 <= k < i ==> returnList[k] == ToWeatherData(list[k])
      {
        returnList := returnList + [ToWeatherData(list[i])];
      }
      return Success(Some(returnList));
    } else {
      return Success(None);
    }
  }
}
