/** The weather service's JSON parser (vandy.mooc.jsonweather.WeatherJSONParser), over an
    already-tokenised JSON value. Each `while (reader.hasNext())` loop of the parser is a
    method with a loop, proved equal to a left fold over the object's members; lemmas then
    say what the folds promise: the last occurrence of a recognised name wins, other names
    are skipped, and a record is emitted only when "main", "sys" and "wind" were all seen. */
module WeatherJsonParser {
  import opened Wrappers
  import opened WeatherRecords

  /** A JSON value as android.util.JsonReader presents it, already tokenised. */
  datatype JsonValue =
    | JString(s: string)
    | JNumber(n: Number)
    | JBool(b: bool)
    | JNull
    | JArray(items: seq<JsonValue>)
    | JObject(members: seq<Member>)

  /** One name/value pair of an object, in document order. */
  datatype Member = Member(name: string, value: JsonValue)

  /** JsonReader's IllegalStateException: the next token is not what the parser asked for.
      The value names the first read that goes wrong. Each parse method's `finally` block
      then calls endObject or endArray, which throws again in the middle of an object, so
      the exception that escapes is that later one; the value is a label, not its message. */
  datatype ParseError = ExpectedObject | ExpectedArray | ExpectedString | ExpectedNumber | ExpectedName

  /** The parser's records; a String field the JSON did not set stays null (None), a
      numeric one stays 0 (Zero). */
  datatype Weather = Weather(main: Option<string>, description: Option<string>, icon: Option<string>)
  datatype Wind = Wind(deg: Number, speed: Number)
  datatype Sys = Sys(sunrise: Number, sunset: Number, country: Option<string>)
  datatype Main = Main(temp: Number, tempMin: Number, tempMax: Number, humidity: Number)
  datatype JsonWeather = JsonWeather(
    name: Option<string>,
    main: Option<Main>,
    sys: Option<Sys>,
    wind: Option<Wind>,
    weather: Option<seq<Weather>>)

  /** A freshly constructed JsonWeather: no field set. */
  const NoFields: JsonWeather := JsonWeather(None, None, None, None, None)

  /** The record can be converted into a WeatherData: the three parts are present. */
  predicate Complete(jw: JsonWeather) {
    jw.main.Some? && jw.sys.Some? && jw.wind.Some?
  }

  // Member names of the top-level object.
  const NameKey := "name"
  const MainKey := "main"
  const SysKey := "sys"
  const WindKey := "wind"
  const WeatherKey := "weather"

  /** How a recognised member of a nested object is read: by nextString, or by one of
      nextDouble, nextLong and nextInt. */
  datatype FieldKind = StringField | NumberField

  /** A value read from a recognised member. */
  datatype Scalar = Text(text: string) | Num(number: Number)

  /** The recognised names of each nested object and how each is read. */
  const MainFields: map<string, FieldKind> :=
    map["temp" := NumberField, "temp_min" := NumberField, "temp_max" := NumberField, "humidity" := NumberField]
  const SysFields: map<string, FieldKind> :=
    map["sunrise" := NumberField, "sunset" := NumberField, "country" := StringField]
  const WindFields: map<string, FieldKind> :=
    map["deg" := NumberField, "speed" := NumberField]
  const WeatherFields: map<string, FieldKind> :=
    map["main" := StringField, "description" := StringField, "icon" := StringField]

  /** reader.nextString(): a string, or the literal text of a number. */
  function NextString(v: JsonValue): Result<string, ParseError> {
    match v
    case JString(s) => Success(s)
    case JNumber(n) => Success(n.literal)
    case _ => Failure(ExpectedString)
  }

  /** reader.nextDouble(), nextLong() or nextInt() on a number. */
  function NextNumber(v: JsonValue): Result<Number, ParseError> {
    match v
    case JNumber(n) => Success(n)
    case _ => Failure(ExpectedNumber)
  }

  function ReadScalar(kind: FieldKind, v: JsonValue): Result<Scalar, ParseError> {
    match kind
    case StringField =>
      (match NextString(v) case Success(s) => Success(Text(s)) case Failure(e) => Failure(e))
    case NumberField =>
      (match NextNumber(v) case Success(n) => Success(Num(n)) case Failure(e) => Failure(e))
  }

  /** The value of the last member called `key`, if there is one. */
  function LastValue(ms: seq<Member>, key: string): Option<JsonValue>
    decreases |ms|
  {
    if ms == [] then None
    else if LastValue(ms[1..], key).Some? then LastValue(ms[1..], key)
    else if ms[0].name == key then Some(ms[0].value)
    else None
  }

  /** Reading member `m` of an object with recognised names `fields` does not throw. */
  predicate Readable(m: Member, fields: map<string, FieldKind>) {
    m.name in fields ==> ReadScalar(fields[m.name], m.value).Success?
  }

  /** The switch inside a nested object's loop, applied member by member: a recognised name
      sets its field, any other name is skipped (reader.skipValue()). */
  function ReadMembers(ms: seq<Member>, fields: map<string, FieldKind>, acc: map<string, Scalar>)
    : Result<map<string, Scalar>, ParseError>
    decreases |ms|
  {
    if ms == [] then Success(acc)
    else if ms[0].name in fields then
      match ReadScalar(fields[ms[0].name], ms[0].value)
      case Failure(e) => Failure(e)
      case Success(x) => ReadMembers(ms[1..], fields, acc[ms[0].name := x])
    else ReadMembers(ms[1..], fields, acc)
  }

  /** A nested object: reader.beginObject() throws on anything but an object. */
  function ReadObjectSpec(v: JsonValue, fields: map<string, FieldKind>): Result<map<string, Scalar>, ParseError> {
    if v.JObject? then ReadMembers(v.members, fields, map[]) else Failure(ExpectedObject)
  }

  /** Reading succeeds exactly when no recognised member has a value of the wrong kind. */
  lemma {:induction false} ReadMembersSucceeds(ms: seq<Member>, fields: map<string, FieldKind>, acc: map<string, Scalar>)
    ensures ReadMembers(ms, fields, acc).Success? <==> forall i :: 0 <= i < |ms| ==> Readable(ms[i], fields)
    decreases |ms|
  {
    if ms != [] {
      var acc' := if ms[0].name in fields && ReadScalar(fields[ms[0].name], ms[0].value).Success?
        then acc[ms[0].name := ReadScalar(fields[ms[0].name], ms[0].value).value] else acc;
      ReadMembersSucceeds(ms[1..], fields, acc');
      if forall i :: 1 <= i < |ms| ==> Readable(ms[i], fields) {
        forall i | 0 <= i < |ms| - 1 ensures Readable(ms[1..][i], fields) {
          assert ms[1..][i] == ms[i + 1];
        }
      }
      if forall i :: 0 <= i < |ms[1..]| ==> Readable(ms[1..][i], fields) {
        forall i | 1 <= i < |ms| ensures Readable(ms[i], fields) {
          assert ms[i] == ms[1..][i - 1];
        }
      }
    }
  }

  /** The error reported is the one of the first member that cannot be read. */
  lemma {:induction false} ReadMembersFailsAtFirst(ms: seq<Member>, fields: map<string, FieldKind>, acc: map<string, Scalar>, j: nat)
    requires j < |ms| && !Readable(ms[j], fields)
    requires forall i :: 0 <= i < j ==> Readable(ms[i], fields)
    ensures ReadMembers(ms, fields, acc) == Failure(ReadScalar(fields[ms[j].name], ms[j].value).error)
    decreases |ms|
  {
    if j > 0 {
      assert Readable(ms[0], fields);
      var acc' := if ms[0].name in fields then acc[ms[0].name := ReadScalar(fields[ms[0].name], ms[0].value).value] else acc;
      forall i | 0 <= i < j - 1 ensures Readable(ms[1..][i], fields) {
        assert ms[1..][i] == ms[i + 1];
      }
      ReadMembersFailsAtFirst(ms[1..], fields, acc', j - 1);
    }
  }

  /** The field read for `key` is the value of its last occurrence; a name that does not
      occur leaves the field as it was. */
  lemma {:induction false} ReadMembersLastWins(ms: seq<Member>, fields: map<string, FieldKind>, acc: map<string, Scalar>, key: string)
    requires forall i :: 0 <= i < |ms| ==> Readable(ms[i], fields)
    ensures ReadMembers(ms, fields, acc).Success?
    ensures var f := ReadMembers(ms, fields, acc).value;
      if key in fields && LastValue(ms, key).Some?
      then key in f && Success(f[key]) == ReadScalar(fields[key], LastValue(ms, key).value)
      else (key in f <==> key in acc) && (key in acc ==> f[key] == acc[key])
    decreases |ms|
  {
    ReadMembersSucceeds(ms, fields, acc);
    if ms != [] {
      var acc' := if ms[0].name in fields then acc[ms[0].name := ReadScalar(fields[ms[0].name], ms[0].value).value] else acc;
      assert Readable(ms[0], fields);
      forall i | 0 <= i < |ms| - 1 ensures Readable(ms[1..][i], fields) {
        assert ms[1..][i] == ms[i + 1];
      }
      ReadMembersLastWins(ms[1..], fields, acc', key);
    }
  }

  /** A member whose name is not recognised can be taken out without changing the result. */
  lemma {:induction false} ReadMembersSkipsUnknown(before: seq<Member>, m: Member, after: seq<Member>, fields: map<string, FieldKind>, acc: map<string, Scalar>)
    requires m.name !in fields
    ensures ReadMembers(before + [m] + after, fields, acc) == ReadMembers(before + after, fields, acc)
    decreases |before|
  {
    if before == [] {
      assert (before + [m] + after)[1..] == before + after;
    } else {
      assert (before + [m] + after)[0] == before[0] && (before + after)[0] == before[0];
      assert (before + [m] + after)[1..] == before[1..] + [m] + after;
      assert (before + after)[1..] == before[1..] + after;
      var acc' := if before[0].name in fields && ReadScalar(fields[before[0].name], before[0].value).Success?
        then acc[before[0].name := ReadScalar(fields[before[0].name], before[0].value).value] else acc;
      ReadMembersSkipsUnknown(before[1..], m, after, fields, acc');
    }
  }

  /** The loop of parseMain, parseSys, parseWind and parseWeather: begin the object, read
      each member through the switch, end the object. */
  method ReadObject(v: JsonValue, fields: map<string, FieldKind>) returns (r: Result<map<string, Scalar>, ParseError>)
    ensures r == ReadObjectSpec(v, fields)
  {
    if !v.JObject? {
      return Failure(ExpectedObject);
    }
    var ms := v.members;
    var f: map<string, Scalar> := map[];
    var i := 0;
    while i < |ms|
      invariant 0 <= i <= |ms|
      invariant ReadMembers(ms, fields, map[]) == ReadMembers(ms[i..], fields, f)
    {
      var m := ms[i];
      assert ms[i..][1..] == ms[i + 1..];
      if m.name in fields {
        var x := ReadScalar(fields[m.name], m.value);
        if x.Failure? {
          return Failure(x.error);
        }
        f := f[m.name := x.value];
      }
      i := i + 1;
    }
    return Success(f);
  }

  function NumberOr(f: map<string, Scalar>, key: string): Number {
    if key in f && f[key].Num? then f[key].number else Zero
  }

  function TextOr(f: map<string, Scalar>, key: string): Option<string> {
    if key in f && f[key].Text? then Some(f[key].text) else None
  }

  function MainSpec(v: JsonValue): Result<Main, ParseError> {
    match ReadObjectSpec(v, MainFields)
    case Failure(e) => Failure(e)
    case Success(f) => Success(Main(NumberOr(f, "temp"), NumberOr(f, "temp_min"), NumberOr(f, "temp_max"), NumberOr(f, "humidity")))
  }

  function SysSpec(v: JsonValue): Result<Sys, ParseError> {
    match ReadObjectSpec(v, SysFields)
    case Failure(e) => Failure(e)
    case Success(f) => Success(Sys(NumberOr(f, "sunrise"), NumberOr(f, "sunset"), TextOr(f, "country")))
  }

  function WindSpec(v: JsonValue): Result<Wind, ParseError> {
    match ReadObjectSpec(v, WindFields)
    case Failure(e) => Failure(e)
    case Success(f) => Success(Wind(NumberOr(f, "deg"), NumberOr(f, "speed")))
  }

  function WeatherSpec(v: JsonValue): Result<Weather, ParseError> {
    match ReadObjectSpec(v, WeatherFields)
    case Failure(e) => Failure(e)
    case Success(f) => Success(Weather(TextOr(f, "main"), TextOr(f, "description"), TextOr(f, "icon")))
  }

  /** The number a numeric field ends up with: that of the member's last occurrence, or 0. */
  function LastNumber(ms: seq<Member>, key: string): Number {
    match LastValue(ms, key)
    case Some(JNumber(n)) => n
    case _ => Zero
  }

  /** The string a String field ends up with: that of the member's last occurrence, or null. */
  function LastString(ms: seq<Member>, key: string): Option<string> {
    match LastValue(ms, key)
    case Some(v) => (match NextString(v) case Success(s) => Some(s) case Failure(_) => None)
    case None => None
  }

  /** A field of a nested object equals the value of the last member of its name, or
      keeps its default. */
  lemma NumberFieldIsLast(ms: seq<Member>, fields: map<string, FieldKind>, key: string)
    requires ReadMembers(ms, fields, map[]).Success?
    requires key in fields && fields[key] == NumberField
    ensures NumberOr(ReadMembers(ms, fields, map[]).value, key) == LastNumber(ms, key)
  {
    ReadMembersSucceeds(ms, fields, map[]);
    ReadMembersLastWins(ms, fields, map[], key);
  }

  lemma StringFieldIsLast(ms: seq<Member>, fields: map<string, FieldKind>, key: string)
    requires ReadMembers(ms, fields, map[]).Success?
    requires key in fields && fields[key] == StringField
    ensures TextOr(ReadMembers(ms, fields, map[]).value, key) == LastString(ms, key)
  {
    ReadMembersSucceeds(ms, fields, map[]);
    ReadMembersLastWins(ms, fields, map[], key);
  }

  /** parseMain: temp, temp_min, temp_max and humidity come from their last occurrences;
      every other member is skipped. */
  lemma MainFromLastMembers(ms: seq<Member>)
    requires MainSpec(JObject(ms)).Success?
    ensures MainSpec(JObject(ms)).value
      == Main(LastNumber(ms, "temp"), LastNumber(ms, "temp_min"), LastNumber(ms, "temp_max"), LastNumber(ms, "humidity"))
  {
    NumberFieldIsLast(ms, MainFields, "temp");
    NumberFieldIsLast(ms, MainFields, "temp_min");
    NumberFieldIsLast(ms, MainFields, "temp_max");
    NumberFieldIsLast(ms, MainFields, "humidity");
  }

  /** parseSys: sunrise, sunset and country come from their last occurrences. */
  lemma SysFromLastMembers(ms: seq<Member>)
    requires SysSpec(JObject(ms)).Success?
    ensures SysSpec(JObject(ms)).value
      == Sys(LastNumber(ms, "sunrise"), LastNumber(ms, "sunset"), LastString(ms, "country"))
  {
    NumberFieldIsLast(ms, SysFields, "sunrise");
    NumberFieldIsLast(ms, SysFields, "sunset");
    StringFieldIsLast(ms, SysFields, "country");
  }

  /** parseWind: deg and speed come from their last occurrences. */
  lemma WindFromLastMembers(ms: seq<Member>)
    requires WindSpec(JObject(ms)).Success?
    ensures WindSpec(JObject(ms)).value == Wind(LastNumber(ms, "deg"), LastNumber(ms, "speed"))
  {
    NumberFieldIsLast(ms, WindFields, "deg");
    NumberFieldIsLast(ms, WindFields, "speed");
  }

  /** parseWeather: main, description and icon come from their last occurrences. */
  lemma WeatherFromLastMembers(ms: seq<Member>)
    requires WeatherSpec(JObject(ms)).Success?
    ensures WeatherSpec(JObject(ms)).value
      == Weather(LastString(ms, "main"), LastString(ms, "description"), LastString(ms, "icon"))
  {
    StringFieldIsLast(ms, WeatherFields, "main");
    StringFieldIsLast(ms, WeatherFields, "description");
    StringFieldIsLast(ms, WeatherFields, "icon");
  }

  method ParseMain(v: JsonValue) returns (r: Result<Main, ParseError>)
    ensures r == MainSpec(v)
  {
    var f := ReadObject(v, MainFields);
    match f
    case Failure(e) => r := Failure(e);
    case Success(f) =>
      r := Success(Main(NumberOr(f, "temp"), NumberOr(f, "temp_min"), NumberOr(f, "temp_max"), NumberOr(f, "humidity")));
  }

  method ParseSys(v: JsonValue) returns (r: Result<Sys, ParseError>)
    ensures r == SysSpec(v)
  {
    var f := ReadObject(v, SysFields);
    match f
    case Failure(e) => r := Failure(e);
    case Success(f) => r := Success(Sys(NumberOr(f, "sunrise"), NumberOr(f, "sunset"), TextOr(f, "country")));
  }

  method ParseWind(v: JsonValue) returns (r: Result<Wind, ParseError>)
    ensures r == WindSpec(v)
  {
    var f := ReadObject(v, WindFields);
    match f
    case Failure(e) => r := Failure(e);
    case Success(f) => r := Success(Wind(NumberOr(f, "deg"), NumberOr(f, "speed")));
  }

  method ParseWeather(v: JsonValue) returns (r: Result<Weather, ParseError>)
    ensures r == WeatherSpec(v)
  {
    var f := ReadObject(v, WeatherFields);
    match f
    case Failure(e) => r := Failure(e);
    case Success(f) => r := Success(Weather(TextOr(f, "main"), TextOr(f, "description"), TextOr(f, "icon")));
  }

  /** parseWeatherArray's loop: one Weather per element, appended in order. */
  function ReadWeathers(items: seq<JsonValue>, acc: seq<Weather>): Result<seq<Weather>, ParseError>
    decreases |items|
  {
    if items == [] then Success(acc)
    else
      match WeatherSpec(items[0])
      case Failure(e) => Failure(e)
      case Success(w) => ReadWeathers(items[1..], acc + [w])
  }

  function WeatherArraySpec(v: JsonValue): Result<seq<Weather>, ParseError> {
    if v.JArray? then ReadWeathers(v.items, []) else Failure(ExpectedArray)
  }

  /** The list has one Weather per array element, in the elements' order, and it is
      produced exactly when every element is an object that parses. */
  lemma {:induction false} WeathersInOrder(items: seq<JsonValue>, acc: seq<Weather>)
    ensures ReadWeathers(items, acc).Success? <==> forall j :: 0 <= j < |items| ==> WeatherSpec(items[j]).Success?
    ensures ReadWeathers(items, acc).Success? ==>
      var r := ReadWeathers(items, acc).value;
      && |r| == |acc| + |items|
      && r[..|acc|] == acc
      && forall j :: 0 <= j < |items| ==> WeatherSpec(items[j]) == Success(r[|acc| + j])
    decreases |items|
  {
    if items != [] {
      var w := WeatherSpec(items[0]);
      if w.Success? {
        WeathersInOrder(items[1..], acc + [w.value]);
        forall j | 1 <= j < |items| ensures items[j] == items[1..][j - 1] { }
        if ReadWeathers(items, acc).Success? {
          var r := ReadWeathers(items, acc).value;
          assert r[..|acc| + 1][..|acc|] == r[..|acc|];
        }
      }
    }
  }

  method ParseWeatherArray(v: JsonValue) returns (r: Result<seq<Weather>, ParseError>)
    ensures r == WeatherArraySpec(v)
  {
    if !v.JArray? {
      return Failure(ExpectedArray);
    }
    var items := v.items;
    var weathers: seq<Weather> := [];
    var i := 0;
    while i < |items|
      invariant 0 <= i <= |items|
      invariant ReadWeathers(items, []) == ReadWeathers(items[i..], weathers)
    {
      assert items[i..][1..] == items[i + 1..];
      var w := ParseWeather(items[i]);
      if w.Failure? {
        return Failure(w.error);
      }
      weathers := weathers + [w.value];
      i := i + 1;
    }
    return Success(weathers);
  }

  /** The switch of parseWeatherMessage's loop for one member. A "weather" member whose
      value is not an array is not consumed, so the next reader.nextName() throws. */
  function MessageStep(acc: JsonWeather, m: Member): Result<JsonWeather, ParseError> {
    if m.name == NameKey then
      match NextString(m.value)
      case Failure(e) => Failure(e)
      case Success(s) => Success(acc.(name := Some(s)))
    else if m.name == MainKey then
      match MainSpec(m.value)
      case Failure(e) => Failure(e)
      case Success(x) => Success(acc.(main := Some(x)))
    else if m.name == SysKey then
      match SysSpec(m.value)
      case Failure(e) => Failure(e)
      case Success(x) => Success(acc.(sys := Some(x)))
    else if m.name == WindKey then
      match WindSpec(m.value)
      case Failure(e) => Failure(e)
      case Success(x) => Success(acc.(wind := Some(x)))
    else if m.name == WeatherKey then
      if m.value.JArray? then
        match WeatherArraySpec(m.value)
        case Failure(e) => Failure(e)
        case Success(x) => Success(acc.(weather := Some(x)))
      else Failure(ExpectedName)
    else Success(acc)
  }

  function ReadMessageMembers(ms: seq<Member>, acc: JsonWeather): Result<JsonWeather, ParseError>
    decreases |ms|
  {
    if ms == [] then Success(acc)
    else
      match MessageStep(acc, ms[0])
      case Failure(e) => Failure(e)
      case Success(a) => ReadMessageMembers(ms[1..], a)
  }

  /** parseWeatherMessage: null for an object without members, else a list holding the
      record when it is complete and nothing otherwise. */
  function MessageSpec(v: JsonValue): Result<Option<seq<JsonWeather>>, ParseError> {
    if !v.JObject? then Failure(ExpectedObject)
    else if v.members == [] then Success(None)
    else
      match ReadMessageMembers(v.members, NoFields)
      case Failure(e) => Failure(e)
      case Success(jw) => Success(Some(if Complete(jw) then [jw] else []))
  }

  /** Each part of the assembled record comes from the last member of its name; a part
      whose name does not occur keeps its previous value. */
  lemma {:induction false} MessagePartsAreLast(ms: seq<Member>, acc: JsonWeather)
    requires ReadMessageMembers(ms, acc).Success?
    ensures var jw := ReadMessageMembers(ms, acc).value;
      && (if LastValue(ms, NameKey).Some?
          then NextString(LastValue(ms, NameKey).value).Success? && jw.name == Some(NextString(LastValue(ms, NameKey).value).value)
          else jw.name == acc.name)
      && (if LastValue(ms, MainKey).Some?
          then MainSpec(LastValue(ms, MainKey).value).Success? && jw.main == Some(MainSpec(LastValue(ms, MainKey).value).value)
          else jw.main == acc.main)
      && (if LastValue(ms, SysKey).Some?
          then SysSpec(LastValue(ms, SysKey).value).Success? && jw.sys == Some(SysSpec(LastValue(ms, SysKey).value).value)
          else jw.sys == acc.sys)
      && (if LastValue(ms, WindKey).Some?
          then WindSpec(LastValue(ms, WindKey).value).Success? && jw.wind == Some(WindSpec(LastValue(ms, WindKey).value).value)
          else jw.wind == acc.wind)
      && (if LastValue(ms, WeatherKey).Some?
          then WeatherArraySpec(LastValue(ms, WeatherKey).value).Success? && jw.weather == Some(WeatherArraySpec(LastValue(ms, WeatherKey).value).value)
          else jw.weather == acc.weather)
    decreases |ms|
  {
    if ms != [] {
      var a := MessageStep(acc, ms[0]).value;
      MessagePartsAreLast(ms[1..], a);
    }
  }

  /** A member with any other name can be taken out without changing the result. */
  lemma {:induction false} MessageSkipsUnknown(before: seq<Member>, m: Member, after: seq<Member>, acc: JsonWeather)
    requires m.name !in {NameKey, MainKey, SysKey, WindKey, WeatherKey}
    ensures ReadMessageMembers(before + [m] + after, acc) == ReadMessageMembers(before + after, acc)
    decreases |before|
  {
    if before == [] {
      assert (before + [m] + after)[1..] == before + after;
    } else {
      assert (before + [m] + after)[0] == before[0] && (before + after)[0] == before[0];
      assert (before + [m] + after)[1..] == before[1..] + [m] + after;
      assert (before + after)[1..] == before[1..] + after;
      var step := MessageStep(acc, before[0]);
      if step.Success? {
        MessageSkipsUnknown(before[1..], m, after, step.value);
      }
    }
  }

  /** A parse that succeeds saw only arrays as values of "weather": any other value makes
      the parser throw rather than skip it. */
  lemma {:induction false} WeatherMemberMustBeArray(ms: seq<Member>, acc: JsonWeather, i: nat)
    requires ReadMessageMembers(ms, acc).Success?
    requires i < |ms| && ms[i].name == WeatherKey
    ensures ms[i].value.JArray?
    decreases |ms|
  {
    if i > 0 {
      WeatherMemberMustBeArray(ms[1..], MessageStep(acc, ms[0]).value, i - 1);
    }
  }

  /** The shape of a successful parse: null exactly for an object without members, else a
      list of at most one record, which is there exactly when "main", "sys" and "wind"
      all occur ("weather" and "name" are not required). */
  lemma MessageShape(ms: seq<Member>)
    requires MessageSpec(JObject(ms)).Success?
    ensures MessageSpec(JObject(ms)).value.None? <==> ms == []
    ensures ms != [] ==>
      var l := MessageSpec(JObject(ms)).value.value;
      && |l| <= 1
      && (|l| == 1 <==> LastValue(ms, MainKey).Some? && LastValue(ms, SysKey).Some? && LastValue(ms, WindKey).Some?)
  {
    if ms != [] {
      MessagePartsAreLast(ms, NoFields);
    }
  }

  /** parseWeatherMessage. */
  method ParseWeatherMessage(v: JsonValue) returns (r: Result<Option<seq<JsonWeather>>, ParseError>)
    ensures r == MessageSpec(v)
    ensures r.Success? && r.value.Some? ==>
      |r.value.value| <= 1 && forall i :: 0 <= i < |r.value.value| ==> Complete(r.value.value[i])
  {
    if !v.JObject? {
      return Failure(ExpectedObject);
    }
    var ms := v.members;
    if ms == [] {
      return Success(None);
    }
    var jw := NoFields;
    var i := 0;
    while i < |ms|
      invariant 0 <= i <= |ms|
      invariant ReadMessageMembers(ms, NoFields) == ReadMessageMembers(ms[i..], jw)
    {
      var m := ms[i];
      assert ms[i..][1..] == ms[i + 1..];
      if m.name == NameKey {
        var s := NextString(m.value);
        if s.Failure? {
          return Failure(s.error);
        }
        jw := jw.(name := Some(s.value));
      } else if m.name == MainKey {
        var x := ParseMain(m.value);
        if x.Failure? {
          return Failure(x.error);
        }
        jw := jw.(main := Some(x.value));
      } else if m.name == SysKey {
        var x := ParseSys(m.value);
        if x.Failure? {
          return Failure(x.error);
        }
        jw := jw.(sys := Some(x.value));
      } else if m.name == WindKey {
        var x := ParseWind(m.value);
        if x.Failure? {
          return Failure(x.error);
        }
        jw := jw.(wind := Some(x.value));
      } else if m.name == WeatherKey {
        if !m.value.JArray? {
          return Failure(ExpectedName);
        }
        var x := ParseWeatherArray(m.value);
        if x.Failure? {
          return Failure(x.error);
        }
        jw := jw.(weather := Some(x.value));
      }
      i := i + 1;
    }
    assert ms[i..] == [];
    assert ReadMessageMembers(ms, NoFields) == Success(jw);
    assert MessageSpec(v) == Success(Some(if Complete(jw) then [jw] else []));
    var weathers: seq<JsonWeather> := [];
    if jw.main.Some? && jw.sys.Some? && jw.wind.Some? {
      weathers := weathers + [jw];
    }
    assert weathers == (if Complete(jw) then [jw] else []);
    return Success(Some(weathers));
  }
}
