/**
 * The weather normaliser (`processWeatherData`): it maps an optional weather
 * payload, or an error marker, to a display record with every field filled
 * in. Every numeric field of the payload may be missing (`undefined`), `null`
 * or a number. The code tests most of them against `undefined` only, so a
 * `null` value flows on into `Math.round` or a template literal; the
 * exception is `weather_code`, which `|| 0` turns into 0 when it is missing
 * or `null`.
 */
module WeatherNormalizer {
  import opened Wrappers
  import opened Text

  /** A JSON number field as the normaliser sees it. */
  datatype Field<T> = Undefined | Null | Num(value: T)

  /**
   * `data.current`. Temperatures and wind speed are real numbers; humidity,
   * the weather code and the European AQI are integers, as the weather
   * service reports them.
   */
  datatype Current = Current(
    temperature2m: Field<real>,
    weatherCode: Field<int>,
    relativeHumidity2m: Field<int>,
    windSpeed10m: Field<real>,
    europeanAqi: Field<int>)

  /** The empty object `{}`: every field undefined. */
  const EmptyCurrent := Current(Undefined, Undefined, Undefined, Undefined, Undefined)

  /** `data.daily`: each array is absent (`None`, also for `null`) or a list of values. */
  datatype Daily = Daily(temperature2mMax: Option<seq<Field<real>>>, temperature2mMin: Option<seq<Field<real>>>)

  /**
   * The `data` argument when it is an object. `error` is the truthiness of
   * `data.error`; `reason` is `data.reason`, with "" standing for any falsy
   * value; `current` and `daily` are `None` when absent or `null`.
   */
  datatype Payload = Payload(error: bool, reason: string, current: Option<Current>, daily: Option<Daily>)

  /** The record handed to the renderer and stored in the cache slot. */
  datatype DisplayRecord = DisplayRecord(
    location: string,
    condition: string,
    temperature: string,
    tempRange: string,
    airQuality: string,
    humidity: string,
    windSpeed: string,
    icon: string,
    timestamp: int)

  const NotAvailable := "N/A"
  const UnknownLocation := "未知位置"
  const UnsupportedReason := "该位置暂不支持"
  const UnknownCondition := "未知"

  /** The widget's `weatherIcons` table, keyed by condition word. */
  const WeatherIcons: map<string, string> := map[
    "晴" := "☀️",
    "多云" := "⛅",
    "阴" := "☁️",
    "小雨" := "🌦️",
    "中雨" := "🌧️",
    "大雨" := "🌧️",
    "暴雨" := "⛈️",
    "雷" := "⚡",
    "雪" := "❄️",
    "雾" := "🌫️",
    "霾" := "🌫️",
    "未知" := "🌤️"]

  const UnknownIcon := "🌤️"

  lemma UnknownIconIsInTable()
    ensures WeatherIcons[UnknownCondition] == UnknownIcon
  {
  }

  /** `Math.round`: the nearest integer, halves rounded up. */
  function Round(x: real): (n: int)
    ensures n as real - 0.5 <= x < n as real + 0.5
  {
    (x + 0.5).Floor
  }

  /** `Math.round` of a defined field; `Math.round(null)` is 0. */
  function RoundField(f: Field<real>): (n: int)
    requires !f.Undefined?
    ensures f.Null? ==> n == 0
    ensures f.Num? ==> n == Round(f.value)
  {
    if f.Null? then 0 else Round(f.value)
  }

  /** A defined integer field inside a template literal; `${null}` is "null". */
  function FieldText(f: Field<int>): (s: string)
    requires !f.Undefined?
    ensures |s| > 0 && ' ' !in s
    ensures f.Null? ==> s == "null"
    ensures f.Num? ==> ParseInt(s) == Some(f.value)
  {
    if f.Null? then "null"
    else
      IntToStringRoundTrip(f.value);
      IntToString(f.value)
  }

  /** The numeric value of a defined field in a comparison (`null` compares as 0). */
  function NumericValue(f: Field<int>): (v: int)
    requires !f.Undefined?
    ensures f.Null? ==> v == 0
    ensures f.Num? ==> v == f.value
  {
    if f.Null? then 0 else f.value
  }

  /** `array?.[0]`: undefined when the array is absent or empty. */
  function FirstElement(a: Option<seq<Field<real>>>): (f: Field<real>)
    ensures a.Some? && |a.value| > 0 ==> f == a.value[0]
    ensures a.None? || |a.value| == 0 ==> f.Undefined?
  {
    if a.Some? && |a.value| > 0 then a.value[0] else Undefined
  }

  lemma IntTextIsNotPlaceholder(n: int, suffix: string)
    ensures IntToString(n) + suffix != NotAvailable
  {
    var s := IntToString(n) + suffix;
    assert s[0] == IntToString(n)[0];
    assert s[0] in IntToString(n);
  }

  /**
   * The temperature field: "N/A" exactly when `temperature_2m` is undefined;
   * otherwise the rounded value followed by "°C", and the digits read back as
   * that rounded value (0 for `null`).
   */
  function TemperatureText(current: Option<Current>): (s: string)
    ensures |s| > 0
    ensures s == NotAvailable <==> current.None? || current.value.temperature2m.Undefined?
    ensures current.Some? && !current.value.temperature2m.Undefined? ==>
      |s| > 2 && s[|s| - 2..] == "°C" && ParseInt(s[..|s| - 2]) == Some(RoundField(current.value.temperature2m))
  {
    var t := if current.Some? then current.value.temperature2m else Undefined;
    if t.Undefined? then NotAvailable
    else
      var n := RoundField(t);
      IntTextIsNotPlaceholder(n, "°C");
      IntToStringRoundTrip(n);
      var s := IntToString(n) + "°C";
      assert s[..|s| - 2] == IntToString(n);
      s
  }

  /**
   * The day's range: "N/A" unless `daily` is present and both first minimum
   * and first maximum are defined; then "<min>～<max>°C" with both rounded.
   */
  function TempRangeText(daily: Option<Daily>): (s: string)
    ensures |s| > 0
    ensures s != NotAvailable <==>
      daily.Some? && !FirstElement(daily.value.temperature2mMin).Undefined? && !FirstElement(daily.value.temperature2mMax).Undefined?
    ensures s != NotAvailable ==>
      s == IntToString(RoundField(FirstElement(daily.value.temperature2mMin))) + "～"
        + IntToString(RoundField(FirstElement(daily.value.temperature2mMax))) + "°C"
  {
    if daily.None? then NotAvailable
    else
      var minTemp := FirstElement(daily.value.temperature2mMin);
      var maxTemp := FirstElement(daily.value.temperature2mMax);
      if !minTemp.Undefined? && !maxTemp.Undefined? then
        var lo := IntToString(RoundField(minTemp));
        IntTextIsNotPlaceholder(RoundField(minTemp), "～" + IntToString(RoundField(maxTemp)) + "°C");
        assert lo + "～" + IntToString(RoundField(maxTemp)) + "°C" == lo + ("～" + IntToString(RoundField(maxTemp)) + "°C");
        lo + "～" + IntToString(RoundField(maxTemp)) + "°C"
      else NotAvailable
  }

  /** Humidity: "N/A" exactly when `relative_humidity_2m` is undefined, else the raw value and "%". */
  function HumidityText(current: Option<Current>): (s: string)
    ensures |s| > 0
    ensures s == NotAvailable <==> current.None? || current.value.relativeHumidity2m.Undefined?
    ensures s != NotAvailable ==> s == FieldText(current.value.relativeHumidity2m) + "%"
  {
    if current.Some? && !current.value.relativeHumidity2m.Undefined? then
      var s := FieldText(current.value.relativeHumidity2m) + "%";
      assert s[|s| - 1] == '%';
      s
    else NotAvailable
  }

  /**
   * Wind speed: "N/A" exactly when `wind_speed_10m` is undefined; otherwise
   * the rounded value and " km/h", and the digits read back as that value
   * (0 for `null`).
   */
  function WindSpeedText(current: Option<Current>): (s: string)
    ensures |s| > 0
    ensures s == NotAvailable <==> current.None? || current.value.windSpeed10m.Undefined?
    ensures current.Some? && !current.value.windSpeed10m.Undefined? ==>
      |s| > 5 && s[|s| - 5..] == " km/h" && ParseInt(s[..|s| - 5]) == Some(RoundField(current.value.windSpeed10m))
  {
    if current.Some? && !current.value.windSpeed10m.Undefined? then
      var n := RoundField(current.value.windSpeed10m);
      IntTextIsNotPlaceholder(n, " km/h");
      IntToStringRoundTrip(n);
      var s := IntToString(n) + " km/h";
      assert s[..|s| - 5] == IntToString(n);
      s
    else NotAvailable
  }

  // ---------------------------------------------------------------- air quality

  /** The six tier labels, best first. */
  const AqiLevels: seq<string> := ["优", "良", "中等", "一般", "差", "严重"]

  /** The tier label, as the source's chain of inclusive upper bounds picks it. */
  function AqiLevel(aqi: int): (level: string)
    ensures level in AqiLevels
    ensures level == "优" <==> aqi <= 20
    ensures level == "严重" <==> aqi > 100
  {
    if aqi <= 20 then "优"
    else if aqi <= 40 then "良"
    else if aqi <= 60 then "中等"
    else if aqi <= 80 then "一般"
    else if aqi <= 100 then "差"
    else "严重"
  }

  /**
   * The tier index computed arithmetically: tier k (k < 5) holds the values
   * in (20k, 20(k+1)], tier 0 also everything at or below 20, and tier 5
   * everything above 100.
   */
  function AqiTier(aqi: int): (k: nat)
    ensures k < |AqiLevels|
    ensures k < 5 ==> aqi <= 20 * (k + 1)
    ensures k > 0 ==> aqi > 20 * k
  {
    if aqi <= 20 then 0 else if aqi > 100 then 5 else (aqi - 1) / 20
  }

  /** The source's chain picks the label of the arithmetic tier. */
  lemma AqiLevelIsTier(aqi: int)
    ensures AqiLevel(aqi) == AqiLevels[AqiTier(aqi)]
  {
  }

  /** A higher index never lands in a better tier. */
  lemma AqiTierMonotone(a: int, b: int)
    requires a <= b
    ensures AqiTier(a) <= AqiTier(b)
  {
  }

  /** The labels are distinct, so the label determines the tier. */
  lemma AqiLevelsDistinct(i: nat, j: nat)
    requires i < j < |AqiLevels|
    ensures AqiLevels[i] != AqiLevels[j]
  {
  }

  /**
   * The air-quality field: "N/A" exactly when `european_aqi` is undefined;
   * otherwise "<tier> (<value>)", where a `null` value compares as 0 and so
   * reads "优 (null)".
   */
  function AirQualityText(current: Option<Current>): (s: string)
    ensures |s| > 0
    ensures s == NotAvailable <==> current.None? || current.value.europeanAqi.Undefined?
    ensures current.Some? && current.value.europeanAqi.Null? ==> s == "优 (null)"
    ensures current.Some? && current.value.europeanAqi.Num? ==>
      s == AqiLevels[AqiTier(current.value.europeanAqi.value)] + " (" + IntToString(current.value.europeanAqi.value) + ")"
  {
    if current.Some? && !current.value.europeanAqi.Undefined? then
      var aqi := current.value.europeanAqi;
      var s := AqiLevel(NumericValue(aqi)) + " (" + FieldText(aqi) + ")";
      assert s[|s| - 1] == ')';
      s
    else NotAvailable
  }

  /**
   * The first space-separated token of the air-quality text is the tier
   * label: what the renderer shows after `split(' ')[0]`.
   */
  lemma AirQualityLeadingToken(current: Current)
    requires !current.europeanAqi.Undefined?
    ensures Split(AirQualityText(Some(current)), " ")[0] == AqiLevel(NumericValue(current.europeanAqi))
  {
    var level := AqiLevel(NumericValue(current.europeanAqi));
    var rest := "(" + FieldText(current.europeanAqi) + ")";
    var s := AirQualityText(Some(current));
    assert s == level + " " + rest;
    assert !Includes(level, " ") by {
      IncludesChar(level, ' ');
    }
    assert OccursAt(s, " ", |level|);
    var i := IndexOf(s, " ").value;
    if i < |level| {
      OccursAtChar(s, ' ', i);
      assert s[i] == level[i];
      IncludesChar(level, ' ');
    }
    assert i == |level|;
  }

  // ---------------------------------------------------------------- weather codes

  /** A condition text with its icon. */
  datatype Condition = Condition(text: string, icon: string)

  /** The source's chain from weather code to condition text and icon. */
  function ClassifyCode(code: int): (c: Condition)
    ensures c.text != "" && c.text != UnknownCondition && c.icon != "" && c.icon != UnknownIcon
  {
    if code == 0 then Condition("晴", WeatherIcons["晴"])
    else if code == 1 then Condition("大部晴朗", WeatherIcons["晴"])
    else if code == 2 then Condition("局部多云", WeatherIcons["多云"])
    else if code == 3 then Condition("多云", WeatherIcons["多云"])
    else if code in {45, 48} then Condition("雾", WeatherIcons["雾"])
    else if code in {51, 53, 55, 56, 57} then Condition("小雨", WeatherIcons["小雨"])
    else if code in {61, 63, 66, 80, 81} then Condition("中雨", WeatherIcons["中雨"])
    else if code in {65, 67, 82} then Condition("大雨", WeatherIcons["大雨"])
    else if code in {95, 96, 99} then Condition("雷雨", WeatherIcons["雷"])
    else if code in {71, 73, 75, 77, 85, 86} then Condition("雪", WeatherIcons["雪"])
    else Condition("阴", WeatherIcons["阴"])
  }

  /** One row of the classification table: the codes it covers, its text and its icon key. */
  datatype Rule = Rule(codes: set<int>, text: string, iconKey: string)

  /** The classification as an ordered table, evaluated top to bottom. */
  const ConditionTable: seq<Rule> := [
    Rule({0}, "晴", "晴"),
    Rule({1}, "大部晴朗", "晴"),
    Rule({2}, "局部多云", "多云"),
    Rule({3}, "多云", "多云"),
    Rule({45, 48}, "雾", "雾"),
    Rule({51, 53, 55, 56, 57}, "小雨", "小雨"),
    Rule({61, 63, 66, 80, 81}, "中雨", "中雨"),
    Rule({65, 67, 82}, "大雨", "大雨"),
    Rule({95, 96, 99}, "雷雨", "雷"),
    Rule({71, 73, 75, 77, 85, 86}, "雪", "雪")]

  /** The fallback when no row matches. */
  const Overcast := Condition("阴", "☁️")

  /** The index of the first row covering `code`, or `|rules|` when none does. */
  function FirstMatch(rules: seq<Rule>, code: int): (k: nat)
    ensures k <= |rules|
    ensures k < |rules| ==> code in rules[k].codes
    ensures forall j :: 0 <= j < k ==> code !in rules[j].codes
  {
    if rules == [] then 0
    else if code in rules[0].codes then 0
    else 1 + FirstMatch(rules[1..], code)
  }

  lemma TableIconKeysKnown(k: nat)
    requires k < |ConditionTable|
    ensures ConditionTable[k].iconKey in WeatherIcons
  {
  }

  /** The table's answer: the first matching row, or overcast. */
  function TableClassify(code: int): Condition {
    var k := FirstMatch(ConditionTable, code);
    if k < |ConditionTable| then
      TableIconKeysKnown(k);
      Condition(ConditionTable[k].text, WeatherIcons[ConditionTable[k].iconKey])
    else Overcast
  }

  /** No code is covered by two rows, so the first match is the only match. */
  lemma TableRowsDisjoint(i: nat, j: nat)
    requires i < j < |ConditionTable|
    ensures ConditionTable[i].codes !! ConditionTable[j].codes
  {
  }

  /** Any row covering `code` is the row the table picks. */
  lemma {:induction false} TableClassifyByRow(code: int, i: nat)
    requires i < |ConditionTable| && code in ConditionTable[i].codes
    ensures FirstMatch(ConditionTable, code) == i
    ensures TableClassify(code) == Condition(ConditionTable[i].text, WeatherIcons[ConditionTable[i].iconKey])
  {
    var k := FirstMatch(ConditionTable, code);
    if k < i {
      TableRowsDisjoint(k, i);
    }
  }

  /** A code that none of the groups covers is overcast. */
  lemma TableClassifyUncovered(code: int)
    requires code !in {0, 1, 2, 3, 45, 48, 51, 53, 55, 56, 57, 61, 63, 66, 80, 81, 65, 67, 82, 95, 96, 99, 71, 73, 75, 77, 85, 86}
    ensures TableClassify(code) == Overcast
  {
  }

  /** The source's if/else chain agrees with the ordered table on every code. */
  lemma ClassifyCodeIsTable(code: int)
    ensures ClassifyCode(code) == TableClassify(code)
  {
    if code == 0 { TableClassifyByRow(code, 0); }
    else if code == 1 { TableClassifyByRow(code, 1); }
    else if code == 2 { TableClassifyByRow(code, 2); }
    else if code == 3 { TableClassifyByRow(code, 3); }
    else if code in {45, 48} { TableClassifyByRow(code, 4); }
    else if code in {51, 53, 55, 56, 57} { TableClassifyByRow(code, 5); }
    else if code in {61, 63, 66, 80, 81} { TableClassifyByRow(code, 6); }
    else if code in {65, 67, 82} { TableClassifyByRow(code, 7); }
    else if code in {95, 96, 99} { TableClassifyByRow(code, 8); }
    else if code in {71, 73, 75, 77, 85, 86} { TableClassifyByRow(code, 9); }
    else { TableClassifyUncovered(code); }
  }

  /** `current.weather_code || 0`: missing, `null` and 0 all mean code 0. */
  function EffectiveCode(current: Option<Current>): (code: int)
    ensures current.Some? && current.value.weatherCode.Num? ==> code == current.value.weatherCode.value
    ensures current.None? || !current.value.weatherCode.Num? ==> code == 0
  {
    if current.Some? && current.value.weatherCode.Num? then current.value.weatherCode.value else 0
  }

  // ---------------------------------------------------------------- the record

  /** `!data || data.error`: the input is absent or an error marker. */
  predicate IsFailureInput(data: Option<Payload>) {
    data.None? || data.value.error
  }

  /** The five measurement fields are "N/A" and the icon is the unknown one. */
  predicate IsPlaceholder(r: DisplayRecord) {
    && r.temperature == NotAvailable
    && r.tempRange == NotAvailable
    && r.airQuality == NotAvailable
    && r.humidity == NotAvailable
    && r.windSpeed == NotAvailable
    && r.icon == UnknownIcon
  }

  /** Every display field holds a non-empty string. */
  predicate IsComplete(r: DisplayRecord) {
    && r.location != ""
    && r.condition != ""
    && r.temperature != ""
    && r.tempRange != ""
    && r.airQuality != ""
    && r.humidity != ""
    && r.windSpeed != ""
    && r.icon != ""
  }

  /**
   * `processWeatherData(data, timestamp, userLocation)`. The record is always
   * complete and carries the timestamp and the location (or "未知位置").
   * On an absent or error input it is the placeholder with the reason (or
   * "该位置暂不支持") as condition; otherwise each field follows its own rule
   * and the condition comes from the code table, never "未知".
   */
  function ProcessWeatherData(data: Option<Payload>, timestamp: int, userLocation: string): (r: DisplayRecord)
    ensures IsComplete(r)
    ensures r.timestamp == timestamp
    ensures r.location == if userLocation != "" then userLocation else UnknownLocation
    ensures IsFailureInput(data) ==> IsPlaceholder(r)
    ensures IsFailureInput(data) ==>
      r.condition == if data.Some? && data.value.reason != "" then data.value.reason else UnsupportedReason
    ensures !IsFailureInput(data) ==>
      && Condition(r.condition, r.icon) == TableClassify(EffectiveCode(data.value.current))
      && r.condition != UnknownCondition
      && r.temperature == TemperatureText(data.value.current)
      && r.tempRange == TempRangeText(data.value.daily)
      && r.humidity == HumidityText(data.value.current)
      && r.airQuality == AirQualityText(data.value.current)
      && r.windSpeed == WindSpeedText(data.value.current)
  {
    var location := if userLocation != "" then userLocation else UnknownLocation;
    if data.None? || data.value.error then
      var errorMessage := if data.Some? && data.value.reason != "" then data.value.reason else UnsupportedReason;
      DisplayRecord(location, errorMessage, NotAvailable, NotAvailable, NotAvailable,
                    NotAvailable, NotAvailable, WeatherIcons[UnknownCondition], timestamp)
    else
      var current := data.value.current;
      var condition := ClassifyCode(EffectiveCode(current));
      ClassifyCodeIsTable(EffectiveCode(current));
      DisplayRecord(location, condition.text,
                    TemperatureText(current), TempRangeText(data.value.daily), AirQualityText(current),
                    HumidityText(current), WindSpeedText(current), condition.icon, timestamp)
  }

  /** A `null` temperature or wind speed rounds to 0 and is shown as such. */
  lemma NullMeasurementsExample()
    ensures TemperatureText(Some(EmptyCurrent.(temperature2m := Null))) == "0°C"
    ensures WindSpeedText(Some(EmptyCurrent.(windSpeed10m := Null))) == "0 km/h"
  {
    assert IntToString(0) == "0" by { assert DigitChar(0) == '0'; }
  }

  /** Examples: codes 0, 61 and 99, and an unmapped 12. */
  lemma ConditionExamples()
    ensures ClassifyCode(0) == Condition("晴", "☀️")
    ensures ClassifyCode(61).text == "中雨"
    ensures ClassifyCode(99) == Condition("雷雨", "⚡")
    ensures ClassifyCode(12).text == "阴"
  {
  }

  /** Examples: indices 15, 45 and 150. */
  lemma AirQualityExamples()
    ensures AirQualityText(Some(EmptyCurrent.(europeanAqi := Num(15)))) == "优 (15)"
    ensures AirQualityText(Some(EmptyCurrent.(europeanAqi := Num(45)))) == "中等 (45)"
    ensures AirQualityText(Some(EmptyCurrent.(europeanAqi := Num(150)))) == "严重 (150)"
  {
    assert IntToString(15) == "15" by { assert DigitChar(1) == '1' && DigitChar(5) == '5'; }
    assert IntToString(45) == "45" by { assert DigitChar(4) == '4' && DigitChar(5) == '5'; }
    assert IntToString(150) == "150" by {
      assert DigitChar(1) == '1' && DigitChar(5) == '5' && DigitChar(0) == '0';
      assert NatToString(15) == "15";
    }
  }
}
