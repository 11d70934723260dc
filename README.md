# Weather island widget — a verified model of its decision logic

The widget (`UnifiedWeatherWidget`) shows the current weather for the place
the visitor's IP address points to. One refresh cycle:

1. serves the record in its single cache slot if that record is younger than
   the refresh interval;
2. otherwise resolves the location: first a JSON IP lookup (province, city,
   country name and perhaps coordinates); only if that gives no name, a plain-text
   IP lookup whose sentence is cut after the marker "来自于：", followed by
   geocoding of the parsed name, retried with its first two characters;
3. fetches the forecast and, separately, the European air-quality index,
   and merges them;
4. normalises the result into a display record in which every field is
   filled in ("N/A", "未知位置" and a default reason stand in for what is
   missing), and, when the forecast has arrived, stores it with its
   timestamp.

The model has five modules:

- `Wrappers`: an `Option`.
- `Text`: the JavaScript string operations the code relies on (`indexOf`,
  `includes`, `split`, `replace`, `trim`, and an integer inside a template
  literal), each with its defining properties.
- `WeatherNormalizer`: `processWeatherData` as a total function.
- `LocationResolver`: the fallback chain as functions on the network
  answers. `GetCoordinates` and `FetchUserLocation` also return the requests
  they made, in order.
- `WeatherWidget`: the widget as a class. Its fields are the refresh
  interval, the expand flag and the cache slot. `LoadWeatherData` is proved
  against the pure `FetchCycle`, which lemmas characterise.

A JSON number field is `Undefined`, `Null` or a number. The code tests most
of these fields only against `undefined`, so `null` flows on: it rounds to 0,
prints as "null", and as an air-quality index falls in the best tier
("优 (null)"). The exception is `weather_code`: `current.weather_code || 0`
(line 357) turns both a missing and a `null` code into 0.

Behaviour of the code that is easy to misread:

- The cache slot is written only on the path where the forecast arrives, and
  that includes a forecast body that is itself an error marker. The error
  records of a failed location step and of a failed forecast request are
  returned but never stored.
- The secondary sentence "…来自于：广东 广州 天河区…" yields "广东", not
  "广东广州". The segment is cut at its first space before it is split again,
  so the branches for two and three parts can never run
  (`LocationResolver.SecondaryPartsSingle`).
- On the secondary path the parsed name is geocoded whenever it is non-empty
  (a sentence such as "来自于：\t" parses to "", and `getCoordinates` returns
  at line 291 without a query), and the result replaces any coordinates the
  primary lookup had found.
- A refresh interval given in the options is kept as it is, 0 included. The
  options spread comes after the defaulted value.

`refresh()` only calls `loadWeatherData()`, so `Widget.LoadWeatherData`
models both. The same holds for the double-click handler and the periodic
timer.

## Model

| member | source | states |
|---|---|---|
| Text.IndexOf | WeatherIsland.js:218 | the first occurrence of the separator: it occurs at the result, at no earlier index, and nowhere when the result is none |
| Text.IncludesChar | WeatherIsland.js:218 | a string includes a one-character string exactly when it holds that character |
| Text.IncludesIffOccurs | WeatherIsland.js:218-250 | `includes` with a needle of any length, as used at lines 218 and 250: true exactly when the needle occurs at some index |
| Text.Split | WeatherIsland.js:251-255 | `split` with a non-empty separator: at least one part, two or more exactly when the separator occurs, no part contains it, and joining the parts with it gives the input back |
| Text.SplitWithoutSeparator | WeatherIsland.js:255 | a string without the separator splits into itself alone |
| Text.RemoveFirst | WeatherIsland.js:218 | `replace` of a one-character pattern: unchanged when the character is absent, otherwise exactly one character shorter |
| Text.RemoveFirstMultiset | WeatherIsland.js:218 | exactly one copy of the character is removed when there is one, and nothing else |
| Text.RemoveFirstCutsFirst | WeatherIsland.js:218 | the character removed is the first occurrence, and everything else is kept in order |
| Text.RemoveFirstSubsequence | WeatherIsland.js:218 | the result of `replace` keeps the remaining characters in their order |
| Text.SubsequenceTransitive | WeatherIsland.js:218 | order-preserving deletion composes, so the three `replace` calls in a row keep order too |
| Text.Trim | WeatherIsland.js:255 | `trim`: no white space at either end of the result, every character comes from the input, every non-white-space character of the input is kept |
| Text.TrimUnpadded | WeatherIsland.js:255 | a string without white space at its ends is its own trim |
| Text.TrimIsPaddedSlice | WeatherIsland.js:255 | the trimmed string is one contiguous slice of the input with only white space before and after it |
| Text.NatToStringRoundTrip | WeatherIsland.js:358 | the decimal digits of a natural number read back as that number |
| Text.IntToString | WeatherIsland.js:358 | an integer in a template literal: non-empty, no space, a leading minus exactly for negatives |
| Text.IntToStringRoundTrip | WeatherIsland.js:358 | the rendered integer parses back as the same integer |
| Text.SplitAtFirstSpace | WeatherIsland.js:137 | a space-free word followed by a space and anything is the first part of the split on spaces |
| WeatherNormalizer.UnknownIconIsInTable | WeatherIsland.js:13-26 | the icon for "未知" is 🌤️ |
| WeatherNormalizer.Round | WeatherIsland.js:358 | `Math.round` gives the integer within half of the value, halves rounded up |
| WeatherNormalizer.FirstElement | WeatherIsland.js:361-362 | `array?.[0]` is the first element, or undefined for a missing or empty array |
| WeatherNormalizer.RoundField | WeatherIsland.js:358 | `Math.round` of a field: 0 for `null`, the rounding of a number |
| WeatherNormalizer.FieldText | WeatherIsland.js:368-383 | a defined field inside a template literal, as at lines 370 and 383: "null" for `null`, otherwise digits that read back as the value; never empty, never a space |
| WeatherNormalizer.NumericValue | WeatherIsland.js:375-382 | the value the comparisons of lines 377-381 see: 0 for `null`, otherwise the number itself |
| WeatherNormalizer.EffectiveCode | WeatherIsland.js:357 | `current.weather_code \|\| 0`: the code when it is a number, 0 when it is missing, `null`, or `current` is absent |
| WeatherNormalizer.TemperatureText | WeatherIsland.js:356-358 | "N/A" exactly when `temperature_2m` is undefined; a number or `null` renders as digits reading back as its `Math.round` (0 for `null`), followed by "°C" |
| WeatherNormalizer.TempRangeText | WeatherIsland.js:359-366 | "N/A" unless daily data is present with both first minimum and first maximum defined; then "min～max°C", both rounded |
| WeatherNormalizer.HumidityText | WeatherIsland.js:368-371 | "N/A" exactly when `relative_humidity_2m` is undefined, else the raw value with "%" |
| WeatherNormalizer.WindSpeedText | WeatherIsland.js:386-389 | "N/A" exactly when `wind_speed_10m` is undefined; a number or `null` renders as digits reading back as its `Math.round` (0 for `null`), followed by " km/h" |
| WeatherNormalizer.AqiTier | WeatherIsland.js:377-382 | the tier index: below six, every tier under five bounded above by 20(k+1), every tier above zero beyond 20k |
| WeatherNormalizer.AqiLevel | WeatherIsland.js:376-382 | one of the six labels; "优" exactly for indices up to 20, "严重" exactly above 100 |
| WeatherNormalizer.AqiLevelIsTier | WeatherIsland.js:376-382 | the code's if-chain of inclusive bounds picks the label of the arithmetic tier |
| WeatherNormalizer.AqiTierMonotone | WeatherIsland.js:376-382 | a higher index never lands in a better tier |
| WeatherNormalizer.AqiLevelsDistinct | WeatherIsland.js:377-382 | the six labels are distinct |
| WeatherNormalizer.AirQualityText | WeatherIsland.js:373-384 | "N/A" exactly when `european_aqi` is undefined; `null` gives "优 (null)"; a number gives its tier's label and the number in parentheses |
| WeatherNormalizer.AirQualityLeadingToken | WeatherIsland.js:383 | the first space-separated token of the air-quality text is the tier label, which is what the renderer shows at line 464 |
| WeatherNormalizer.ClassifyCode | WeatherIsland.js:391-428 | every code gets a non-empty condition other than "未知" and a non-empty icon other than the unknown one |
| WeatherNormalizer.FirstMatch | WeatherIsland.js:393-427 | the first table row covering the code: it covers it, no earlier row does |
| WeatherNormalizer.TableIconKeysKnown | WeatherIsland.js:396-426 | every icon key of the table is in the icon map |
| WeatherNormalizer.TableRowsDisjoint | WeatherIsland.js:394-423 | no code is covered by two rows |
| WeatherNormalizer.TableClassifyByRow | WeatherIsland.js:393-427 | any row covering a code is the row the table picks, with that row's text and icon |
| WeatherNormalizer.TableClassifyUncovered | WeatherIsland.js:424-427 | a code outside all groups is overcast |
| WeatherNormalizer.ClassifyCodeIsTable | WeatherIsland.js:391-428 | the source's if/else chain agrees with the ordered table on every integer code |
| WeatherNormalizer.ProcessWeatherData | WeatherIsland.js:340-441 | the record is complete with the given timestamp and location (or "未知位置"); an absent or error input gives the placeholder with the reason (or "该位置暂不支持"); otherwise the condition comes from the table, never "未知", and each field follows its rule |
| WeatherNormalizer.ConditionExamples | WeatherIsland.js:394-427 | codes 0, 61, 99 and an unmapped 12 give 晴/☀️, 中雨, 雷雨/⚡ and 阴 |
| WeatherNormalizer.NullMeasurementsExample | WeatherIsland.js:356-389 | a `null` temperature shows "0°C" and a `null` wind speed "0 km/h" |
| WeatherNormalizer.AirQualityExamples | WeatherIsland.js:373-384 | indices 15, 45 and 150 give "优 (15)", "中等 (45)" and "严重 (150)" |
| LocationResolver.StripProvinceSuffixes | WeatherIsland.js:218 | a province without the particles 省/市/都 is unchanged; otherwise at most three characters are removed, all taken from the province |
| LocationResolver.LocationName | WeatherIsland.js:215-229 | with province and city: the city alone exactly when it includes the stripped province, else province followed by city; otherwise the first non-empty of province, city, country name; the name is empty only when all three are |
| LocationResolver.StripProvinceSuffixesRemoves | WeatherIsland.js:218 | the characters removed are exactly one 省, one 市 and one 都, each only when present |
| LocationResolver.StripProvinceSuffixesKeepsOrder | WeatherIsland.js:218 | the remaining characters keep the province's order |
| LocationResolver.PrimaryResult | WeatherIsland.js:205-230 | coordinates exactly when both latitude and longitude are present; the name is derived from the location, or empty when the lookup failed, was not ok or had no location |
| LocationResolver.StripProvinceExample | WeatherIsland.js:218 | "广东省" strips to "广东" |
| LocationResolver.ProvinceInCityExample | WeatherIsland.js:217-222 | "广东省" with "广东广州市" gives "广东广州市", not a concatenation |
| LocationResolver.MarkedToken | WeatherIsland.js:250-253 | the first space-separated token after the marker holds no space |
| LocationResolver.ParseSecondaryTextIsTrimmedToken | WeatherIsland.js:250-262 | a name is parsed exactly when the text holds the marker and the token after it is non-empty, and it is then that token trimmed, with no space in it |
| LocationResolver.ParseSecondaryText | WeatherIsland.js:250-262 | a name only when the text holds the marker and the token after it is non-empty |
| LocationResolver.SecondaryPartsSingle | WeatherIsland.js:253-262 | after `split(' ')[0]` the second split always yields one part, so the branches for two and three parts never run |
| LocationResolver.SecondarySegmentExample | WeatherIsland.js:250-251 | the segment after the marker in "来自于：广东 广州 天河区" is "广东 广州 天河区" |
| LocationResolver.FirstTokenExample | WeatherIsland.js:253 | its first token is "广东" |
| LocationResolver.SecondaryTextExample | WeatherIsland.js:250-262 | "来自于：广东 广州 天河区" parses to "广东" |
| LocationResolver.SecondaryLeadingSpaceExample | WeatherIsland.js:250-254 | a space right after the marker yields no name |
| LocationResolver.SecondaryName | WeatherIsland.js:248-262 | a name only from an ok text body, and then the parse of that text |
| LocationResolver.FirstCandidate | WeatherIsland.js:307-311 | the first candidate exactly when the answer is an ok, non-empty list |
| LocationResolver.GetCoordinates | WeatherIsland.js:290-338 | no query for an empty name; queries only the name or its two-character prefix; the first candidate of the full query when there is one; one retry with the prefix only after an ok empty answer for a name longer than two; otherwise none |
| LocationResolver.FetchUserLocation | WeatherIsland.js:188-288 | the primary lookup comes first; a primary name ends the chain with the primary result; an empty name never comes with coordinates |
| LocationResolver.FetchUserLocationRequests | WeatherIsland.js:188-288 | the requests in order: the primary lookup alone after a primary name; otherwise both lookups, then the geocoding queries for the parsed name when there is one |
| LocationResolver.SecondaryOnlyAfterEmptyPrimary | WeatherIsland.js:236 | the secondary lookup is made exactly when the primary gave no name |
| LocationResolver.GeocodeOnlyForParsedName | WeatherIsland.js:264-266 | every geocoding query follows an empty primary name and a parsed secondary name, and is that name or its two-character prefix |
| LocationResolver.SecondaryPathResult | WeatherIsland.js:236-283 | after an empty primary name the result is the parsed name with its geocoded coordinates (whatever the primary had found), or empty |
| LocationResolver.SecondaryPathExample | WeatherIsland.js:188-283 | primary failed, sentence "…广东 广州 天河区", geocoding "广东" succeeds: the location is "广东" with that point |
| WeatherWidget.FreshnessBoundary | WeatherIsland.js:108 | an entry written at T with interval I is served at T+I-1 and not at T+I |
| WeatherWidget.WeatherFailureReason | WeatherIsland.js:137 | the transport's message for a failed request; for a response that is not ok, the fixed prefix, then a first word that reads back as the status, then a space and the status text to the end |
| WeatherWidget.CombinedAqi | WeatherIsland.js:142-166 | `null` when the air-quality request failed or was not ok; undefined when an ok body has no `current`; otherwise the body's own `european_aqi` |
| WeatherWidget.Combine | WeatherIsland.js:162-168 | `current` is always present and carries the air-quality value; its other fields and the error, reason and daily data are the forecast's |
| WeatherWidget.FetchCycle | WeatherIsland.js:114-185 | the slot is written exactly when the location step gave a name and coordinates and the forecast arrived; the record is always complete |
| WeatherWidget.LocationMakesNoForecastRequest | WeatherIsland.js:188-288 | location resolution makes neither a forecast nor an air-quality request |
| WeatherWidget.LocationFailureCycle | WeatherIsland.js:115-120 | no name or no coordinates: the placeholder with "无法获取位置信息" at "未知位置", stamped with the first clock reading, not stored, and no forecast or air-quality request |
| WeatherWidget.WeatherFailureCycle | WeatherIsland.js:136-138 | a forecast request that throws or is not ok gives the placeholder with the error's message (or the default) at "未知位置", stamped with the second clock reading of line 182, not stored |
| WeatherWidget.SuccessCycle | WeatherIsland.js:140-179 | an arriving forecast is stored under the resolved name with the first clock reading; unless it is an error marker its condition comes from the table, and a failed air-quality request shows "优 (null)" |
| WeatherWidget.EndToEndExample | WeatherIsland.js:99-186 | primary failed, secondary sentence, geocoding and forecast succeed: the record is stored under "广东" and shows a temperature |
| WeatherWidget.Widget.constructor | WeatherIsland.js:5-28 | the interval is the given one, 0 included, or 3600000 when none is given; the panel starts collapsed; the slot holds what the store holds |
| WeatherWidget.Widget.LoadWeatherData | WeatherIsland.js:99-186 | a fresh entry is returned with no request and the slot unchanged; otherwise the record and requests of `FetchCycle`, the slot overwritten with the record and `now` exactly when the cycle stores, else unchanged |
| WeatherWidget.Widget.ToggleDetails | WeatherIsland.js:511-527 | the flag flips when the panel's elements are present and is unchanged otherwise |
| WeatherWidget.ReloadWithinInterval | WeatherIsland.js:99-112 | after a load that stores, a second load at any time less than an interval after it (the last millisecond included) returns the same record and makes no request |
| WeatherWidget.LoadAtIntervalEnd | WeatherIsland.js:99-112 | a load exactly an interval after the slot was written runs the whole cycle, as if nothing were cached |

## Left out

- Rendering and the page: `createWidget`, `positionWidget`, `updateWeatherDisplay` (apart from the air-quality token at line 464), the theme, the event-listener wiring and the CSS classes set in `toggleDetails`. `ToggleDetails` takes the presence of the widget, button and panel as one boolean.
- The network: URLs, headers, the 4 and 5 second abort timers and the transport. Each exchange is an input that failed, was not ok, or carried a decoded body. The wait is not modelled; a timeout is a failure.
- Response bodies that decode to something other than the expected object shape (for example a forecast body of `null`, which makes line 165 throw into the catch path). The model's bodies are always of the expected shape.
- `parseFloat` and IEEE arithmetic: coordinates are reals passed through unchanged, and rounding is exact on reals.
- Humidity, weather code and the air-quality index are integers in the model. Fractional values of these fields are not modelled.
- `JSON.parse` of the stored slot. A corrupt slot throws at line 107, outside the `try`, and a slot without `lastUpdated` is never fresh; both are outside the model, whose slot always holds a well-formed entry. `localStorage.setItem` failing (quota) is not modelled either.
- `Date.now()` and the display time format: the two clock readings are parameters `now` and `catchNow`.
- Overlap between the periodic timer, the double-click refresh and `init`: cycles are modelled one at a time. The constructor does not start the first cycle; a caller calls `LoadWeatherData`.
- Options other than `refreshInterval` (`position`, `showDetails`), and a `refreshInterval` key present with the value `undefined`.
- Logging via `console`.
- The unused `coordinates` argument of `processWeatherData` (line 170).
- LocationResolver.GetCoordinates: `substring(0, 2)` counts UTF-16 code units, the model counts code points; the two agree for the Chinese place names the services return.
- LocationResolver.ParseSecondaryText: its own contract gives one direction only; the converse and the value parsed are stated by `LocationResolver.ParseSecondaryTextIsTrimmedToken` and `LocationResolver.SecondaryPartsSingle`, which keeps the lemmas about the whole chain cheap to prove.
