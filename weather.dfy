/** `get_current_weather`, the tool the function-calling bot exposes: a fixed
    three-city table searched in priority order by a case-insensitive
    substring test on the location, answering a small JSON object (here the
    map from its keys to its values). */
module Weather {
  import opened Wrappers
  import opened Strings

  /** Python's `str.lower()` on one character, for the ASCII letters. */
  function LowerChar(c: char): char
  {
    if 'A' <= c <= 'Z' then (c as int + 32) as char else c
  }

  /** Python's `str.lower()`, character by character. */
  function Lower(s: string): string
  {
    seq(|s|, i requires 0 <= i < |s| => LowerChar(s[i]))
  }

  /** Lowering twice is lowering once. */
  lemma LowerIdempotent(s: string)
    ensures Lower(Lower(s)) == Lower(s)
  {
  }

  /** The weather answer for a location; `unit` defaults to `"fahrenheit"`
      and is passed through unchecked. An unknown location is echoed as given
      and its answer has no `"unit"` key. */
  function GetCurrentWeather(location: string, unit: string := "fahrenheit"): (r: map<string, string>)
    ensures "location" in r && "temperature" in r
    ensures "unit" in r ==> r["unit"] == unit
    ensures r.Keys <= {"location", "temperature", "unit"}
  {
    if Contains(Lower(location), "tokyo") then
      map["location" := "Tokyo", "temperature" := "11", "unit" := unit]
    else if Contains(Lower(location), "san francisco") then
      map["location" := "San Francisco", "temperature" := "72", "unit" := unit]
    else if Contains(Lower(location), "paris") then
      map["location" := "Paris", "temperature" := "22", "unit" := unit]
    else
      map["location" := location, "temperature" := "unknown"]
  }

  /** A row of the reference table: the lower-case key searched for, the
      name reported, and the fixed temperature. */
  datatype City = City(key: string, name: string, temperature: string)

  /** The reference table, in priority order. */
  const Cities: seq<City> := [
    City("tokyo", "Tokyo", "11"),
    City("san francisco", "San Francisco", "72"),
    City("paris", "Paris", "22")
  ]

  /** The first city of the table whose key occurs in `lowered`. */
  ghost function FirstMatch(cities: seq<City>, lowered: string): (r: Option<City>)
    ensures r.Some? ==> r.value in cities && IsSubstring(r.value.key, lowered)
    ensures r.Some? ==> exists k :: 0 <= k < |cities| && cities[k] == r.value &&
                                    forall j :: 0 <= j < k ==> !IsSubstring(cities[j].key, lowered)
    ensures r.None? <==> forall c :: c in cities ==> !IsSubstring(c.key, lowered)
    decreases |cities|
  {
    if |cities| == 0 then None
    else if IsSubstring(cities[0].key, lowered) then Some(cities[0])
    else
      var r := FirstMatch(cities[1..], lowered);
      if r.Some? then
        var k :| 0 <= k < |cities[1..]| && cities[1..][k] == r.value &&
                 forall j :: 0 <= j < k ==> !IsSubstring(cities[1..][j].key, lowered);
        assert forall j :: 0 <= j < k + 1 ==> !IsSubstring(cities[j].key, lowered) by {
          forall j | 0 <= j < k + 1 ensures !IsSubstring(cities[j].key, lowered) {
            if j > 0 { assert cities[j] == cities[1..][j - 1]; }
          }
        }
        assert cities[k + 1] == r.value;
        r
      else
        r
  }

  /** The answer as a table lookup: the first matching city with the
      caller's unit, or the location as given with an unknown temperature. */
  ghost function Lookup(location: string, unit: string): map<string, string>
  {
    match FirstMatch(Cities, Lower(location))
    case Some(c) => map["location" := c.name, "temperature" := c.temperature, "unit" := unit]
    case None => map["location" := location, "temperature" := "unknown"]
  }

  /** The `if`/`elif` chain is the priority-ordered table lookup. */
  lemma WeatherIsTableLookup(location: string, unit: string)
    ensures GetCurrentWeather(location, unit) == Lookup(location, unit)
  {
    var lowered := Lower(location);
    ContainsIsSubstring(lowered, "tokyo");
    ContainsIsSubstring(lowered, "san francisco");
    ContainsIsSubstring(lowered, "paris");
    assert Cities[1..][1..] == [City("paris", "Paris", "22")];
  }

  /** Priority: a location mentioning Tokyo answers for Tokyo, whatever other
      city it also mentions and in whatever letter case. */
  lemma TokyoFirst(location: string, unit: string)
    requires IsSubstring("tokyo", Lower(location))
    ensures GetCurrentWeather(location, unit) ==
      map["location" := "Tokyo", "temperature" := "11", "unit" := unit]
  {
    ContainsIsSubstring(Lower(location), "tokyo");
  }

  /** San Francisco answers only when Tokyo does not occur; Paris only when
      neither of the others does. */
  lemma LaterCitiesYield(location: string, unit: string)
    ensures IsSubstring("san francisco", Lower(location)) && !IsSubstring("tokyo", Lower(location)) ==>
      GetCurrentWeather(location, unit) ==
        map["location" := "San Francisco", "temperature" := "72", "unit" := unit]
    ensures IsSubstring("paris", Lower(location)) && !IsSubstring("tokyo", Lower(location))
            && !IsSubstring("san francisco", Lower(location)) ==>
      GetCurrentWeather(location, unit) ==
        map["location" := "Paris", "temperature" := "22", "unit" := unit]
  {
    ContainsIsSubstring(Lower(location), "tokyo");
    ContainsIsSubstring(Lower(location), "san francisco");
    ContainsIsSubstring(Lower(location), "paris");
  }

  /** An unknown location comes back verbatim, not lowered, with temperature
      `"unknown"` and no `"unit"` key. */
  lemma UnknownLocation(location: string, unit: string)
    requires forall c :: c in Cities ==> !IsSubstring(c.key, Lower(location))
    ensures GetCurrentWeather(location, unit) == map["location" := location, "temperature" := "unknown"]
    ensures "unit" !in GetCurrentWeather(location, unit)
  {
    WeatherIsTableLookup(location, unit);
  }

  /** Letter case does not matter: two locations equal after lowering are both
      known or both unknown, and when known they get the same answer. */
  lemma CaseInsensitive(l1: string, l2: string, unit: string)
    requires Lower(l1) == Lower(l2)
    ensures ("unit" in GetCurrentWeather(l1, unit)) <==> ("unit" in GetCurrentWeather(l2, unit))
    ensures "unit" in GetCurrentWeather(l1, unit) ==> GetCurrentWeather(l1, unit) == GetCurrentWeather(l2, unit)
  {
  }

  /** A location and its lowered form are both known or both unknown, and
      get the same answer when known. */
  lemma LoweredLocation(location: string, unit: string)
    ensures ("unit" in GetCurrentWeather(Lower(location), unit)) <==> ("unit" in GetCurrentWeather(location, unit))
    ensures "unit" in GetCurrentWeather(location, unit) ==>
      GetCurrentWeather(Lower(location), unit) == GetCurrentWeather(location, unit)
  {
    LowerIdempotent(location);
    CaseInsensitive(Lower(location), location, unit);
  }

  /** Without a unit argument a known city is reported in `"fahrenheit"`. */
  lemma DefaultUnit(location: string)
    requires exists c :: c in Cities && IsSubstring(c.key, Lower(location))
    ensures "unit" in GetCurrentWeather(location) && GetCurrentWeather(location)["unit"] == "fahrenheit"
  {
    WeatherIsTableLookup(location, "fahrenheit");
  }
}
