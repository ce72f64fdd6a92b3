/**
 * The mock weather tool: a fixed five-entry table of city descriptions and the
 * lookup the agent calls with a city name.
 */
module Weather {
  import opened Text

  datatype Option<T> = None | Some(value: T)

  /** A Python dict of strings, as its (key, value) pairs in insertion order. */
  type Table = seq<(string, string)>

  /** What Python guarantees of a dict: no key occurs twice. */
  predicate DistinctKeys(t: Table) {
    forall i, j :: 0 <= i < j < |t| ==> t[i].0 != t[j].0
  }

  /** The hard-coded table of mock weather, keys lower-case, in insertion order. */
  const MockWeatherData: Table := [
    ("london", "sunny with 25°C"),
    ("new york", "cloudy with 18°C"),
    ("tokyo", "rainy with 22°C"),
    ("paris", "partly cloudy with 20°C"),
    ("sydney", "warm with 30°C")
  ]

  /**
   * The dict read `key in t` followed by `t[key]`: `Some` of the value stored
   * under `key`, or `None` when `key` is not an exact key of `t`.
   */
  function Get(t: Table, key: string): (r: Option<string>)
    ensures r.None? <==> forall i :: 0 <= i < |t| ==> t[i].0 != key
    ensures r.Some? ==> exists i :: 0 <= i < |t| && t[i] == (key, r.value)
  {
    if t == [] then None
    else if t[0].0 == key then Some(t[0].1)
    else
      var r := Get(t[1..], key);
      assert forall i :: 1 <= i < |t| ==> t[i] == t[1..][i - 1];
      r
  }

  /** With distinct keys, every entry of the table is what a read of its key returns. */
  lemma {:induction false} GetEntry(t: Table, i: nat)
    requires DistinctKeys(t)
    requires i < |t|
    ensures Get(t, t[i].0) == Some(t[i].1)
  {
    if i > 0 {
      assert t[0].0 != t[i].0;
      assert t[1..][i - 1] == t[i];
      GetEntry(t[1..], i - 1);
    }
  }

  /** The keys of `t` title-cased, in table order (the list comprehension). */
  function TitledKeys(t: Table): seq<string> {
    seq(|t|, i requires 0 <= i < |t| => Title(t[i].0))
  }

  /** The `" , "`-joined list of title-cased keys the miss reply offers. */
  function KnownCities(t: Table): string {
    Join(TitledKeys(t), " , ")
  }

  /**
   * Each key of the table appears title-cased in the list of known cities, at
   * its own position in table order, between the separators.
   */
  lemma KnownCitiesAt(t: Table, i: nat)
    requires i < |t|
    ensures KnownCities(t) ==
      Join(TitledKeys(t)[..i], " , ") + (if i > 0 then " , " else "") + Title(t[i].0) +
      (if i + 1 < |t| then " , " + Join(TitledKeys(t)[i + 1..], " , ") else "")
  {
    JoinAt(TitledKeys(t), " , ", i);
  }

  /**
   * `weather_lookup_tool`: on an exact, case-sensitive key hit, a sentence
   * around the stored description (with a trailing space); otherwise an
   * apology naming the title-cased query and the known cities.
   */
  function WeatherLookupTool(cityName: string): (r: string)
    ensures forall i :: 0 <= i < |MockWeatherData| && MockWeatherData[i].0 == cityName ==>
      r == "The weather in " + cityName + " is " + MockWeatherData[i].1 + " "
    ensures (forall i :: 0 <= i < |MockWeatherData| ==> MockWeatherData[i].0 != cityName) ==>
      r == "I'm sorry, I dont have weather information for " + Title(cityName) + "." +
           "Please ask me about: " + "London , New York , Tokyo , Paris , Sydney"
  {
    match Get(MockWeatherData, cityName)
    case Some(weatherInfo) =>
      "The weather in " + cityName + " is " + weatherInfo + " "
    case None =>
      var knownCities := KnownCities(MockWeatherData);
      KnownCitiesValue();
      "I'm sorry, I dont have weather information for " + Title(cityName) + "." +
      "Please ask me about: " + knownCities
  }

  // The title-cased forms of the strings the lemmas below need, one per lemma.
  lemma TitleLondon() ensures Title("london") == "London" {}
  lemma TitleNewYork() ensures Title("new york") == "New York" {}
  lemma TitleTokyo() ensures Title("tokyo") == "Tokyo" {}
  lemma TitleParis() ensures Title("paris") == "Paris" {}
  lemma TitleSydney() ensures Title("sydney") == "Sydney" {}
  lemma TitleAtlantis() ensures Title("atlantis") == "Atlantis" {}
  lemma TitleCapitalLondon() ensures Title("London") == "London" {}

  /** The city names the miss reply offers, as the source's output spells them. */
  const KnownCityNames: seq<string> := ["London", "New York", "Tokyo", "Paris", "Sydney"]

  /** The keys of the mock table, title-cased in table order, are the five city names. */
  lemma MockTitledKeys()
    ensures TitledKeys(MockWeatherData) == KnownCityNames
  {
    TitleLondon();
    TitleNewYork();
    TitleTokyo();
    TitleParis();
    TitleSydney();
  }

  /**
   * No key of the mock table occurs twice, and no city name is offered twice,
   * so each key is read back by `Get` and named once in the known-city list.
   */
  lemma MockKeysDistinct()
    ensures DistinctKeys(MockWeatherData)
    ensures forall i, j :: 0 <= i < j < |KnownCityNames| ==> KnownCityNames[i] != KnownCityNames[j]
  {
    var names := KnownCityNames;
    assert names[0][0] == 'L' && names[1][0] == 'N' && names[2][0] == 'T' && names[3][0] == 'P' && names[4][0] == 'S';
  }

  lemma JoinMockTitles()
    ensures Join(KnownCityNames, " , ") ==
      "London" + " , " + "New York" + " , " + "Tokyo" + " , " + "Paris" + " , " + "Sydney"
  {
  }

  lemma KnownCitiesSpelled()
    ensures "London" + " , " + "New York" + " , " + "Tokyo" + " , " + "Paris" + " , " + "Sydney" ==
      "London , New York , Tokyo , Paris , Sydney"
  {
  }

  /** The list of known cities, as the miss reply spells it out. */
  lemma KnownCitiesValue()
    ensures KnownCities(MockWeatherData) == "London , New York , Tokyo , Paris , Sydney"
  {
    MockTitledKeys();
    JoinMockTitles();
    KnownCitiesSpelled();
  }

  /** Matching does not fold case: the lower-case spelling is a hit, the capitalised one a miss. */
  lemma CaseSensitiveMatch()
    ensures WeatherLookupTool("london") == "The weather in " + "london" + " is " + "sunny with 25°C" + " "
    ensures WeatherLookupTool("London") ==
      "I'm sorry, I dont have weather information for " + "London" + "." +
      "Please ask me about: " + "London , New York , Tokyo , Paris , Sydney"
  {
    assert MockWeatherData[0] == ("london", "sunny with 25°C");
    assert forall i :: 0 <= i < |MockWeatherData| ==> MockWeatherData[i].0 != "London";
    TitleCapitalLondon();
  }

  /** A city outside the table: the apology names it title-cased and lists all five keys. */
  lemma UnknownCityReply()
    ensures WeatherLookupTool("atlantis") ==
      "I'm sorry, I dont have weather information for " + "Atlantis" + "." +
      "Please ask me about: " + "London , New York , Tokyo , Paris , Sydney"
  {
    assert forall i :: 0 <= i < |MockWeatherData| ==> MockWeatherData[i].0 != "atlantis";
    TitleAtlantis();
  }
}
