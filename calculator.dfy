/**
 * The batch driver `GradtagszahlenCalculator.calculate_for_cities`
 * (Library/gradtagszahlenCalculator.py:69-113): validate once, then for each
 * city fetch its temperatures, aggregate them and store the result under the
 * city's name; a city whose fetch fails is skipped and the loop continues.
 */
module Calculator {
  import opened Wrappers
  import opened Domain
  import opened Validation
  import opened TemperatureData
  import opened HeatingDegreeDays
  import opened ResultDict

  /** The parameters every city of one call is calculated with. */
  datatype Parameters = Parameters(
    startDate: DateArg, endDate: DateArg, roomTemperature: real, heatingLimit: real)

  /** The body of the per-city `try` block: fetch, aggregate, build the result. */
  function CityResult(city: CityData, params: Parameters, outcome: FetchOutcome)
    : (r: Result<CalculationResult, FetchError>)
    ensures r.Success? <==> ExtractTemperatures(outcome).Success?
    ensures r.Success? ==>
      var temperatures := ExtractTemperatures(outcome).value;
      && r.value.cityName == city.name
      && r.value.gradtagszahl == Gradtagszahl(temperatures, params.roomTemperature, params.heatingLimit)
      && r.value.heatingDaysCount == HeatingDays(temperatures, params.heatingLimit)
      && r.value.heatingDaysCount <= |temperatures|
      && r.value.periodStart == params.startDate.text
      && r.value.periodEnd == params.endDate.text
      && r.value.roomTemperature == params.roomTemperature
      && r.value.heatingLimit == params.heatingLimit
  {
    match ExtractTemperatures(outcome)
    case Failure(e) => Failure(e)
    case Success(temperatures) =>
      Success(CalculationResult(
        city.name,
        Gradtagszahl(temperatures, params.roomTemperature, params.heatingLimit),
        HeatingDays(temperatures, params.heatingLimit),
        params.startDate.text, params.endDate.text,
        params.roomTemperature, params.heatingLimit))
  }

  /** The results the per-city loop has collected after the given cities. */
  function ProcessCities(cities: seq<CityData>, outcomes: seq<FetchOutcome>, params: Parameters)
    : (d: ResultDict)
    requires |outcomes| == |cities|
    ensures d.Valid()
  {
    if cities == [] then Empty
    else
      var n := |cities| - 1;
      var before := ProcessCities(cities[..n], outcomes[..n], params);
      match CityResult(cities[n], params, outcomes[n])
      case Failure(_) => before
      case Success(result) => before.Put(cities[n].name, result)
  }

  /** City `i` of the call is processed without error. */
  ghost predicate Succeeds(cities: seq<CityData>, outcomes: seq<FetchOutcome>, params: Parameters, i: int) {
    0 <= i < |cities| && i < |outcomes| && CityResult(cities[i], params, outcomes[i]).Success?
  }

  /**
   * `calculate_for_cities`. `outcomes[i]` is what the archive answers for the
   * i-th city; `requested` lists the cities a request was sent for, in order.
   * Room temperature and heating limit default to 20 and 15 degrees Celsius.
   */
  method CalculateForCities(
    cities: seq<CityData>, startDate: DateArg, endDate: DateArg, outcomes: seq<FetchOutcome>,
    roomTemperature: real := DefaultRoomTemperature, heatingLimit: real := DefaultHeatingLimit)
    returns (r: Result<ResultDict, ValidationError>, requested: seq<CityData>)
    requires |outcomes| == |cities|
    ensures match Validate(cities, startDate, endDate, roomTemperature, heatingLimit)
      case Fail(e) => r == Failure(e) && requested == []
      case Pass =>
        && r == Success(ProcessCities(cities, outcomes,
                          Parameters(startDate, endDate, roomTemperature, heatingLimit)))
        && requested == cities
  {
    requested := [];
    var check := Validate(cities, startDate, endDate, roomTemperature, heatingLimit);
    if check.Fail? {
      return Failure(check.error), requested;
    }
    var params := Parameters(startDate, endDate, roomTemperature, heatingLimit);
    var results := Empty;
    for i := 0 to |cities|
      invariant results == ProcessCities(cities[..i], outcomes[..i], params)
      invariant requested == cities[..i]
    {
      assert cities[..i + 1][..i] == cities[..i];
      assert outcomes[..i + 1][..i] == outcomes[..i];
      var city := cities[i];
      requested := requested + [city];
      var temperatures := ExtractTemperatures(outcomes[i]);
      if temperatures.Failure? {
        continue;
      }
      var gradtagszahl, heatingDays :=
        CalculateHeatingDegreeDays(temperatures.value, roomTemperature, heatingLimit);
      var result := CalculationResult(
        city.name, gradtagszahl, heatingDays, startDate.text, endDate.text,
        roomTemperature, heatingLimit);
      results := results.Put(city.name, result);
    }
    assert cities[..|cities|] == cities;
    assert outcomes[..|cities|] == outcomes;
    r := Success(results);
  }

  /**
   * Every stored result carries its own key as city name and the call's
   * period, room temperature and heating limit; there are never more results
   * than cities.
   */
  lemma {:induction false} ResultsDescribeTheirCall(
    cities: seq<CityData>, outcomes: seq<FetchOutcome>, params: Parameters)
    requires |outcomes| == |cities|
    ensures var d := ProcessCities(cities, outcomes, params);
      && |d.entries| <= |cities|
      && forall k :: k in d.entries ==>
           && d.entries[k].cityName == k
           && d.entries[k].periodStart == params.startDate.text
           && d.entries[k].periodEnd == params.endDate.text
           && d.entries[k].roomTemperature == params.roomTemperature
           && d.entries[k].heatingLimit == params.heatingLimit
  {
    var d := ProcessCities(cities, outcomes, params);
    if cities != [] {
      var n := |cities| - 1;
      ResultsDescribeTheirCall(cities[..n], outcomes[..n], params);
    }
    SizeMatchesOrder(d);
    OrderBounded(cities, outcomes, params);
  }

  lemma {:induction false} OrderBounded(
    cities: seq<CityData>, outcomes: seq<FetchOutcome>, params: Parameters)
    requires |outcomes| == |cities|
    ensures |ProcessCities(cities, outcomes, params).order| <= |cities|
  {
    if cities != [] {
      var n := |cities| - 1;
      OrderBounded(cities[..n], outcomes[..n], params);
    }
  }

  /**
   * A name is a key of the results exactly when some city of that name was
   * processed without error: a city whose fetch fails is absent unless
   * another city of the same name succeeded.
   */
  lemma {:induction false} StoredExactlyTheSucceededNames(
    cities: seq<CityData>, outcomes: seq<FetchOutcome>, params: Parameters, name: string)
    requires |outcomes| == |cities|
    ensures name in ProcessCities(cities, outcomes, params).entries <==>
      exists i :: Succeeds(cities, outcomes, params, i) && cities[i].name == name
  {
    if cities != [] {
      var n := |cities| - 1;
      var before := ProcessCities(cities[..n], outcomes[..n], params);
      var d := ProcessCities(cities, outcomes, params);
      var last := CityResult(cities[n], params, outcomes[n]);
      assert d == if last.Success? then before.Put(cities[n].name, last.value) else before;
      assert name in d.entries <==> name in before.entries || (last.Success? && cities[n].name == name);
      StoredExactlyTheSucceededNames(cities[..n], outcomes[..n], params, name);
      if name in before.entries {
        var i :| Succeeds(cities[..n], outcomes[..n], params, i) && cities[..n][i].name == name;
        assert Succeeds(cities, outcomes, params, i) && cities[i].name == name;
      }
      if last.Success? && cities[n].name == name {
        assert Succeeds(cities, outcomes, params, n);
      }
      if i :| Succeeds(cities, outcomes, params, i) && cities[i].name == name {
        if i < n {
          assert Succeeds(cities[..n], outcomes[..n], params, i) && cities[..n][i].name == name;
        }
      }
    }
  }

  /**
   * A later city with the same name overwrites an earlier one: the stored
   * result for a name is the one of the last city of that name that succeeded.
   */
  lemma {:induction false} StoredIsLastSuccess(
    cities: seq<CityData>, outcomes: seq<FetchOutcome>, params: Parameters, i: int)
    requires |outcomes| == |cities|
    requires Succeeds(cities, outcomes, params, i)
    requires forall j :: i < j < |cities| && cities[j].name == cities[i].name ==>
      !Succeeds(cities, outcomes, params, j)
    ensures var d := ProcessCities(cities, outcomes, params);
      && cities[i].name in d.entries
      && d.entries[cities[i].name] == CityResult(cities[i], params, outcomes[i]).value
  {
    var n := |cities| - 1;
    var before := ProcessCities(cities[..n], outcomes[..n], params);
    var last := CityResult(cities[n], params, outcomes[n]);
    assert ProcessCities(cities, outcomes, params)
      == if last.Success? then before.Put(cities[n].name, last.value) else before;
    if i < n {
      assert Succeeds(cities[..n], outcomes[..n], params, i);
      forall j | i < j < n && cities[..n][j].name == cities[..n][i].name
        ensures !Succeeds(cities[..n], outcomes[..n], params, j)
      {
        assert !Succeeds(cities, outcomes, params, j);
      }
      StoredIsLastSuccess(cities[..n], outcomes[..n], params, i);
      assert last.Success? ==> cities[n].name != cities[i].name by {
        if last.Success? {
          assert Succeeds(cities, outcomes, params, n);
        }
      }
    }
  }

  /**
   * The partial-failure scenario: a failing city whose name no other city
   * shares is missing from the results, while the others are still processed.
   */
  lemma FailedCityIsSkipped(
    cities: seq<CityData>, outcomes: seq<FetchOutcome>, params: Parameters, i: int)
    requires |outcomes| == |cities|
    requires 0 <= i < |cities|
    requires ExtractTemperatures(outcomes[i]).Failure?
    requires forall j :: 0 <= j < |cities| && j != i ==> cities[j].name != cities[i].name
    ensures cities[i].name !in ProcessCities(cities, outcomes, params).entries
  {
    StoredExactlyTheSucceededNames(cities, outcomes, params, cities[i].name);
  }

  /**
   * The request as written: `CrudHandler.get` accepts only an endpoint, so
   * passing the query parameters as a second argument raises before any
   * request is sent, and every city's fetch fails.
   */
  function AsWrittenOutcomes(count: nat): (outcomes: seq<FetchOutcome>)
    ensures |outcomes| == count
    ensures forall i :: 0 <= i < count ==> outcomes[i] == TransportError
  {
    seq(count, i => TransportError)
  }

  /** With the request as written, no city is ever stored, whatever the input. */
  lemma {:induction false} AsWrittenFetchStoresNothing(cities: seq<CityData>, params: Parameters)
    ensures ProcessCities(cities, AsWrittenOutcomes(|cities|), params) == Empty
  {
    if cities != [] {
      var n := |cities| - 1;
      assert AsWrittenOutcomes(|cities|)[..n] == AsWrittenOutcomes(n);
      AsWrittenFetchStoresNothing(cities[..n], params);
    }
  }

  /**
   * The keys are listed in the order in which their names first succeeded:
   * if `d.order[a]` comes before `d.order[b]`, then every city that succeeded
   * under the later name is preceded by a city that succeeded under the earlier one.
   */
  lemma {:induction false} OrderFollowsFirstSuccess(
    cities: seq<CityData>, outcomes: seq<FetchOutcome>, params: Parameters, a: int, b: int, j: int)
    requires |outcomes| == |cities|
    requires 0 <= a < b < |ProcessCities(cities, outcomes, params).order|
    requires Succeeds(cities, outcomes, params, j)
    requires cities[j].name == ProcessCities(cities, outcomes, params).order[b]
    ensures exists i :: (0 <= i < j && Succeeds(cities, outcomes, params, i)
      && cities[i].name == ProcessCities(cities, outcomes, params).order[a])
  {
    var n := |cities| - 1;
    var d := ProcessCities(cities, outcomes, params);
    var before := ProcessCities(cities[..n], outcomes[..n], params);
    var last := CityResult(cities[n], params, outcomes[n]);
    assert d == if last.Success? then before.Put(cities[n].name, last.value) else before;
    var nameA := d.order[a];
    assert a < |before.order| && nameA == before.order[a];
    // The earlier name was already stored before the last city.
    StoredExactlyTheSucceededNames(cities[..n], outcomes[..n], params, nameA);
    var i :| Succeeds(cities[..n], outcomes[..n], params, i) && cities[..n][i].name == nameA;
    assert Succeeds(cities, outcomes, params, i) && cities[i].name == nameA;
    if j < n {
      // City j already stored the later name, so it was not added by the last city.
      assert Succeeds(cities[..n], outcomes[..n], params, j) && cities[..n][j].name == d.order[b];
      StoredExactlyTheSucceededNames(cities[..n], outcomes[..n], params, d.order[b]);
      assert b < |before.order| && before.order[b] == d.order[b];
      OrderFollowsFirstSuccess(cities[..n], outcomes[..n], params, a, b, j);
      var i' :| 0 <= i' < j && Succeeds(cities[..n], outcomes[..n], params, i')
        && cities[..n][i'].name == nameA;
      assert Succeeds(cities, outcomes, params, i');
    }
  }

  /** The header's result: the first inserted key is the name of the first city that succeeded. */
  lemma FirstKeyIsFirstSuccess(
    cities: seq<CityData>, outcomes: seq<FetchOutcome>, params: Parameters, i: int)
    requires |outcomes| == |cities|
    requires Succeeds(cities, outcomes, params, i)
    requires forall j :: 0 <= j < i ==> !Succeeds(cities, outcomes, params, j)
    ensures ProcessCities(cities, outcomes, params).order != []
    ensures ProcessCities(cities, outcomes, params).order[0] == cities[i].name
  {
    var d := ProcessCities(cities, outcomes, params);
    StoredExactlyTheSucceededNames(cities, outcomes, params, cities[i].name);
    var b :| 0 <= b < |d.order| && d.order[b] == cities[i].name;
    if b > 0 {
      OrderFollowsFirstSuccess(cities, outcomes, params, 0, b, i);
    }
  }
}
