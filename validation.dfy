/**
 * Input validation of `GradtagszahlenCalculator._validate_inputs`
 * (Library/gradtagszahlenCalculator.py:116-146): a fixed chain of checks,
 * the first failing one decides the error.
 */
module Validation {
  import opened Wrappers
  import opened Domain

  datatype ValidationError =
    | EmptyCityList
    | InvalidDateFormat
    | StartNotBeforeEnd
    | RoomTemperatureNotAboveLimit
    | InvalidLatitude(city: string, latitude: real)
    | InvalidLongitude(city: string, longitude: real)

  /** Both bounds are inclusive. */
  predicate LatitudeInRange(latitude: real) { -90.0 <= latitude <= 90.0 }

  predicate LongitudeInRange(longitude: real) { -180.0 <= longitude <= 180.0 }

  predicate CoordinatesValid(city: CityData) {
    LatitudeInRange(city.latitude) && LongitudeInRange(city.longitude)
  }

  /** The error a city with a bad coordinate is reported with: its latitude is examined first. */
  function CoordinateError(city: CityData): ValidationError {
    if !LatitudeInRange(city.latitude) then InvalidLatitude(city.name, city.latitude)
    else InvalidLongitude(city.name, city.longitude)
  }

  /** `i` is the first city, in list order, with a coordinate out of range. */
  ghost predicate FirstInvalidCity(cities: seq<CityData>, i: int) {
    && 0 <= i < |cities|
    && !CoordinatesValid(cities[i])
    && forall j :: 0 <= j < i ==> CoordinatesValid(cities[j])
  }

  /** The per-city loop over the coordinates: None when every city passes. */
  function CheckCoordinates(cities: seq<CityData>): (r: Option<ValidationError>)
    ensures r.None? <==> forall i :: 0 <= i < |cities| ==> CoordinatesValid(cities[i])
    ensures r.Some? ==> r.value.InvalidLatitude? || r.value.InvalidLongitude?
  {
    if cities == [] then None
    else if !LatitudeInRange(cities[0].latitude) then
      Some(InvalidLatitude(cities[0].name, cities[0].latitude))
    else if !LongitudeInRange(cities[0].longitude) then
      Some(InvalidLongitude(cities[0].name, cities[0].longitude))
    else
      var rest := CheckCoordinates(cities[1..]);
      assert forall i :: 1 <= i < |cities| ==> cities[i] == cities[1..][i - 1];
      rest
  }

  /** The coordinate loop stops at the first bad city and reports it. */
  lemma {:induction false} CheckCoordinatesReportsFirst(cities: seq<CityData>, i: int)
    requires FirstInvalidCity(cities, i)
    ensures CheckCoordinates(cities) == Some(CoordinateError(cities[i]))
  {
    if i > 0 {
      assert CoordinatesValid(cities[0]);
      assert FirstInvalidCity(cities[1..], i - 1) by {
        forall j | 0 <= j < i - 1 ensures CoordinatesValid(cities[1..][j]) {
          assert cities[1..][j] == cities[j + 1];
        }
      }
      CheckCoordinatesReportsFirst(cities[1..], i - 1);
    }
  }

  /** Every input the chain accepts. */
  ghost predicate InputsValid(
    cities: seq<CityData>, startDate: DateArg, endDate: DateArg,
    roomTemperature: real, heatingLimit: real)
  {
    && cities != []
    && startDate.parsed.Some? && endDate.parsed.Some?
    && Precedes(startDate.parsed.value, endDate.parsed.value)
    && roomTemperature > heatingLimit
    && forall i :: 0 <= i < |cities| ==> CoordinatesValid(cities[i])
  }

  /** `_validate_inputs`: Pass, or the error of the first check that fails. */
  function Validate(
    cities: seq<CityData>, startDate: DateArg, endDate: DateArg,
    roomTemperature: real, heatingLimit: real): (r: Outcome<ValidationError>)
    ensures r.Pass? <==> InputsValid(cities, startDate, endDate, roomTemperature, heatingLimit)
  {
    if cities == [] then Fail(EmptyCityList)
    else if startDate.parsed.None? || endDate.parsed.None? then Fail(InvalidDateFormat)
    else if !Precedes(startDate.parsed.value, endDate.parsed.value) then Fail(StartNotBeforeEnd)
    else if roomTemperature <= heatingLimit then Fail(RoomTemperatureNotAboveLimit)
    else
      match CheckCoordinates(cities)
      case None => Pass
      case Some(e) => Fail(e)
  }

  /**
   * The order of the general checks: each of these errors is reported
   * exactly when every earlier check passed and its own check fails.
   */
  lemma ValidationOrder(
    cities: seq<CityData>, startDate: DateArg, endDate: DateArg,
    roomTemperature: real, heatingLimit: real)
    ensures var r := Validate(cities, startDate, endDate, roomTemperature, heatingLimit);
      && (r == Fail(EmptyCityList) <==> cities == [])
      && (r == Fail(InvalidDateFormat) <==>
            cities != [] && (startDate.parsed.None? || endDate.parsed.None?))
      && (r == Fail(StartNotBeforeEnd) <==>
            && cities != [] && startDate.parsed.Some? && endDate.parsed.Some?
            && !Precedes(startDate.parsed.value, endDate.parsed.value))
      && (r == Fail(RoomTemperatureNotAboveLimit) <==>
            && cities != [] && startDate.parsed.Some? && endDate.parsed.Some?
            && Precedes(startDate.parsed.value, endDate.parsed.value)
            && roomTemperature <= heatingLimit)
  {
  }

  /**
   * Once the general checks pass, the error names the first city in list
   * order whose coordinates are out of range, latitude before longitude.
   */
  lemma {:induction false} ValidationReportsFirstBadCity(
    cities: seq<CityData>, startDate: DateArg, endDate: DateArg,
    roomTemperature: real, heatingLimit: real, i: int)
    requires startDate.parsed.Some? && endDate.parsed.Some?
    requires Precedes(startDate.parsed.value, endDate.parsed.value)
    requires roomTemperature > heatingLimit
    requires FirstInvalidCity(cities, i)
    ensures Validate(cities, startDate, endDate, roomTemperature, heatingLimit)
      == Fail(CoordinateError(cities[i]))
  {
    CheckCoordinatesReportsFirst(cities, i);
  }
}
