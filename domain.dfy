/**
 * The records of the calculator (Library/gradtagszahlenCalculator.py):
 * the city to calculate for, the result of one calculation, and the
 * calendar dates the caller passes as text.
 */
module Domain {
  import opened Wrappers

  /** `CityData`: a named place, addressed by its coordinates. */
  datatype CityData = CityData(name: string, latitude: real, longitude: real)

  /** `CalculationResult`: what is stored for one successfully processed city. */
  datatype CalculationResult = CalculationResult(
    cityName: string,
    gradtagszahl: real,
    heatingDaysCount: nat,
    periodStart: string,
    periodEnd: string,
    roomTemperature: real,
    heatingLimit: real)

  /** A calendar date as the parsed year, month and day. */
  datatype Date = Date(year: int, month: int, day: int)

  /** Strict chronological order: dates compare field by field, year first. */
  predicate Precedes(a: Date, b: Date) {
    a.year < b.year
    || (a.year == b.year && (a.month < b.month || (a.month == b.month && a.day < b.day)))
  }

  /**
   * A date argument as the caller passes it: the text itself, and the date
   * it denotes when it parses in the 'YYYY-MM-DD' format (None when parsing fails).
   */
  datatype DateArg = DateArg(text: string, parsed: Option<Date>)

  /** Default room temperature and heating limit, in degrees Celsius. */
  const DefaultRoomTemperature: real := 20.0
  const DefaultHeatingLimit: real := 15.0
}
