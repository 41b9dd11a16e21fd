# Gradtagszahlen calculator — a Dafny model

This project models the calculation core of the Gradtagszahlen tool: the
`GradtagszahlenCalculator` of `Library/gradtagszahlenCalculator.py`, which
computes heating degree days (Gradtagszahlen, after VDI 2067) for a list of
cities over a date period. A day is a heating day when its mean outdoor
temperature is strictly below the heating limit; the Gradtagszahl is the sum of
`room temperature - outdoor temperature` over the heating days.

The model follows the source's structure, one module per concern:

- `Domain` (`domain.dfy`): `CityData`, `CalculationResult`, dates as parsed
  (year, month, day) triples with the text the caller passed and a "parsed"
  flag (`DateArg`), and the default room temperature (20.0) and heating limit (15.0).
- `Validation` (`validation.dfy`): `_validate_inputs` as a pure function over the
  inputs, returning `Pass` or the first failing check's error.
- `TemperatureData` (`temperature_data.dfy`): what `_fetch_temperature_data` does
  with the archive's answer. The request itself is an input: a `FetchOutcome`,
  either a transport failure or a decoded response
  (`daily` → `temperature_2m_mean` → one optional reading per day).
- `HeatingDegreeDays` (`heating_degree_days.dfy`): the aggregation loop of
  `_calculate_heating_degree_days` as a method proved against the functions
  `Gradtagszahl` and `HeatingDays`, plus a reference definition (select the
  heating days, then sum their deficits) and the algebra of the aggregation.
- `ResultDict` (`result_dict.dfy`): the `results` dictionary, keeping Python's
  insertion order of keys (an overwritten key keeps its place).
- `Calculator` (`calculator.dfy`): `calculate_for_cities` as a method with the
  per-city loop, proved equal to the fold `ProcessCities`, and what that fold stores.
- `Summary` (`summary.dfy`): `get_calculation_summary`, with Python's stable
  `sorted(..., reverse=True)` as an insertion sort proved sorted, a permutation and stable.

Temperatures are exact `real` numbers. Each city's request outcome is a
parameter of `CalculateForCities` (`outcomes[i]` for `cities[i]`), and the
method returns the list of cities it sent a request for, so that "no request
when validation fails" is a stated postcondition.

## Model

| member | source | states |
|---|---|---|
| `Validation.CheckCoordinates` | Library/gradtagszahlenCalculator.py:141-146 | the coordinate loop passes exactly when every city's latitude is in [-90, 90] and longitude in [-180, 180] (inclusive); any error it reports is a latitude or longitude error |
| `Validation.CheckCoordinatesReportsFirst` | Library/gradtagszahlenCalculator.py:142-146 | the loop reports the first city in list order that has a bad coordinate, with its latitude error if the latitude is bad and otherwise its longitude error |
| `Validation.Validate` | Library/gradtagszahlenCalculator.py:116-146 | validation accepts exactly the inputs with a non-empty city list, both dates parsed, start strictly before end, room temperature above heating limit and all coordinates in range |
| `Validation.ValidationOrder` | Library/gradtagszahlenCalculator.py:125-139 | empty list, bad date format, start not before end and room temperature not above the limit are each reported exactly when all earlier checks pass and that check fails |
| `Validation.ValidationReportsFirstBadCity` | Library/gradtagszahlenCalculator.py:141-146 | once the general checks pass, validation fails with the error of the first city in list order whose coordinates are out of range |
| `TemperatureData.PresentReadings` | Library/gradtagszahlenCalculator.py:185 | the filtered readings are exactly the present ones (membership both ways), no more than the input, and empty iff every reading is missing |
| `TemperatureData.PresentReadingsAppend` | Library/gradtagszahlenCalculator.py:185 | filtering commutes with concatenation, so the kept readings stay in their original order |
| `TemperatureData.ExtractTemperatures` | Library/gradtagszahlenCalculator.py:176-191 | a transport failure, a response lacking `daily` or `temperature_2m_mean`, or a series with no present reading each fail with their own error, and only then; otherwise the result is the non-empty list of present readings in order |
| `HeatingDegreeDays.HeatingDays` | Library/gradtagszahlenCalculator.py:215-223 | there are never more heating days than readings |
| `HeatingDegreeDays.CalculateHeatingDegreeDays` | Library/gradtagszahlenCalculator.py:214-226 | the accumulating loop returns the total `Gradtagszahl` and the count `HeatingDays` of its whole input |
| `HeatingDegreeDays.HeatingReadings` | Library/gradtagszahlenCalculator.py:217-219 | a reading is selected iff it occurs in the input and is strictly below the heating limit, and each selected reading is kept as often as it occurs in the input |
| `HeatingDegreeDays.AggregationCharacterized` | Library/gradtagszahlenCalculator.py:217-223 | the count is the number of readings strictly below the limit and the total is the sum of `room - t` over exactly those readings; a reading equal to the limit contributes to neither |
| `HeatingDegreeDays.AggregationAppend` | Library/gradtagszahlenCalculator.py:217-223 | total and count over `xs + ys` are the sums of those over `xs` and over `ys` |
| `HeatingDegreeDays.AggregationRemove` | Library/gradtagszahlenCalculator.py:217-223 | taking one reading out and aggregating it separately gives the same total and count |
| `HeatingDegreeDays.AggregationPermutation` | Library/gradtagszahlenCalculator.py:217-223 | any reordering of the readings gives the same total and count |
| `HeatingDegreeDays.GradtagszahlBounds` | Library/gradtagszahlenCalculator.py:219-223 | when room temperature exceeds the heating limit, the total is at least (and, with a heating day, more than) `(room - limit) * days`, never negative, and zero exactly when there is no heating day |
| `HeatingDegreeDays.ExampleSeries` | Library/gradtagszahlenCalculator.py:219-223 | readings 10, 16, 15, 12 with room 20 and limit 15 give total 18 over 2 heating days |
| `ResultDict.ResultDict.Put` | Library/gradtagszahlenCalculator.py:100 | storing under a name keeps the keys distinct and in first-insertion order: a new name is appended, an existing one keeps its place and gets the new value |
| `ResultDict.ResultDict.Items` | Library/gradtagszahlenCalculator.py:252 | the items are the (name, result) pairs of the dictionary in insertion order |
| `ResultDict.ItemsListEachEntryOnce` | Library/gradtagszahlenCalculator.py:252 | every stored name appears in the items exactly once, and only stored names appear |
| `ResultDict.SizeMatchesOrder` | Library/gradtagszahlenCalculator.py:112 | the dictionary holds as many entries as its key order lists |
| `Calculator.CityResult` | Library/gradtagszahlenCalculator.py:83-98 | a city yields a result iff its temperatures are extracted, and that result has the city's name, the aggregate of those temperatures, and the call's period, room temperature and heating limit |
| `Calculator.ProcessCities` | Library/gradtagszahlenCalculator.py:76-110 | the results collected by the per-city loop form a valid dictionary |
| `Calculator.CalculateForCities` | Library/gradtagszahlenCalculator.py:44-113 | room temperature and heating limit default to 20.0 and 15.0; a failed validation is returned with no request sent; otherwise one request per city in order, and the results collected by `ProcessCities` |
| `Calculator.OrderBounded` | Library/gradtagszahlenCalculator.py:78-100 | the loop stores at most one key per input city |
| `Calculator.ResultsDescribeTheirCall` | Library/gradtagszahlenCalculator.py:91-100 | there are never more results than cities, and every stored result is keyed by its own city name and carries the call's period, room temperature and heating limit |
| `Calculator.StoredExactlyTheSucceededNames` | Library/gradtagszahlenCalculator.py:78-110 | a name is a result key iff some city of that name was processed without error |
| `Calculator.StoredIsLastSuccess` | Library/gradtagszahlenCalculator.py:100 | the result stored under a name is that of the last successfully processed city of that name (later duplicates overwrite) |
| `Calculator.FailedCityIsSkipped` | Library/gradtagszahlenCalculator.py:107-110 | a failing city whose name no other city shares is absent from the results |
| `Calculator.OrderFollowsFirstSuccess` | Library/gradtagszahlenCalculator.py:78-100 | the result keys are listed in the order in which their names first succeeded: a city that stored a later key is preceded by a successful city of every earlier key |
| `Calculator.FirstKeyIsFirstSuccess` | Library/gradtagszahlenCalculator.py:78-100 | the first result key, whose result heads the summary, is the name of the first city processed without error |
| `Calculator.AsWrittenOutcomes` | Library/gradtagszahlenCalculator.py:176 | with the request as written every city's fetch fails |
| `Calculator.AsWrittenFetchStoresNothing` | Library/crudHandler.py:8-10 | with the request as written, the results are empty for every input |
| `Summary.InsertDescendingSorted` | Library/gradtagszahlenCalculator.py:251-255 | inserting into a list sorted largest first keeps it sorted and adds exactly the new item |
| `Summary.SortDescendingSorted` | Library/gradtagszahlenCalculator.py:251-255 | the sorted items are ordered by Gradtagszahl, largest first, and are a permutation of the input |
| `Summary.InsertWithKey` | Library/gradtagszahlenCalculator.py:251-255 | insertion places the new item after every item of equal key |
| `Summary.SortDescendingStable` | Library/gradtagszahlenCalculator.py:251-255 | for every key, items with that key keep their relative input (insertion) order |
| `Summary.ExampleOrdering` | Library/gradtagszahlenCalculator.py:251-255 | totals A=5, B=12, C=12 inserted in that order sort as B, C, A |
| `Summary.CalculationSummary` | Library/gradtagszahlenCalculator.py:238-263 | no results give the single fixed message; otherwise six header lines from the result stored under the first inserted name, then one city line per result in the stable descending order, with Gradtagszahl non-increasing down the lines |

## Findings

| source | as written | input that shows it | evidently intended | confidence | as-written member | corrected member |
|---|---|---|---|---|---|---|
| Library/gradtagszahlenCalculator.py:176 | `self.crud_handler.get('archive', params)` calls `CrudHandler.get(self, endpoint)` (Library/crudHandler.py:8) with one argument too many; the call raises before any request, the error is re-raised (line 194) and the city skipped (line 110), so every city is skipped | any valid input, e.g. the three cities of the demo block with 2022-10-01 to 2023-04-30: the result is empty and the summary is "No calculation results available." | the query parameters are sent with the request and each city's answer is processed | high (type mismatch of a call), not executed | `Calculator.AsWrittenFetchStoresNothing` | `Calculator.StoredExactlyTheSucceededNames` |

The rest of the model takes each city's request outcome as an input, as if the
request were sent as intended.

## Left out

- The HTTP request (`CrudHandler`, the `requests` library, the archive service): replaced by a per-city `FetchOutcome` input; timeouts and transport details are not modelled.
- `datetime.strptime`: only its outcome is modelled (`DateArg.parsed`, a date triple or None); which strings parse is not.
- Floating point: temperatures and sums are exact reals, so IEEE rounding of the accumulated sum is not modelled.
- Summary formatting: the `:20` name padding, the `:8.1f` and `°C` renderings of numbers and the final `"\n".join` are not modelled; value lines carry the values themselves (`Summary.Line`), fixed lines carry their exact text.
- Logging (the `logger` calls) has no effect on results and is left out, as are the `@protected` decorator and the `__main__` demo block.
- `ExtractTemperatures`: the source re-raises all fetch errors as one generic exception whose message differs per cause; the model keeps the causes as distinct error values instead of messages.
- Exceptions are modelled as `Result`/`Outcome` values: a validation failure is returned as `Failure` instead of raised.
- The user interface (`main.py`) is not part of this model.
