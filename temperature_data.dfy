/**
 * What `GradtagszahlenCalculator._fetch_temperature_data`
 * (Library/gradtagszahlenCalculator.py:167-194) does with the archive's
 * answer: check that the daily mean-temperature series is present, drop the
 * missing readings in order, and fail when none are left. The request itself
 * is an input: each call yields either a transport failure or a response.
 */
module TemperatureData {
  import opened Wrappers

  const DailyKey: string := "daily"
  const MeanTemperatureKey: string := "temperature_2m_mean"

  /** The decoded JSON answer: top-level key, then variable name, then one reading (or null) per day. */
  type Response = map<string, map<string, seq<Option<real>>>>

  /** What one request to the weather archive yields. */
  datatype FetchOutcome = TransportError | Received(response: Response)

  /** The ways fetching a city's temperatures fails (all re-raised by the source as one exception). */
  datatype FetchError = RequestFailed | InvalidResponse | NoValidData

  predicate HasTemperatureSeries(response: Response) {
    DailyKey in response && MeanTemperatureKey in response[DailyKey]
  }

  function TemperatureSeries(response: Response): seq<Option<real>>
    requires HasTemperatureSeries(response)
  {
    response[DailyKey][MeanTemperatureKey]
  }

  /** The readings that are present, in their original order. */
  function PresentReadings(readings: seq<Option<real>>): (r: seq<real>)
    ensures |r| <= |readings|
    ensures forall t :: t in r <==> Some(t) in readings
    ensures r == [] <==> forall i :: 0 <= i < |readings| ==> readings[i].None?
  {
    if readings == [] then []
    else
      var rest := PresentReadings(readings[1..]);
      assert forall i :: 1 <= i < |readings| ==> readings[i] == readings[1..][i - 1];
      assert readings == [readings[0]] + readings[1..];
      match readings[0]
      case None => rest
      case Some(t) => [t] + rest
  }

  /** Filtering commutes with concatenation, so the kept readings stay in order. */
  lemma {:induction false} PresentReadingsAppend(xs: seq<Option<real>>, ys: seq<Option<real>>)
    ensures PresentReadings(xs + ys) == PresentReadings(xs) + PresentReadings(ys)
  {
    if xs == [] {
      assert xs + ys == ys;
    } else {
      assert (xs + ys)[0] == xs[0];
      assert (xs + ys)[1..] == xs[1..] + ys;
      PresentReadingsAppend(xs[1..], ys);
    }
  }

  /** The post-response part of `_fetch_temperature_data`. */
  function ExtractTemperatures(outcome: FetchOutcome): (r: Result<seq<real>, FetchError>)
    ensures r == Failure(RequestFailed) <==> outcome.TransportError?
    ensures r == Failure(InvalidResponse) <==>
      outcome.Received? && !HasTemperatureSeries(outcome.response)
    ensures r == Failure(NoValidData) <==>
      && outcome.Received? && HasTemperatureSeries(outcome.response)
      && forall i :: 0 <= i < |TemperatureSeries(outcome.response)| ==>
           TemperatureSeries(outcome.response)[i].None?
    ensures r.Success? ==>
      && outcome.Received? && HasTemperatureSeries(outcome.response)
      && r.value == PresentReadings(TemperatureSeries(outcome.response))
      && r.value != []
  {
    match outcome
    case TransportError => Failure(RequestFailed)
    case Received(response) =>
      if !HasTemperatureSeries(response) then Failure(InvalidResponse)
      else
        var temperatures := PresentReadings(TemperatureSeries(response));
        if temperatures == [] then Failure(NoValidData) else Success(temperatures)
  }
}
