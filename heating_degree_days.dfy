/**
 * The aggregation of `GradtagszahlenCalculator._calculate_heating_degree_days`
 * (Library/gradtagszahlenCalculator.py:214-226): one pass over the daily mean
 * temperatures that sums `room - t` and counts the days with `t` strictly
 * below the heating limit.
 */
module HeatingDegreeDays {

  /** A heating day is strictly colder than the heating limit. */
  predicate IsHeatingDay(temperature: real, heatingLimit: real) {
    temperature < heatingLimit
  }

  /** The number of heating days among the readings, read left to right. */
  function HeatingDays(temperatures: seq<real>, heatingLimit: real): (n: nat)
    ensures n <= |temperatures|
  {
    if temperatures == [] then 0
    else
      var n := |temperatures| - 1;
      HeatingDays(temperatures[..n], heatingLimit)
        + (if IsHeatingDay(temperatures[n], heatingLimit) then 1 else 0)
  }

  /** The heating degree days (Kd), read left to right as the loop accumulates them. */
  function Gradtagszahl(temperatures: seq<real>, roomTemperature: real, heatingLimit: real): real {
    if temperatures == [] then 0.0
    else
      var n := |temperatures| - 1;
      Gradtagszahl(temperatures[..n], roomTemperature, heatingLimit)
        + (if IsHeatingDay(temperatures[n], heatingLimit) then roomTemperature - temperatures[n] else 0.0)
  }

  /** `_calculate_heating_degree_days`: the accumulating loop. */
  method CalculateHeatingDegreeDays(temperatures: seq<real>, roomTemperature: real, heatingLimit: real)
    returns (total: real, heatingDays: nat)
    ensures total == Gradtagszahl(temperatures, roomTemperature, heatingLimit)
    ensures heatingDays == HeatingDays(temperatures, heatingLimit)
  {
    total, heatingDays := 0.0, 0;
    for i := 0 to |temperatures|
      invariant total == Gradtagszahl(temperatures[..i], roomTemperature, heatingLimit)
      invariant heatingDays == HeatingDays(temperatures[..i], heatingLimit)
    {
      assert temperatures[..i + 1][..i] == temperatures[..i];
      var temp := temperatures[i];
      if temp < heatingLimit {
        total := total + (roomTemperature - temp);
        heatingDays := heatingDays + 1;
      }
    }
    assert temperatures[..|temperatures|] == temperatures;
  }

  // ---------------------------------------------------------------------
  // A reference definition: select the heating days, then add up deficits.

  /** The readings strictly below the heating limit, in order. */
  function HeatingReadings(temperatures: seq<real>, heatingLimit: real): (r: seq<real>)
    ensures forall t :: t in r <==> t in temperatures && IsHeatingDay(t, heatingLimit)
    ensures forall t :: (multiset(r)[t]
      == (if IsHeatingDay(t, heatingLimit) then multiset(temperatures)[t] else 0))
  {
    if temperatures == [] then []
    else
      assert forall t :: t in temperatures <==> t == temperatures[0] || t in temperatures[1..];
      assert temperatures == [temperatures[0]] + temperatures[1..];
      (if IsHeatingDay(temperatures[0], heatingLimit) then [temperatures[0]] else [])
        + HeatingReadings(temperatures[1..], heatingLimit)
  }

  /** Sum of `room - t` over the given readings. */
  function SumOfDeficits(readings: seq<real>, roomTemperature: real): real {
    if readings == [] then 0.0
    else (roomTemperature - readings[0]) + SumOfDeficits(readings[1..], roomTemperature)
  }

  lemma {:induction false} HeatingReadingsAppend(xs: seq<real>, ys: seq<real>, heatingLimit: real)
    ensures HeatingReadings(xs + ys, heatingLimit)
      == HeatingReadings(xs, heatingLimit) + HeatingReadings(ys, heatingLimit)
  {
    if xs == [] {
      assert xs + ys == ys;
    } else {
      assert (xs + ys)[0] == xs[0];
      assert (xs + ys)[1..] == xs[1..] + ys;
      HeatingReadingsAppend(xs[1..], ys, heatingLimit);
    }
  }

  lemma {:induction false} SumOfDeficitsAppend(xs: seq<real>, ys: seq<real>, roomTemperature: real)
    ensures SumOfDeficits(xs + ys, roomTemperature)
      == SumOfDeficits(xs, roomTemperature) + SumOfDeficits(ys, roomTemperature)
  {
    if xs == [] {
      assert xs + ys == ys;
    } else {
      assert (xs + ys)[0] == xs[0];
      assert (xs + ys)[1..] == xs[1..] + ys;
      SumOfDeficitsAppend(xs[1..], ys, roomTemperature);
    }
  }

  /**
   * The count is the number of readings strictly below the limit and the
   * total is the sum of `room - t` over exactly those readings.
   */
  lemma {:induction false} AggregationCharacterized(
    temperatures: seq<real>, roomTemperature: real, heatingLimit: real)
    ensures HeatingDays(temperatures, heatingLimit) == |HeatingReadings(temperatures, heatingLimit)|
    ensures Gradtagszahl(temperatures, roomTemperature, heatingLimit)
      == SumOfDeficits(HeatingReadings(temperatures, heatingLimit), roomTemperature)
  {
    if temperatures != [] {
      var n := |temperatures| - 1;
      var prefix, t := temperatures[..n], temperatures[n];
      assert temperatures == prefix + [t];
      AggregationCharacterized(prefix, roomTemperature, heatingLimit);
      HeatingReadingsAppend(prefix, [t], heatingLimit);
      assert [t][1..] == [];
      var last := HeatingReadings([t], heatingLimit);
      SumOfDeficitsAppend(HeatingReadings(prefix, heatingLimit), last, roomTemperature);
    }
  }

  /** The aggregation distributes over concatenation of the readings. */
  lemma {:induction false} AggregationAppend(
    xs: seq<real>, ys: seq<real>, roomTemperature: real, heatingLimit: real)
    ensures Gradtagszahl(xs + ys, roomTemperature, heatingLimit)
      == Gradtagszahl(xs, roomTemperature, heatingLimit) + Gradtagszahl(ys, roomTemperature, heatingLimit)
    ensures HeatingDays(xs + ys, heatingLimit)
      == HeatingDays(xs, heatingLimit) + HeatingDays(ys, heatingLimit)
  {
    if ys == [] {
      assert xs + ys == xs;
    } else {
      var n := |ys| - 1;
      assert (xs + ys)[..|xs + ys| - 1] == xs + ys[..n];
      assert (xs + ys)[|xs + ys| - 1] == ys[n];
      AggregationAppend(xs, ys[..n], roomTemperature, heatingLimit);
    }
  }

  /** Taking reading `j` out of the list and adding it back separately changes nothing. */
  lemma AggregationRemove(ys: seq<real>, j: int, roomTemperature: real, heatingLimit: real)
    requires 0 <= j < |ys|
    ensures Gradtagszahl(ys, roomTemperature, heatingLimit)
      == Gradtagszahl(ys[..j] + ys[j + 1..], roomTemperature, heatingLimit)
         + Gradtagszahl([ys[j]], roomTemperature, heatingLimit)
    ensures HeatingDays(ys, heatingLimit)
      == HeatingDays(ys[..j] + ys[j + 1..], heatingLimit) + HeatingDays([ys[j]], heatingLimit)
  {
    var before, x, after := ys[..j], ys[j], ys[j + 1..];
    assert ys == (before + [x]) + after;
    AggregationAppend(before + [x], after, roomTemperature, heatingLimit);
    AggregationAppend(before, [x], roomTemperature, heatingLimit);
    AggregationAppend(before, after, roomTemperature, heatingLimit);
  }

  lemma RemoveFromBoth(xs: seq<real>, ys: seq<real>, n: int, j: int)
    requires multiset(xs) == multiset(ys)
    requires n == |xs| - 1 && 0 <= n && 0 <= j < |ys| && ys[j] == xs[n]
    ensures multiset(xs[..n]) == multiset(ys[..j] + ys[j + 1..])
  {
    var x := xs[n];
    assert xs == xs[..n] + [x];
    assert ys == ys[..j] + [x] + ys[j + 1..];
    calc {
      multiset(xs[..n]);
      multiset(xs) - multiset{x};
      multiset(ys) - multiset{x};
      (multiset(ys[..j]) + multiset{x} + multiset(ys[j + 1..])) - multiset{x};
      multiset(ys[..j] + ys[j + 1..]);
    }
  }

  /** The result does not depend on the order of the readings. */
  lemma {:induction false} AggregationPermutation(
    xs: seq<real>, ys: seq<real>, roomTemperature: real, heatingLimit: real)
    requires multiset(xs) == multiset(ys)
    ensures Gradtagszahl(xs, roomTemperature, heatingLimit) == Gradtagszahl(ys, roomTemperature, heatingLimit)
    ensures HeatingDays(xs, heatingLimit) == HeatingDays(ys, heatingLimit)
    decreases |xs|
  {
    if xs == [] {
      assert |ys| == |multiset(ys)| == 0;
    } else {
      var n := |xs| - 1;
      var x := xs[n];
      assert x in multiset(ys) by {
        assert xs == xs[..n] + [x];
      }
      var j :| 0 <= j < |ys| && ys[j] == x;
      var rest := ys[..j] + ys[j + 1..];
      RemoveFromBoth(xs, ys, n, j);
      AggregationPermutation(xs[..n], rest, roomTemperature, heatingLimit);
      AggregationRemove(xs, n, roomTemperature, heatingLimit);
      assert xs[..n] + xs[n + 1..] == xs[..n];
      AggregationRemove(ys, j, roomTemperature, heatingLimit);
    }
  }

  /**
   * With the validated `room > limit`, every heating day adds more than
   * `room - limit`: the total is never negative, and it is zero exactly when
   * there is no heating day.
   */
  lemma {:induction false} GradtagszahlBounds(
    temperatures: seq<real>, roomTemperature: real, heatingLimit: real)
    requires roomTemperature > heatingLimit
    ensures var total, days := Gradtagszahl(temperatures, roomTemperature, heatingLimit),
                               HeatingDays(temperatures, heatingLimit);
      && total >= (roomTemperature - heatingLimit) * (days as real)
      && (days > 0 ==> total > (roomTemperature - heatingLimit) * (days as real))
      && total >= 0.0
      && (total == 0.0 <==> days == 0)
  {
    if temperatures != [] {
      var n := |temperatures| - 1;
      var prefix, t := temperatures[..n], temperatures[n];
      GradtagszahlBounds(prefix, roomTemperature, heatingLimit);
      var total, days := Gradtagszahl(prefix, roomTemperature, heatingLimit), HeatingDays(prefix, heatingLimit);
      var gap := roomTemperature - heatingLimit;
      assert gap * (days as real) >= 0.0;
      if IsHeatingDay(t, heatingLimit) {
        assert Gradtagszahl(temperatures, roomTemperature, heatingLimit) == total + (roomTemperature - t);
        assert HeatingDays(temperatures, heatingLimit) == days + 1;
        assert roomTemperature - t > gap;
        assert gap * ((days + 1) as real) == gap * (days as real) + gap;
      } else {
        assert Gradtagszahl(temperatures, roomTemperature, heatingLimit) == total;
        assert HeatingDays(temperatures, heatingLimit) == days;
      }
    }
  }

  /** Worked example: the day exactly at the limit and the warmer day are not heating days. */
  lemma ExampleSeries()
    ensures Gradtagszahl([10.0, 16.0, 15.0, 12.0], 20.0, 15.0) == 18.0
    ensures HeatingDays([10.0, 16.0, 15.0, 12.0], 15.0) == 2
  {
    var ts := [10.0, 16.0, 15.0, 12.0];
    assert ts[..3] == [10.0, 16.0, 15.0];
    assert ts[..3][..2] == [10.0, 16.0];
    assert ts[..3][..2][..1] == [10.0];
    assert ts[..3][..2][..1][..0] == [];
    assert Gradtagszahl([10.0], 20.0, 15.0) == 10.0;
    assert Gradtagszahl([10.0, 16.0], 20.0, 15.0) == 10.0;
    assert Gradtagszahl([10.0, 16.0, 15.0], 20.0, 15.0) == 10.0;
    assert HeatingDays([10.0, 16.0, 15.0], 15.0) == 1;
  }
}
