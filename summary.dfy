/**
 * `GradtagszahlenCalculator.get_calculation_summary`
 * (Library/gradtagszahlenCalculator.py:238-263): a fixed message when there
 * are no results, otherwise a six-line header followed by one line per city,
 * cities ordered by heating degree days, largest first. Python's `sorted`
 * with `reverse=True` is stable, so cities with equal totals keep the order
 * in which they were inserted into the dictionary.
 */
module Summary {
  import opened Domain
  import opened ResultDict

  /** One `(city name, result)` pair of `results.items()`. */
  type Item = (string, CalculationResult)

  /** The sort key. */
  function Key(item: Item): real {
    item.1.gradtagszahl
  }

  ghost predicate SortedDescending(s: seq<Item>) {
    forall i, j :: 0 <= i < j < |s| ==> Key(s[i]) >= Key(s[j])
  }

  /** The items whose key is `v`, in order. */
  function WithKey(s: seq<Item>, v: real): seq<Item> {
    if s == [] then []
    else if Key(s[0]) == v then [s[0]] + WithKey(s[1..], v)
    else WithKey(s[1..], v)
  }

  /**
   * Inserts `x` into a list sorted largest first, after every item whose key
   * is at least `x`'s, so that `x` follows the items of equal key already there.
   */
  function InsertDescending(x: Item, s: seq<Item>): (r: seq<Item>)
    ensures |r| == |s| + 1
    ensures r[0] == x || (s != [] && r[0] == s[0])
  {
    if s == [] then [x]
    else if Key(s[0]) >= Key(x) then [s[0]] + InsertDescending(x, s[1..])
    else [x] + s
  }

  /** `sorted(items, key=gradtagszahl, reverse=True)`: inserts the items one by one, in order. */
  function SortDescending(items: seq<Item>): (r: seq<Item>)
    ensures |r| == |items|
  {
    if items == [] then []
    else
      var n := |items| - 1;
      InsertDescending(items[n], SortDescending(items[..n]))
  }

  lemma SortedTail(s: seq<Item>)
    requires s != [] && SortedDescending(s)
    ensures SortedDescending(s[1..])
    ensures forall i :: 0 <= i < |s| ==> Key(s[0]) >= Key(s[i])
  {
  }

  lemma SortedCons(a: Item, t: seq<Item>)
    requires SortedDescending(t)
    requires t != [] ==> Key(a) >= Key(t[0])
    ensures SortedDescending([a] + t)
  {
    var s := [a] + t;
    forall i, j | 0 <= i < j < |s| ensures Key(s[i]) >= Key(s[j]) {
      if i == 0 {
        assert s[j] == t[j - 1];
        assert Key(t[0]) >= Key(t[j - 1]);
      } else {
        assert s[i] == t[i - 1] && s[j] == t[j - 1];
      }
    }
  }

  /** Insertion keeps a list sorted largest first and adds exactly the new item. */
  lemma {:induction false} InsertDescendingSorted(x: Item, s: seq<Item>)
    requires SortedDescending(s)
    ensures SortedDescending(InsertDescending(x, s))
    ensures multiset(InsertDescending(x, s)) == multiset(s) + multiset{x}
  {
    if s == [] {
    } else if Key(s[0]) >= Key(x) {
      var rest := InsertDescending(x, s[1..]);
      assert InsertDescending(x, s) == [s[0]] + rest;
      SortedTail(s);
      InsertDescendingSorted(x, s[1..]);
      assert rest[0] == x || rest[0] == s[1];
      SortedCons(s[0], rest);
      assert s == [s[0]] + s[1..];
    } else {
      assert InsertDescending(x, s) == [x] + s;
      SortedCons(x, s);
    }
  }

  /** The sorted items are ordered largest first and are a permutation of the input. */
  lemma {:induction false} SortDescendingSorted(items: seq<Item>)
    ensures SortedDescending(SortDescending(items))
    ensures multiset(SortDescending(items)) == multiset(items)
  {
    if items != [] {
      var n := |items| - 1;
      SortDescendingSorted(items[..n]);
      InsertDescendingSorted(items[n], SortDescending(items[..n]));
      assert items == items[..n] + [items[n]];
    }
  }

  lemma {:induction false} WithKeyAppend(xs: seq<Item>, ys: seq<Item>, v: real)
    ensures WithKey(xs + ys, v) == WithKey(xs, v) + WithKey(ys, v)
  {
    if xs == [] {
      assert xs + ys == ys;
    } else {
      assert (xs + ys)[0] == xs[0];
      assert (xs + ys)[1..] == xs[1..] + ys;
      WithKeyAppend(xs[1..], ys, v);
    }
  }

  lemma {:induction false} NoneWithKey(s: seq<Item>, v: real)
    requires forall i :: 0 <= i < |s| ==> Key(s[i]) < v
    ensures WithKey(s, v) == []
  {
    if s != [] {
      NoneWithKey(s[1..], v);
    }
  }

  lemma {:induction false} InsertWithKey(x: Item, s: seq<Item>, v: real)
    requires SortedDescending(s)
    ensures WithKey(InsertDescending(x, s), v)
      == WithKey(s, v) + (if Key(x) == v then [x] else [])
  {
    var single := if Key(x) == v then [x] else [];
    assert WithKey([x], v) == single by {
      assert [x][1..] == [];
    }
    if s == [] {
    } else if Key(s[0]) >= Key(x) {
      SortedTail(s);
      var rest := InsertDescending(x, s[1..]);
      var r := [s[0]] + rest;
      assert InsertDescending(x, s) == r;
      InsertWithKey(x, s[1..], v);
      assert r[0] == s[0] && r[1..] == rest;
    } else {
      var r := [x] + s;
      assert InsertDescending(x, s) == r;
      assert r[0] == x && r[1..] == s;
      if Key(x) == v {
        SortedTail(s);
        NoneWithKey(s, v);
      }
    }
  }

  /**
   * The sort is stable: for every key, the items with that key appear in the
   * output in the same order as in the input.
   */
  lemma {:induction false} SortDescendingStable(items: seq<Item>, v: real)
    ensures WithKey(SortDescending(items), v) == WithKey(items, v)
  {
    if items != [] {
      var n := |items| - 1;
      var prefix, x := items[..n], items[n];
      var sortedPrefix := SortDescending(prefix);
      assert SortDescending(items) == InsertDescending(x, sortedPrefix);
      SortDescendingStable(prefix, v);
      SortDescendingSorted(prefix);
      InsertWithKey(x, sortedPrefix, v);
      assert items == prefix + [x];
      WithKeyAppend(prefix, [x], v);
      assert [x][1..] == [];
      assert WithKey([x], v) == (if Key(x) == v then [x] else []);
    }
  }

  // ---------------------------------------------------------------------
  // The summary text, line by line. Number formatting (`:8.1f`, the padding
  // of city names) is not modelled: value lines carry the value itself.

  datatype Line =
    | Text(text: string)
    | RoomTemperatureLine(celsius: real)
    | HeatingLimitLine(celsius: real)
    | CityLine(name: string, gradtagszahl: real, heatingDays: nat)

  const NoResultsMessage: string := "No calculation results available."
  const Title: string := "=== GRADTAGSZAHLEN BERECHNUNG ==="
  const ResultsHeading: string := "Ergebnisse:"
  const HeaderLength: nat := 6

  /** The header, describing the period and temperatures of the first inserted result. */
  function Header(first: CalculationResult): (lines: seq<Line>)
    ensures |lines| == HeaderLength
  {
    [ Text(Title),
      Text("Zeitraum: " + first.periodStart + " bis " + first.periodEnd),
      RoomTemperatureLine(first.roomTemperature),
      HeatingLimitLine(first.heatingLimit),
      Text(""),
      Text(ResultsHeading) ]
  }

  function Row(item: Item): Line {
    CityLine(item.0, item.1.gradtagszahl, item.1.heatingDaysCount)
  }

  /** `get_calculation_summary`, returning the lines that the source joins with newlines. */
  method CalculationSummary(results: ResultDict) returns (lines: seq<Line>)
    requires results.Valid()
    ensures results.order == [] ==> lines == [Text(NoResultsMessage)]
    ensures results.order != [] ==>
      && |lines| == HeaderLength + |results.order|
      && lines[..HeaderLength] == Header(results.entries[results.order[0]])
      && RowsOf(lines[HeaderLength..], SortDescending(results.Items()))
    ensures results.order != [] ==> RowsDescending(lines[HeaderLength..])
  {
    if results.order == [] {
      return [Text(NoResultsMessage)];
    }
    var header := Header(results.entries[results.order[0]]);
    var sorted := SortDescending(results.Items());
    var rows: seq<Line> := [];
    for k := 0 to |sorted|
      invariant |rows| == k
      invariant forall j :: 0 <= j < k ==> rows[j] == Row(sorted[j])
    {
      rows := rows + [Row(sorted[k])];
    }
    lines := header + rows;
    assert lines[..HeaderLength] == header;
    assert lines[HeaderLength..] == rows;
    assert RowsOf(rows, sorted);
    assert RowsDescending(rows) by {
      SortDescendingSorted(results.Items());
      SortedRowsDescend(rows, sorted);
    }
  }

  lemma SortedRowsDescend(rows: seq<Line>, items: seq<Item>)
    requires RowsOf(rows, items) && SortedDescending(items)
    ensures RowsDescending(rows)
  {
    forall i, j | 0 <= i < j < |rows|
      ensures rows[i].CityLine? && rows[j].CityLine? && rows[i].gradtagszahl >= rows[j].gradtagszahl
    {
      assert Key(items[i]) >= Key(items[j]);
    }
  }

  /** The rows are the city lines of the given items, one each, in the same order. */
  ghost predicate RowsOf(rows: seq<Line>, items: seq<Item>) {
    |rows| == |items| && forall k :: 0 <= k < |items| ==> rows[k] == Row(items[k])
  }

  /** City lines only, largest heating degree days first. */
  ghost predicate RowsDescending(rows: seq<Line>) {
    forall i, j :: 0 <= i < j < |rows| ==>
      rows[i].CityLine? && rows[j].CityLine? && rows[i].gradtagszahl >= rows[j].gradtagszahl
  }

  lemma ExampleFirstTwo(a: CalculationResult, b: CalculationResult)
    requires a.gradtagszahl == 5.0 && b.gradtagszahl == 12.0
    ensures SortDescending([("A", a), ("B", b)]) == [("B", b), ("A", a)]
  {
    assert [("A", a), ("B", b)][..1] == [("A", a)];
    assert [("A", a)][..0] == [];
  }

  lemma ExampleInsertThird(a: CalculationResult, b: CalculationResult, c: CalculationResult)
    requires a.gradtagszahl == 5.0 && b.gradtagszahl == 12.0 && c.gradtagszahl == 12.0
    ensures InsertDescending(("C", c), [("B", b), ("A", a)]) == [("B", b), ("C", c), ("A", a)]
  {
    assert [("B", b), ("A", a)][1..] == [("A", a)];
  }

  /** The three-city example: equal totals keep their insertion order. */
  lemma ExampleOrdering(a: CalculationResult, b: CalculationResult, c: CalculationResult)
    requires a.gradtagszahl == 5.0 && b.gradtagszahl == 12.0 && c.gradtagszahl == 12.0
    ensures SortDescending([("A", a), ("B", b), ("C", c)]) == [("B", b), ("C", c), ("A", a)]
  {
    ExampleFirstTwo(a, b);
    ExampleInsertThird(a, b, c);
    assert [("A", a), ("B", b), ("C", c)][..2] == [("A", a), ("B", b)];
  }
}
