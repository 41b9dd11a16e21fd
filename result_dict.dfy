/**
 * The `results` dictionary of `calculate_for_cities`
 * (Library/gradtagszahlenCalculator.py:76, 100): city name to
 * `CalculationResult`. A Python dictionary remembers the order in which keys
 * were first inserted, and assigning to an existing key replaces the value in
 * place; the summary's tie-breaking depends on that order, so it is kept.
 */
module ResultDict {
  import opened Domain

  datatype ResultDict = ResultDict(order: seq<string>, entries: map<string, CalculationResult>) {

    /** Keys are distinct, listed in insertion order, and are exactly the mapped names. */
    ghost predicate Valid() {
      && (forall i, j :: 0 <= i < j < |order| ==> order[i] != order[j])
      && (forall k :: k in entries <==> k in order)
    }

    /** `results[name] = result`. */
    function Put(name: string, result: CalculationResult): (d: ResultDict)
      requires Valid()
      ensures d.Valid()
      ensures d.entries == entries[name := result]
      ensures name in entries ==> d.order == order
      ensures name !in entries ==> d.order == order + [name]
    {
      if name in entries then ResultDict(order, entries[name := result])
      else ResultDict(order + [name], entries[name := result])
    }

    /** `results.items()`, in insertion order. */
    function Items(): (items: seq<(string, CalculationResult)>)
      requires Valid()
      ensures |items| == |order|
      ensures forall i :: 0 <= i < |items| ==>
        items[i].0 == order[i] && items[i].0 in entries && items[i].1 == entries[order[i]]
    {
      seq(|order|, i requires 0 <= i < |order| => (order[i], entries[order[i]]))
    }
  }

  /**
   * `results.items()` lists every entry of the dictionary exactly once: each
   * stored name appears at exactly one position, paired with its stored result.
   */
  lemma ItemsListEachEntryOnce(d: ResultDict, name: string)
    requires d.Valid()
    ensures name in d.entries <==> exists i :: 0 <= i < |d.Items()| && d.Items()[i].0 == name
    ensures forall i, j :: 0 <= i < j < |d.Items()| ==> d.Items()[i].0 != d.Items()[j].0
  {
    if name in d.entries {
      var i :| 0 <= i < |d.order| && d.order[i] == name;
      assert d.Items()[i].0 == name;
    }
  }

  const Empty: ResultDict := ResultDict([], map[])

  /** The distinct names of a sequence without repetitions are as many as its length. */
  lemma {:induction false} DistinctNamesCount(names: seq<string>)
    requires forall i, j :: 0 <= i < j < |names| ==> names[i] != names[j]
    ensures |set k | k in names| == |names|
  {
    if names != [] {
      var n := |names| - 1;
      var prefix := names[..n];
      DistinctNamesCount(prefix);
      assert (set k | k in names) == (set k | k in prefix) + {names[n]} by {
        assert names == prefix + [names[n]];
      }
      assert names[n] !in prefix by {
        forall i | 0 <= i < n ensures prefix[i] != names[n] {
          assert prefix[i] == names[i];
        }
      }
    }
  }

  /** A valid dictionary holds exactly as many entries as its key order lists. */
  lemma SizeMatchesOrder(d: ResultDict)
    requires d.Valid()
    ensures |d.entries| == |d.order|
  {
    DistinctNamesCount(d.order);
    assert d.entries.Keys == set k | k in d.order;
  }
}
