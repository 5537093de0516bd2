/** The year-to-count dictionary of the aggregation loop and the pick of the
    most popular year. A Python dict keeps its keys in insertion order, so
    the dictionary is described by the distinct years in first-seen order
    and the number of times each occurs. */
module YearTally {
  import opened Wrappers
  import opened Leaders

  ghost predicate Distinct(s: seq<int>) {
    forall i, j :: 0 <= i < j < |s| ==> s[i] != s[j]
  }

  /** How many times `y` occurs in `ys`. */
  function Occurrences(ys: seq<int>, y: int): nat {
    if |ys| == 0 then 0
    else Occurrences(ys[..|ys| - 1], y) + (if ys[|ys| - 1] == y then 1 else 0)
  }

  /** The distinct values of `ys` in the order they are first seen: the keys
      of a dict that gets `d[y] = 1` the first time `y` comes along. */
  function FirstSeen(ys: seq<int>): seq<int> {
    if |ys| == 0 then []
    else
      var keys := FirstSeen(ys[..|ys| - 1]);
      if ys[|ys| - 1] in keys then keys else keys + [ys[|ys| - 1]]
  }

  /** Each of `keys` paired with its number of occurrences in `ys`. */
  function KeyedTally(keys: seq<int>, ys: seq<int>): seq<(int, nat)> {
    seq(|keys|, q requires 0 <= q < |keys| => (keys[q], Occurrences(ys, keys[q])))
  }

  /** `count_by_year.items()` once every year of `ys` has been counted. */
  function Tally(ys: seq<int>): seq<(int, nat)> {
    KeyedTally(FirstSeen(ys), ys)
  }

  /** `d.items()` of a dict given by its key order and its contents. */
  function Items(order: seq<int>, counts: map<int, nat>): seq<(int, nat)>
    requires forall q :: 0 <= q < |order| ==> order[q] in counts
  {
    seq(|order|, q requires 0 <= q < |order| => (order[q], counts[order[q]]))
  }

  /** Sum of the counts. */
  function Total(items: seq<(int, nat)>): nat {
    if |items| == 0 then 0 else Total(items[..|items| - 1]) + items[|items| - 1].1
  }

  function CountColumn(items: seq<(int, nat)>): seq<int> {
    seq(|items|, q requires 0 <= q < |items| => items[q].1 as int)
  }

  /** `sorted(items, key=count, reverse=True)[0]`: Python's sort is stable
      also in reverse, so this is the first item with the largest count;
      `None` where indexing the empty list raises. */
  function MostCommon(items: seq<(int, nat)>): (r: Option<(int, nat)>)
    ensures r.None? <==> |items| == 0
    ensures r.Some? ==> r.value in items
    ensures r.Some? ==> forall q :: 0 <= q < |items| ==> items[q].1 <= r.value.1
  {
    if |items| == 0 then None
    else
      var column := CountColumn(items);
      var k := FirstMax(column);
      FirstMaxIsFirst(column);
      assert forall q :: 0 <= q < |items| ==> column[q] == items[q].1;
      Some(items[k])
  }

  /** The dict itself: every year seen mapped to its count. */
  function CountMap(ys: seq<int>): map<int, nat> {
    map y | y in FirstSeen(ys) :: Occurrences(ys, y)
  }

  /** `d[y] += 1` for a year `y` that is a key already: the keys stay as
      they are and only the count of `y` goes up. */
  lemma {:induction false} CountAgain(ys: seq<int>, y: int)
    requires y in CountMap(ys)
    ensures FirstSeen(ys + [y]) == FirstSeen(ys)
    ensures CountMap(ys + [y]) == CountMap(ys)[y := CountMap(ys)[y] + 1]
  {
    var ys' := ys + [y];
    assert ys'[..|ys|] == ys;
    var m, m' := CountMap(ys), CountMap(ys');
    var n := m[y := m[y] + 1];
    assert m'.Keys == n.Keys;
    forall z | z in m' ensures m'[z] == n[z] {
      assert Occurrences(ys', z) == Occurrences(ys, z) + (if z == y then 1 else 0);
    }
    assert m' == n;
  }

  /** `d[y] = 1` for a year `y` not seen yet: `y` becomes the last key. */
  lemma {:induction false} CountNew(ys: seq<int>, y: int)
    requires y !in CountMap(ys)
    ensures FirstSeen(ys + [y]) == FirstSeen(ys) + [y]
    ensures CountMap(ys + [y]) == CountMap(ys)[y := 1]
  {
    var ys' := ys + [y];
    assert ys'[..|ys|] == ys;
    var m, m' := CountMap(ys), CountMap(ys');
    var n := m[y := 1];
    assert Occurrences(ys, y) == 0 by {
      FirstSeenKeys(ys);
      OccurrencesPositive(ys, y);
    }
    assert m'.Keys == n.Keys;
    forall z | z in m' ensures m'[z] == n[z] {
      assert Occurrences(ys', z) == Occurrences(ys, z) + (if z == y then 1 else 0);
    }
    assert m' == n;
  }

  /** The dict read out with `items()` is the tally. */
  lemma {:induction false} ItemsAreTally(ys: seq<int>)
    ensures forall q :: 0 <= q < |FirstSeen(ys)| ==> FirstSeen(ys)[q] in CountMap(ys)
    ensures Items(FirstSeen(ys), CountMap(ys)) == Tally(ys)
  {
    var keys := FirstSeen(ys);
    assert forall q :: 0 <= q < |keys| ==> keys[q] in keys;
    var a, b := Items(keys, CountMap(ys)), Tally(ys);
    assert |a| == |b|;
    forall q | 0 <= q < |keys| ensures a[q] == b[q] {
    }
  }

  lemma {:induction false} OccurrencesPositive(ys: seq<int>, y: int)
    ensures Occurrences(ys, y) > 0 <==> y in ys
  {
    if |ys| > 0 {
      var init := ys[..|ys| - 1];
      OccurrencesPositive(init, y);
      assert ys == init + [ys[|ys| - 1]];
    }
  }

  /** The keys are exactly the years seen, each once. */
  lemma {:induction false} FirstSeenKeys(ys: seq<int>)
    ensures forall y :: y in FirstSeen(ys) <==> y in ys
    ensures Distinct(FirstSeen(ys))
  {
    if |ys| > 0 {
      var init := ys[..|ys| - 1];
      FirstSeenKeys(init);
      assert ys == init + [ys[|ys| - 1]];
    }
  }

  /** Keys come in the order of first occurrence: if key `p` was inserted
      before key `q`, then `p` already occurred before any position holding `q`. */
  lemma {:induction false} FirstSeenOrder(ys: seq<int>, p: nat, q: nat, i: nat)
    requires p < q < |FirstSeen(ys)|
    requires i < |ys| && ys[i] == FirstSeen(ys)[q]
    ensures FirstSeen(ys)[p] in ys[..i]
  {
    var init := ys[..|ys| - 1];
    var keys := FirstSeen(ys);
    var keys' := FirstSeen(init);
    FirstSeenKeys(init);
    FirstSeenKeys(ys);
    assert keys[..|keys'|] == keys';
    if i < |init| {
      assert ys[i] in init;
      var q' :| 0 <= q' < |keys'| && keys'[q'] == ys[i];
      assert keys[q'] == keys[q];
      FirstSeenOrder(init, p, q, i);
      assert init[..i] == ys[..i];
    } else {
      assert p < |keys'|;
      assert keys[p] == keys'[p];
      assert init == ys[..i];
    }
  }

  lemma {:induction false} KeyedTallyEmpty(keys: seq<int>)
    ensures Total(KeyedTally(keys, [])) == 0
  {
    if |keys| > 0 {
      KeyedTallyEmpty(keys[..|keys| - 1]);
      assert KeyedTally(keys, [])[..|keys| - 1] == KeyedTally(keys[..|keys| - 1], []);
    }
  }

  /** Counting one more value adds one to the total when the value is a key. */
  lemma {:induction false} KeyedTallyStep(keys: seq<int>, ys: seq<int>, y: int)
    requires Distinct(keys)
    ensures Total(KeyedTally(keys, ys + [y])) == Total(KeyedTally(keys, ys)) + (if y in keys then 1 else 0)
  {
    assert (ys + [y])[..|ys|] == ys;
    if |keys| > 0 {
      var init := keys[..|keys| - 1];
      KeyedTallyStep(init, ys, y);
      assert KeyedTally(keys, ys + [y])[..|init|] == KeyedTally(init, ys + [y]);
      assert KeyedTally(keys, ys)[..|init|] == KeyedTally(init, ys);
      assert keys == init + [keys[|keys| - 1]];
    }
  }

  lemma {:induction false} KeyedTallyTotal(keys: seq<int>, ys: seq<int>)
    requires Distinct(keys)
    requires forall y :: y in ys ==> y in keys
    ensures Total(KeyedTally(keys, ys)) == |ys|
  {
    if |ys| == 0 {
      KeyedTallyEmpty(keys);
    } else {
      var init := ys[..|ys| - 1];
      assert ys == init + [ys[|ys| - 1]];
      KeyedTallyTotal(keys, init);
      KeyedTallyStep(keys, init, ys[|ys| - 1]);
    }
  }

  /** The counts add up to the number of records. */
  lemma {:induction false} TallyTotal(ys: seq<int>)
    ensures Total(Tally(ys)) == |ys|
  {
    FirstSeenKeys(ys);
    KeyedTallyTotal(FirstSeen(ys), ys);
  }

  /** Every entry of the dictionary is a year seen, with its true count. */
  lemma {:induction false} TallyEntries(ys: seq<int>)
    ensures forall e :: e in Tally(ys) ==> e.0 in ys && e.1 == Occurrences(ys, e.0) && e.1 > 0
    ensures forall y :: y in ys ==> (y, Occurrences(ys, y)) in Tally(ys)
  {
    FirstSeenKeys(ys);
    forall y | y in ys ensures (y, Occurrences(ys, y)) in Tally(ys) {
      var q :| 0 <= q < |FirstSeen(ys)| && FirstSeen(ys)[q] == y;
      assert Tally(ys)[q] == (y, Occurrences(ys, y));
    }
    forall e | e in Tally(ys) ensures e.0 in ys && e.1 == Occurrences(ys, e.0) && e.1 > 0 {
      OccurrencesPositive(ys, e.0);
    }
  }

  /** Where a year seen sits among the keys. */
  lemma {:induction false} KeyIndex(ys: seq<int>, y: int) returns (q: nat)
    requires y in ys
    ensures q < |FirstSeen(ys)| && FirstSeen(ys)[q] == y
  {
    FirstSeenKeys(ys);
    q :| 0 <= q < |FirstSeen(ys)| && FirstSeen(ys)[q] == y;
  }

  /** The year at position `i` counts no more than the chosen one. */
  lemma {:induction false} MostCommonBeats(ys: seq<int>, i: nat)
    requires i < |ys|
    ensures MostCommon(Tally(ys)).Some?
    ensures Occurrences(ys, ys[i]) <= MostCommon(Tally(ys)).value.1
  {
    var t := Tally(ys);
    var q := KeyIndex(ys, ys[i]);
    assert t[q] == (ys[i], Occurrences(ys, ys[i]));
  }

  /** A different year at position `i` with the same count comes after the
      first occurrence of the chosen one. */
  lemma {:induction false} MostCommonFirst(ys: seq<int>, i: nat)
    requires i < |ys|
    requires MostCommon(Tally(ys)).Some?
    ensures ys[i] != MostCommon(Tally(ys)).value.0 && Occurrences(ys, ys[i]) == MostCommon(Tally(ys)).value.1
      ==> MostCommon(Tally(ys)).value.0 in ys[..i]
  {
    var t := Tally(ys);
    var top := MostCommon(t).value;
    if ys[i] != top.0 && Occurrences(ys, ys[i]) == top.1 {
      var q := KeyIndex(ys, ys[i]);
      var p := EarlierKey(ys, q, top);
      FirstSeenOrder(ys, p, q, i);
    }
  }

  lemma {:induction false} EarlierKey(ys: seq<int>, q: nat, top: (int, nat)) returns (p: nat)
    requires q < |FirstSeen(ys)|
    requires MostCommon(Tally(ys)) == Some(top)
    requires FirstSeen(ys)[q] != top.0 && Occurrences(ys, FirstSeen(ys)[q]) == top.1
    ensures p < q && FirstSeen(ys)[p] == top.0
  {
    var t := Tally(ys);
    assert t[q] == (FirstSeen(ys)[q], top.1);
    p := EarlierItem(t, q, top);
    assert t[p].0 == FirstSeen(ys)[p];
  }

  /** Ties go to the earliest item: whatever else has the top count comes
      no earlier than the item chosen. */
  lemma {:induction false} EarlierItem(items: seq<(int, nat)>, q: nat, top: (int, nat)) returns (p: nat)
    requires q < |items| && MostCommon(items) == Some(top)
    requires items[q].1 == top.1
    ensures p <= q && items[p] == top
  {
    var column := CountColumn(items);
    p := FirstMax(column);
    FirstMaxIsFirst(column);
    assert column[q] == column[p];
  }

  /** The most popular year: its count is the largest of all years, it is
      the count of that year, and among years with the same count the one
      seen first wins. Nothing is picked for no records. */
  lemma {:induction false} MostCommonIsMode(ys: seq<int>)
    ensures MostCommon(Tally(ys)).None? <==> |ys| == 0
    ensures MostCommon(Tally(ys)).Some? ==>
      var (top, c) := MostCommon(Tally(ys)).value;
      && top in ys
      && c == Occurrences(ys, top)
      && (forall i :: 0 <= i < |ys| ==> Occurrences(ys, ys[i]) <= c)
      && (forall i :: 0 <= i < |ys| && ys[i] != top && Occurrences(ys, ys[i]) == c ==> top in ys[..i])
  {
    var t := Tally(ys);
    if |ys| > 0 {
      MostCommonBeats(ys, 0);
      var (top, c) := MostCommon(t).value;
      var k :| 0 <= k < |t| && t[k] == (top, c);
      FirstSeenKeys(ys);
      assert FirstSeen(ys)[k] in FirstSeen(ys);
      forall i | 0 <= i < |ys|
        ensures Occurrences(ys, ys[i]) <= c
        ensures ys[i] != top && Occurrences(ys, ys[i]) == c ==> top in ys[..i]
      {
        MostCommonBeats(ys, i);
        MostCommonFirst(ys, i);
      }
    }
  }
}
