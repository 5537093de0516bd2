/** `process_data` of `cars.py`: one pass over the records that writes each
    record's revenue into it when it sets a new high, keeps the revenue
    leader and the units-sold leader, and counts the records per model year;
    then the most popular year and the three summary values. */
module Aggregation {
  import opened Wrappers
  import opened Leaders
  import opened YearTally
  import opened Cars

  // ---------------------------------------------------------------------
  // prices

  /** `locale.atof(price.strip("$"))`: reads the price text as a number
      under the process-wide locale. Here it is a parameter giving the
      amount in cents, `None` where the source raises ValueError. */
  type PriceParser = string -> Option<int>

  function PriceOf(r: Record, parse: PriceParser): Option<int> {
    parse(r.price)
  }

  /** Every price parses: the pass reads all the records. */
  predicate AllPriced(recs: seq<Record>, parse: PriceParser) {
    PricedBefore(recs, parse, |recs|)
  }

  /** The first `n` records all have a price: what the loop has established
      once it has read them. */
  predicate PricedBefore(recs: seq<Record>, parse: PriceParser, n: nat) {
    n <= |recs| && forall i :: 0 <= i < n ==> PriceOf(recs[i], parse).Some?
  }

  /** Index of the first record from `k` on whose price does not parse. */
  function UnpricedFrom(recs: seq<Record>, parse: PriceParser, k: nat): (r: Option<nat>)
    requires k <= |recs|
    ensures r.Some? ==> k <= r.value < |recs|
    decreases |recs| - k
  {
    if k == |recs| then None
    else if PriceOf(recs[k], parse).None? then Some(k)
    else UnpricedFrom(recs, parse, k + 1)
  }

  /** Index of the first record whose price does not parse: the record at
      which the pass stops with ValueError (see `FirstUnpricedSpec`). */
  function FirstUnpriced(recs: seq<Record>, parse: PriceParser): (r: Option<nat>)
    ensures r.Some? ==> r.value < |recs|
  {
    UnpricedFrom(recs, parse, 0)
  }

  lemma {:induction false} UnpricedFromSpec(recs: seq<Record>, parse: PriceParser, k: nat)
    requires PricedBefore(recs, parse, k)
    ensures UnpricedFrom(recs, parse, k).None? <==> AllPriced(recs, parse)
    ensures UnpricedFrom(recs, parse, k).Some? ==>
      var j := UnpricedFrom(recs, parse, k).value;
      PriceOf(recs[j], parse).None? && PricedBefore(recs, parse, j)
    decreases |recs| - k
  {
    if k < |recs| && PriceOf(recs[k], parse).Some? {
      UnpricedFromSpec(recs, parse, k + 1);
    }
  }

  /** There is no such record exactly when every price parses; otherwise
      the one found does not parse and every one before it does. */
  lemma {:induction false} FirstUnpricedSpec(recs: seq<Record>, parse: PriceParser)
    ensures FirstUnpriced(recs, parse).None? <==> AllPriced(recs, parse)
    ensures FirstUnpriced(recs, parse).Some? ==>
      var j := FirstUnpriced(recs, parse).value;
      PriceOf(recs[j], parse).None? && PricedBefore(recs, parse, j)
  {
    UnpricedFromSpec(recs, parse, 0);
  }

  // ---------------------------------------------------------------------
  // the columns the pass reads

  /** `total_sales * price` of record `k`. */
  function RevenueAt(recs: seq<Record>, parse: PriceParser, k: nat): int
    requires k < |recs| && PriceOf(recs[k], parse).Some?
  {
    recs[k].totalSales * PriceOf(recs[k], parse).value
  }

  /** The revenues of the first `n` records. */
  function Revenues(recs: seq<Record>, parse: PriceParser, n: nat): (r: seq<int>)
    requires PricedBefore(recs, parse, n)
    ensures |r| == n
  {
    if n == 0 then [] else Revenues(recs, parse, n - 1) + [RevenueAt(recs, parse, n - 1)]
  }

  /** The units sold of the first `n` records. */
  function Sales(recs: seq<Record>, n: nat): (r: seq<int>)
    requires n <= |recs|
    ensures |r| == n
  {
    if n == 0 then [] else Sales(recs, n - 1) + [recs[n - 1].totalSales]
  }

  /** The model years of the first `n` records. */
  function Years(recs: seq<Record>, n: nat): (r: seq<int>)
    requires n <= |recs|
    ensures |r| == n
  {
    if n == 0 then [] else Years(recs, n - 1) + [recs[n - 1].car.year]
  }

  /** Entry `i` of each column is the value of record `i`. */
  lemma {:induction false} ColumnsAt(recs: seq<Record>, parse: PriceParser, n: nat, i: nat)
    requires n <= |recs| && i < n
    ensures Sales(recs, n)[i] == recs[i].totalSales
    ensures Years(recs, n)[i] == recs[i].car.year
    ensures PricedBefore(recs, parse, n) ==> Revenues(recs, parse, n)[i] == RevenueAt(recs, parse, i)
  {
    if i < n - 1 {
      ColumnsAt(recs, parse, n - 1, i);
    }
  }

  // ---------------------------------------------------------------------
  // what the pass does to a record

  /** `item["revenue"] = item_revenue` when `high` holds. */
  function Mark(r: Record, revenue: int, high: bool): Record {
    if high then r.(revenue := Some(revenue)) else r
  }

  // ---------------------------------------------------------------------
  // the outcome

  /** The values the three summary lines report. */
  datatype Summary = Summary(
    revenueLeader: nat,   // index of the record with the most revenue
    revenue: int,         // its revenue, in cents
    salesLeader: nat,     // index of the record with the most units sold
    totalSales: int,      // its units sold
    topYear: int,         // the most popular model year
    topYearCount: nat)    // the number of records of that year

  datatype AggregationError =
    | FormatError(index: nat)  // ValueError: the price of record `index` does not parse
    | EmptyInput               // IndexError: no records, so no year to pick
    | NoRevenueLeader          // KeyError: no revenue above 0, the sentinel has no car
    | NoSalesLeader            // KeyError: no units sold above 0, the sentinel has no car

  /** What `process_data` reports for `recs`, with its failures in the
      order they arise: a bad price inside the loop, then picking the top
      year, then the revenue line, then the sales line. */
  function Aggregate(recs: seq<Record>, parse: PriceParser): Result<Summary, AggregationError> {
    match FirstUnpriced(recs, parse)
    case Some(k) => Failure(FormatError(k))
    case None =>
      FirstUnpricedSpec(recs, parse);
      var n := |recs|;
      var revs := Revenues(recs, parse, n);
      match MostCommon(Tally(Years(recs, n)))
      case None => Failure(EmptyInput)
      case Some(top) =>
        match Leader(revs)
        case None => Failure(NoRevenueLeader)
        case Some(r) =>
          match Leader(Sales(recs, n))
          case None => Failure(NoSalesLeader)
          case Some(s) => Success(Summary(r, revs[r], s, recs[s].totalSales, top.0, top.1))
  }

  // ---------------------------------------------------------------------
  // what Aggregate promises, stated record by record

  /** The pass fails on a price exactly when some price does not parse,
      and then names the first such record. */
  lemma {:induction false} AggregateFormatError(recs: seq<Record>, parse: PriceParser)
    ensures Aggregate(recs, parse).Failure? && Aggregate(recs, parse).error.FormatError?
      <==> !AllPriced(recs, parse)
    ensures Aggregate(recs, parse).Failure? && Aggregate(recs, parse).error.FormatError? ==>
      var k := Aggregate(recs, parse).error.index;
      k < |recs| && PriceOf(recs[k], parse).None? && PricedBefore(recs, parse, k)
  {
    FirstUnpricedSpec(recs, parse);
  }

  /** With every price readable, no records means no year to pick. */
  lemma {:induction false} AggregateEmpty(recs: seq<Record>, parse: PriceParser)
    requires AllPriced(recs, parse)
    ensures Aggregate(recs, parse) == Failure(EmptyInput) <==> |recs| == 0
  {
    FirstUnpricedSpec(recs, parse);
    MostCommonIsMode(Years(recs, |recs|));
  }

  /** With every price readable and at least one record, the revenue line
      fails exactly when no record has a revenue above 0. */
  lemma {:induction false} AggregateNoRevenue(recs: seq<Record>, parse: PriceParser)
    requires AllPriced(recs, parse) && |recs| > 0
    ensures Aggregate(recs, parse) == Failure(NoRevenueLeader) <==>
      forall i :: 0 <= i < |recs| ==> RevenueAt(recs, parse, i) <= 0
  {
    FirstUnpricedSpec(recs, parse);
    var n := |recs|;
    MostCommonIsMode(Years(recs, n));
    LeaderSpec(Revenues(recs, parse, n));
    forall i | 0 <= i < n ensures Revenues(recs, parse, n)[i] == RevenueAt(recs, parse, i) {
      ColumnsAt(recs, parse, n, i);
    }
  }

  /** When some record has a revenue above 0, the sales line fails exactly
      when no record has sold more than 0 units (possible only with
      negative prices). */
  lemma {:induction false} AggregateNoSales(recs: seq<Record>, parse: PriceParser, j: nat)
    requires AllPriced(recs, parse) && j < |recs| && RevenueAt(recs, parse, j) > 0
    ensures Aggregate(recs, parse) == Failure(NoSalesLeader) <==>
      forall i :: 0 <= i < |recs| ==> recs[i].totalSales <= 0
  {
    FirstUnpricedSpec(recs, parse);
    var n := |recs|;
    MostCommonIsMode(Years(recs, n));
    LeaderSpec(Revenues(recs, parse, n));
    LeaderSpec(Sales(recs, n));
    ColumnsAt(recs, parse, n, j);
    forall i | 0 <= i < n ensures Sales(recs, n)[i] == recs[i].totalSales {
      ColumnsAt(recs, parse, n, i);
    }
  }

  /** A summary names the first record with the highest revenue and the
      first with the most units sold, both above 0, and the year with the
      most records, the earliest-seen one among equals. */
  lemma {:induction false} AggregateSuccess(recs: seq<Record>, parse: PriceParser)
    requires Aggregate(recs, parse).Success?
    ensures AllPriced(recs, parse)
    ensures
      var sum, revs, sales, years := Aggregate(recs, parse).value,
        Revenues(recs, parse, |recs|), Sales(recs, |recs|), Years(recs, |recs|);
      && IsFirstMax(revs, sum.revenueLeader) && sum.revenue == revs[sum.revenueLeader] > 0
      && IsFirstMax(sales, sum.salesLeader) && sum.totalSales == sales[sum.salesLeader] > 0
      && sum.topYear in years && sum.topYearCount == Occurrences(years, sum.topYear)
      && (forall i :: 0 <= i < |years| ==> Occurrences(years, years[i]) <= sum.topYearCount)
      && (forall i :: 0 <= i < |years| ==>
            (years[i] != sum.topYear && Occurrences(years, years[i]) == sum.topYearCount ==> sum.topYear in years[..i]))
  {
    FirstUnpricedSpec(recs, parse);
    var n := |recs|;
    MostCommonIsMode(Years(recs, n));
    LeaderSpec(Revenues(recs, parse, n));
    LeaderSpec(Sales(recs, n));
    ColumnsAt(recs, parse, n, Aggregate(recs, parse).value.salesLeader);
  }

  // ---------------------------------------------------------------------
  // the loop's variables, as folds over the records read so far

  /** `max_revenue` after the first `n` records: its revenue (0 for the
      sentinel) and the index of the record it is, if any. */
  function RevenueLead(recs: seq<Record>, parse: PriceParser, n: nat): (int, Option<nat>)
    requires PricedBefore(recs, parse, n)
  {
    if n == 0 then (0, None)
    else
      var (best, leader) := RevenueLead(recs, parse, n - 1);
      var revenue := RevenueAt(recs, parse, n - 1);
      if revenue > best then (revenue, Some(n - 1)) else (best, leader)
  }

  /** `max_sales` after the first `n` records, likewise. */
  function SalesLead(recs: seq<Record>, n: nat): (int, Option<nat>)
    requires n <= |recs|
  {
    if n == 0 then (0, None)
    else
      var (best, leader) := SalesLead(recs, n - 1);
      var sold := recs[n - 1].totalSales;
      if sold > best then (sold, Some(n - 1)) else (best, leader)
  }

  /** `count_by_year` after the first `n` records: its contents and the
      order of its keys. */
  function YearDict(recs: seq<Record>, n: nat): (map<int, nat>, seq<int>)
    requires n <= |recs|
  {
    if n == 0 then (map[], [])
    else
      var (counts, order) := YearDict(recs, n - 1);
      var year := recs[n - 1].car.year;
      if year in counts then (counts[year := counts[year] + 1], order)
      else (counts[year := 1], order + [year])
  }

  /** The revenue sentinel is the best revenue so far and its record the
      first one to reach it. */
  lemma {:induction false} RevenueLeadSpec(recs: seq<Record>, parse: PriceParser, n: nat)
    requires PricedBefore(recs, parse, n)
    ensures RevenueLead(recs, parse, n) == (Best(Revenues(recs, parse, n)), Leader(Revenues(recs, parse, n)))
  {
    if n > 0 {
      RevenueLeadSpec(recs, parse, n - 1);
      LeaderStep(Revenues(recs, parse, n - 1), RevenueAt(recs, parse, n - 1));
    }
  }

  /** Likewise the units-sold sentinel. */
  lemma {:induction false} SalesLeadSpec(recs: seq<Record>, n: nat)
    requires n <= |recs|
    ensures SalesLead(recs, n) == (Best(Sales(recs, n)), Leader(Sales(recs, n)))
  {
    if n > 0 {
      SalesLeadSpec(recs, n - 1);
      LeaderStep(Sales(recs, n - 1), recs[n - 1].totalSales);
    }
  }

  /** The dictionary holds the count of every year read so far, its keys
      in the order the years first appeared. */
  lemma {:induction false} YearDictSpec(recs: seq<Record>, n: nat)
    requires n <= |recs|
    ensures YearDict(recs, n) == (CountMap(Years(recs, n)), FirstSeen(Years(recs, n)))
  {
    if n == 0 {
      assert CountMap([]) == map[];
    } else {
      var pre, year := Years(recs, n - 1), recs[n - 1].car.year;
      YearDictSpec(recs, n - 1);
      if year in CountMap(pre) {
        CountAgain(pre, year);
      } else {
        CountNew(pre, year);
      }
    }
  }

  // ---------------------------------------------------------------------
  // what the loop does to the records

  /** The records once the loop has read the first `n`: record `n - 1`
      gets its revenue written into it when that beats the running maximum
      of the records before it (see `MarkedAt`). */
  function Marked(recs: seq<Record>, parse: PriceParser, n: nat): (out: seq<Record>)
    requires PricedBefore(recs, parse, n)
    ensures |out| == |recs|
  {
    if n == 0 then recs
    else
      var revenue := RevenueAt(recs, parse, n - 1);
      var high := revenue > RevenueLead(recs, parse, n - 1).0;
      Marked(recs, parse, n - 1)[n - 1 := Mark(recs[n - 1], revenue, high)]
  }

  /** The records as the pass leaves them: all of them marked, or, when it
      stops at a price that does not parse, those before it marked and the
      rest as they were (see `AfterPassMarks`). */
  function AfterPass(recs: seq<Record>, parse: PriceParser): seq<Record> {
    FirstUnpricedSpec(recs, parse);
    match FirstUnpriced(recs, parse)
    case None => Marked(recs, parse, |recs|)
    case Some(k) => Marked(recs, parse, k)
  }

  /** Record `i` among the first `n` is marked, with its own revenue,
      exactly when that revenue sets a new high; the records not yet read
      are untouched. */
  lemma {:induction false} MarkedAt(recs: seq<Record>, parse: PriceParser, n: nat, i: nat)
    requires PricedBefore(recs, parse, n) && i < |recs|
    ensures i < n ==>
      Marked(recs, parse, n)[i] == Mark(recs[i], RevenueAt(recs, parse, i), IsNewHigh(Revenues(recs, parse, n), i))
    ensures n <= i ==> Marked(recs, parse, n)[i] == recs[i]
    decreases n
  {
    if n > 0 {
      MarkedAt(recs, parse, n - 1, i);
      if i < n {
        NewHighStep(Revenues(recs, parse, n - 1), RevenueAt(recs, parse, n - 1));
        if i == n - 1 {
          RevenueLeadSpec(recs, parse, n - 1);
        } else {
          ColumnsAt(recs, parse, n - 1, i);
        }
      }
    }
  }

  // ---------------------------------------------------------------------
  // what the pass does to the records, stated without the loop

  /** A complete pass writes its revenue into exactly the records whose
      revenue is positive and above that of every record before them, and
      changes nothing else; a pass stopped at record `k` has done so for
      the records before `k`, judged among those, and left the rest alone. */
  lemma {:induction false} AfterPassMarks(recs: seq<Record>, parse: PriceParser, i: nat)
    requires i < |recs|
    ensures |AfterPass(recs, parse)| == |recs|
    ensures FirstUnpriced(recs, parse).None? ==>
      PricedBefore(recs, parse, |recs|) &&
      AfterPass(recs, parse)[i] == Mark(recs[i], RevenueAt(recs, parse, i), IsNewHigh(Revenues(recs, parse, |recs|), i))
    ensures FirstUnpriced(recs, parse).Some? && i < FirstUnpriced(recs, parse).value ==>
      var k := FirstUnpriced(recs, parse).value;
      PricedBefore(recs, parse, k) &&
      AfterPass(recs, parse)[i] == Mark(recs[i], RevenueAt(recs, parse, i), IsNewHigh(Revenues(recs, parse, k), i))
    ensures FirstUnpriced(recs, parse).Some? && FirstUnpriced(recs, parse).value <= i ==>
      AfterPass(recs, parse)[i] == recs[i]
  {
    FirstUnpricedSpec(recs, parse);
    match FirstUnpriced(recs, parse)
    case None =>
      MarkedAt(recs, parse, |recs|, i);
    case Some(k) =>
      MarkedAt(recs, parse, k, i);
  }

  /** Every change the pass makes is to the revenue key, and what it writes
      there is the record's own revenue. */
  lemma {:induction false} AfterPassOnlyRevenue(recs: seq<Record>, parse: PriceParser, i: nat)
    requires i < |recs|
    ensures |AfterPass(recs, parse)| == |recs|
    ensures AfterPass(recs, parse)[i] == recs[i].(revenue := AfterPass(recs, parse)[i].revenue)
    ensures AfterPass(recs, parse)[i].revenue != recs[i].revenue ==>
      PriceOf(recs[i], parse).Some? && AfterPass(recs, parse)[i].revenue == Some(RevenueAt(recs, parse, i))
  {
    AfterPassMarks(recs, parse, i);
  }

  /** The record that leads on revenue carries its revenue after the pass. */
  lemma {:induction false} LeaderMarked(recs: seq<Record>, parse: PriceParser)
    requires AllPriced(recs, parse) && Leader(Revenues(recs, parse, |recs|)).Some?
    ensures |AfterPass(recs, parse)| == |recs|
    ensures
      var k := Leader(Revenues(recs, parse, |recs|)).value;
      AfterPass(recs, parse)[k].revenue == Some(Revenues(recs, parse, |recs|)[k])
  {
    FirstUnpricedSpec(recs, parse);
    var k := Leader(Revenues(recs, parse, |recs|)).value;
    LeaderIsNewHigh(Revenues(recs, parse, |recs|));
    AfterPassMarks(recs, parse, k);
    ColumnsAt(recs, parse, |recs|, k);
  }

  /** The pass does not change the table `cars_dict_to_table` builds. */
  lemma {:induction false} AfterPassSameRows(recs: seq<Record>, parse: PriceParser, i: nat)
    requires i < |recs|
    ensures |AfterPass(recs, parse)| == |recs|
    ensures Row(AfterPass(recs, parse)[i]) == Row(recs[i])
  {
    AfterPassOnlyRevenue(recs, parse, i);
    RowIgnoresRevenue(recs[i], AfterPass(recs, parse)[i].revenue);
  }

  // ---------------------------------------------------------------------
  // facts the method needs, one per exit of the loop

  /** A pass stopped at record `i` reports that record and has marked the
      records before it, the rest untouched. */
  lemma {:induction false} StopAt(recs: seq<Record>, parse: PriceParser, i: nat)
    requires i < |recs| && PricedBefore(recs, parse, i) && PriceOf(recs[i], parse).None?
    ensures Aggregate(recs, parse) == Failure(FormatError(i))
    ensures Marked(recs, parse, i) == AfterPass(recs, parse)
  {
    FirstUnpricedSpec(recs, parse);
  }

  /** After the last record the loop's variables hold what the summary
      reports. */
  lemma {:induction false} Finish(recs: seq<Record>, parse: PriceParser)
    requires PricedBefore(recs, parse, |recs|)
    ensures FirstUnpriced(recs, parse).None?
    ensures AfterPass(recs, parse) == Marked(recs, parse, |recs|)
    ensures var (counts, order) := YearDict(recs, |recs|);
      && (forall q :: 0 <= q < |order| ==> order[q] in counts)
      && MostCommon(Items(order, counts)) == MostCommon(Tally(Years(recs, |recs|)))
    ensures RevenueLead(recs, parse, |recs|).1 == Leader(Revenues(recs, parse, |recs|))
    ensures var (best, leader) := RevenueLead(recs, parse, |recs|);
      leader.Some? ==> best == Revenues(recs, parse, |recs|)[leader.value]
    ensures SalesLead(recs, |recs|).1 == Leader(Sales(recs, |recs|))
    ensures var (best, leader) := SalesLead(recs, |recs|);
      leader.Some? ==> best == recs[leader.value].totalSales
  {
    FirstUnpricedSpec(recs, parse);
    YearDictSpec(recs, |recs|);
    ItemsAreTally(Years(recs, |recs|));
    RevenueLeadSpec(recs, parse, |recs|);
    SalesLeadSpec(recs, |recs|);
    if Leader(Sales(recs, |recs|)).Some? {
      ColumnsAt(recs, parse, |recs|, Leader(Sales(recs, |recs|)).value);
    }
  }

  // ---------------------------------------------------------------------
  // process_data

  /** The single pass of `process_data` over `data`, updating the records
      in place as the source does, then the three summary values. */
  method ProcessData(data: array<Record>, parse: PriceParser) returns (result: Result<Summary, AggregationError>)
    modifies data
    ensures result == Aggregate(old(data[..]), parse)
    ensures data[..] == AfterPass(old(data[..]), parse)
  {
    ghost var recs := data[..];
    var maxRevenue, revenueLeader: Option<nat> := 0, None;
    var maxSales, salesLeader: Option<nat> := 0, None;
    var counts: map<int, nat> := map[];
    var order: seq<int> := [];
    for i := 0 to data.Length
      invariant PricedBefore(recs, parse, i)
      invariant (maxRevenue, revenueLeader) == RevenueLead(recs, parse, i)
      invariant (maxSales, salesLeader) == SalesLead(recs, i)
      invariant (counts, order) == YearDict(recs, i)
      invariant data[..] == Marked(recs, parse, i)
    {
      MarkedAt(recs, parse, i, i);
      var item := data[i];
      var price := parse(item.price);
      if price.None? {
        StopAt(recs, parse, i);
        return Failure(FormatError(i));
      }
      var revenue := item.totalSales * price.value;
      assert item == recs[i] && revenue == RevenueAt(recs, parse, i);
      assert PricedBefore(recs, parse, i + 1);
      ghost var before := data[..];
      if revenue > maxRevenue {
        data[i] := item.(revenue := Some(revenue));
        maxRevenue, revenueLeader := revenue, Some(i);
        assert data[..] == before[i := item.(revenue := Some(revenue))];
      }
      if item.totalSales > maxSales {
        maxSales, salesLeader := item.totalSales, Some(i);
      }
      var year := item.car.year;
      if year in counts {
        counts := counts[year := counts[year] + 1];
      } else {
        counts := counts[year := 1];
        order := order + [year];
      }
    }
    Finish(recs, parse);
    var top := MostCommon(Items(order, counts));
    if top.None? {
      return Failure(EmptyInput);
    }
    if revenueLeader.None? {
      return Failure(NoRevenueLeader);
    }
    if salesLeader.None? {
      return Failure(NoSalesLeader);
    }
    result := Success(Summary(revenueLeader.value, maxRevenue, salesLeader.value, maxSales, top.value.0, top.value.1));
  }
}
